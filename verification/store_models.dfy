/** The catalogue records of `store/models.py`: prices, products and their
    colour/size variations, with the record defaults and the variation
    manager's `colors()`/`sizes()` filters. */
module StoreModels {
  import opened Text
  import opened Seqs

  /** A price row: an integer amount, shared by any number of products. */
  datatype Price = Price(id: int, amount: int)

  /** The string form of a price: the decimal rendering of its amount. */
  function PriceLabel(p: Price): (s: string)
    ensures ParseInt(s) == p.amount
    ensures p.amount >= 0 ==> AllDigits(s)
  {
    ParseIntToString(p.amount);
    IntToString(p.amount)
  }

  /** A product row. `stock` is a plain integer: nothing keeps it non-negative. */
  datatype Product = Product(
    id: int,
    name: string,
    slug: string,
    description: string,
    artist: string,
    price: Price,
    stock: int,
    isAvailable: bool,
    category: int,
    gift: int)

  /** A product as created without an explicit availability: it is available. */
  function NewProduct(id: int, name: string, slug: string, description: string, artist: string,
                      price: Price, stock: int, category: int, gift: int): (p: Product)
    ensures p.isAvailable
    ensures p.id == id && p.name == name && p.slug == slug && p.price == price
    ensures p.stock == stock && p.category == category && p.gift == gift
    ensures p.description == description && p.artist == artist
  {
    Product(id, name, slug, description, artist, price, stock, true, category, gift)
  }

  /** The string form of a product is its name. */
  function ProductLabel(p: Product): (s: string)
    ensures s == p.name
  {
    p.name
  }

  /** The two choices declared for a variation's category (stored value, label). */
  const VariationCategoryChoices: seq<(string, string)> := [("color", "color"), ("size", "size")]

  /** `c` is one of the stored values of the declared choices. */
  predicate IsVariationCategory(c: string)
  {
    exists k :: 0 <= k < |VariationCategoryChoices| && VariationCategoryChoices[k].0 == c
  }

  /** The declared choices are exactly `color` and `size`. */
  lemma VariationCategories(c: string)
    ensures IsVariationCategory(c) <==> c == "color" || c == "size"
  {
    if c == "color" {
      assert VariationCategoryChoices[0].0 == c;
    } else if c == "size" {
      assert VariationCategoryChoices[1].0 == c;
    }
  }

  /** A variation row. The category is stored as text; the choices are not
      enforced when a row is written. */
  datatype Variation = Variation(id: int, product: int, category: string, value: string, isActive: bool)

  /** A variation as created without an explicit flag: it is active. */
  function NewVariation(id: int, product: int, category: string, value: string): (v: Variation)
    ensures v.isActive
    ensures v.id == id && v.product == product && v.category == category && v.value == value
  {
    Variation(id, product, category, value, true)
  }

  /** The string form of a variation is its value. */
  function VariationLabel(v: Variation): (s: string)
    ensures s == v.value
  {
    v.value
  }

  /** The test "an active variation of category `c`". */
  function ActiveOfCategory(c: string): Variation -> bool
  {
    (v: Variation) => v.category == c && v.isActive
  }

  /** `VariationManager.colors()`: the active variations of category `color`. */
  function Colors(vs: seq<Variation>): (r: seq<Variation>)
    ensures forall v :: v in r <==> v in vs && v.category == "color" && v.isActive
    ensures forall v :: multiset(r)[v] == if v.category == "color" && v.isActive then multiset(vs)[v] else 0
  {
    FilterCount(vs, ActiveOfCategory("color"));
    Filter(vs, ActiveOfCategory("color"))
  }

  /** `VariationManager.sizes()`: the active variations of category `size`. */
  function Sizes(vs: seq<Variation>): (r: seq<Variation>)
    ensures forall v :: v in r <==> v in vs && v.category == "size" && v.isActive
    ensures forall v :: multiset(r)[v] == if v.category == "size" && v.isActive then multiset(vs)[v] else 0
  {
    FilterCount(vs, ActiveOfCategory("size"));
    Filter(vs, ActiveOfCategory("size"))
  }

  /** Between them, `colors()` and `sizes()` return every active variation whose
      category is one of the declared choices, each exactly once. */
  lemma ColorsAndSizesPartition(vs: seq<Variation>)
    ensures multiset(Colors(vs)) + multiset(Sizes(vs))
         == multiset(Filter(vs, (v: Variation) => v.isActive && IsVariationCategory(v.category)))
  {
    var both := Filter(vs, (v: Variation) => v.isActive && IsVariationCategory(v.category));
    FilterCount(vs, (v: Variation) => v.isActive && IsVariationCategory(v.category));
    forall v
      ensures (multiset(Colors(vs)) + multiset(Sizes(vs)))[v] == multiset(both)[v]
    {
      VariationCategories(v.category);
    }
  }
}
