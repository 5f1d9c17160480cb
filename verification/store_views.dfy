/** The catalogue views of `store/views.py`: the store listing with its
    category and price filters, the product page with its "already in the
    cart" flag, and the keyword search. Each view only reads the tables.
    The `catalogue` argument is the product table read as a query: the rows
    of `t.products` in key order, so the product a view looks up in it is the
    one `InCart` looks up in `t`. */
module StoreViews {
  import opened Common
  import opened Seqs
  import opened Text
  import opened StoreModels
  import opened CartModels
  import opened Db
  import opened CartViews

  /** A category row, as far as the views use it. */
  datatype Category = Category(id: int, slug: string)

  /** Product keys never decrease along `s`. */
  predicate AscendingIds(s: seq<Product>)
  {
    forall i, j :: 0 <= i < j < |s| ==> s[i].id <= s[j].id
  }

  /** Product keys never increase along `s`. */
  predicate DescendingIds(s: seq<Product>)
  {
    forall i, j :: 0 <= i < j < |s| ==> s[i].id >= s[j].id
  }

  /** `p` placed into an ascending run before the first larger key. */
  function InsertById(p: Product, s: seq<Product>): (r: seq<Product>)
    requires AscendingIds(s)
    ensures AscendingIds(r)
    ensures forall x :: x in r <==> x == p || x in s
    ensures |r| == |s| + 1
  {
    if s == [] || p.id <= s[0].id then [p] + s
    else
      var tail := s[1..];
      var rest := InsertById(p, tail);
      assert s == [s[0]] + tail;
      assert forall i :: 0 <= i < |rest| ==> s[0].id <= rest[i].id by {
        forall i | 0 <= i < |rest| ensures s[0].id <= rest[i].id {
          assert rest[i] in rest;
          if rest[i] != p {
            var k :| 0 <= k < |tail| && tail[k] == rest[i];
            assert tail[k] == s[k + 1];
          }
        }
      }
      [s[0]] + rest
  }

  /** Inserting adds `p` once and keeps every other row. */
  lemma {:induction false} InsertByIdCount(p: Product, s: seq<Product>)
    requires AscendingIds(s)
    ensures multiset(InsertById(p, s)) == multiset(s) + multiset{p}
  {
    if s != [] && p.id > s[0].id {
      InsertByIdCount(p, s[1..]);
      assert s == [s[0]] + s[1..];
    }
  }

  /** `order_by('id')`: the rows in ascending key order, none lost or added. */
  function SortById(s: seq<Product>): (r: seq<Product>)
    ensures AscendingIds(r)
    ensures multiset(r) == multiset(s)
    ensures |r| == |s|
  {
    if s == [] then []
    else
      assert s == [s[0]] + s[1..];
      InsertByIdCount(s[0], SortById(s[1..]));
      InsertById(s[0], SortById(s[1..]))
  }

  /** The rows of `s` from last to first. */
  function Reversed(s: seq<Product>): (r: seq<Product>)
    ensures |r| == |s|
    ensures forall i :: 0 <= i < |s| ==> r[i] == s[|s| - 1 - i]
  {
    if s == [] then [] else Reversed(s[1..]) + [s[0]]
  }

  /** Reversing keeps the rows and turns an ascending run into a descending
      one: this is `order_by('-id')`. */
  lemma {:induction false} ReversedDescending(s: seq<Product>)
    requires AscendingIds(s)
    ensures DescendingIds(Reversed(s))
    ensures multiset(Reversed(s)) == multiset(s)
  {
    if s != [] {
      ReversedDescending(s[1..]);
      assert s == [s[0]] + s[1..];
    }
  }

  // ------------------------------------------------------------------
  // The store listing

  /** The test "available for sale". */
  function Available(): Product -> bool
  {
    (p: Product) => p.isAvailable
  }

  /** The test "in the category with key `c`". */
  function InCategory(c: int): Product -> bool
  {
    (p: Product) => p.category == c
  }

  /** `price__price__range=(lo, hi)`: both ends included. */
  function PricedBetween(lo: int, hi: int): Product -> bool
  {
    (p: Product) => lo <= p.price.amount <= hi
  }

  /** `get_object_or_404(Category, slug=...)`'s candidates. */
  function WithSlug(slug: string): Category -> bool
  {
    (c: Category) => c.slug == slug
  }

  /** The listing page: the filtered products and their number, or a 404,
      or the error of a slug shared by several categories. */
  datatype Listing = Listing(products: seq<Product>, count: int) | ListingNotFound | ListingError(exception: string)

  /** The rows the listing keeps before sorting: available, in the category
      when one is named, and priced within the bounds when both are given. */
  function ListingRows(catalogue: seq<Product>, category: Option<int>, minPrice: Option<int>, maxPrice: Option<int>): (r: seq<Product>)
    ensures forall p :: p in r <==>
      && p in catalogue && p.isAvailable
      && (category.Some? ==> p.category == category.value)
      && (minPrice.Some? && maxPrice.Some? ==> minPrice.value <= p.price.amount <= maxPrice.value)
  {
    var available := Filter(catalogue, Available());
    var inCategory := if category.Some? then Filter(available, InCategory(category.value)) else available;
    if minPrice.Some? && maxPrice.Some? then Filter(inCategory, PricedBetween(minPrice.value, maxPrice.value))
    else inCategory
  }

  /** `Store.get`. A non-empty slug must name a category; the price filter
      needs both bounds. The count is that of every kept row, not of the
      one-product page shown. */
  function StoreListing(catalogue: seq<Product>, categories: seq<Category>, slug: Option<string>,
                        minPrice: Option<int>, maxPrice: Option<int>): (r: Listing)
    ensures r.ListingNotFound? <==> slug.Some? && slug.value != "" && forall c :: c in categories ==> c.slug != slug.value
    ensures r.Listing? ==> r.count == |r.products| && AscendingIds(r.products)
    ensures slug.None? || slug.value == "" ==>
      r.Listing? && multiset(r.products) == multiset(ListingRows(catalogue, None, minPrice, maxPrice))
    ensures r.Listing? && slug.Some? && slug.value != "" ==>
      exists c :: c in categories && c.slug == slug.value
        && multiset(r.products) == multiset(ListingRows(catalogue, Some(c.id), minPrice, maxPrice))
  {
    if slug.Some? && slug.value != "" then
      var named := Filter(categories, WithSlug(slug.value));
      if |named| == 0 then ListingNotFound
      else if |named| > 1 then assert named[0] in named; ListingError("MultipleObjectsReturned")
      else
        assert named[0] in named;
        var rows := SortById(ListingRows(catalogue, Some(named[0].id), minPrice, maxPrice));
        Listing(rows, |rows|)
    else
      var rows := SortById(ListingRows(catalogue, None, minPrice, maxPrice));
      Listing(rows, |rows|)
  }

  /** The listing holds, in ascending key order, each available product of
      the named category that is priced within the bounds, as often as it is
      in the table, and nothing else. */
  lemma StoreListingContents(catalogue: seq<Product>, categories: seq<Category>, j: int,
                             minPrice: Option<int>, maxPrice: Option<int>)
    requires forall a, b :: 0 <= a < b < |categories| ==> categories[a].slug != categories[b].slug
    requires 0 <= j < |categories| && categories[j].slug != ""
    ensures var c := categories[j];
      var r := StoreListing(catalogue, categories, Some(c.slug), minPrice, maxPrice);
      && r.Listing?
      && multiset(r.products) == multiset(ListingRows(catalogue, Some(c.id), minPrice, maxPrice))
      && (forall p :: p in r.products <==>
            && p in catalogue && p.isAvailable && p.category == c.id
            && (minPrice.Some? && maxPrice.Some? ==> minPrice.value <= p.price.amount <= maxPrice.value))
  {
    var c := categories[j];
    assert Filter(categories, WithSlug(c.slug)) == [c] by {
      forall i | 0 <= i < |categories| && i != j
        ensures !WithSlug(c.slug)(categories[i])
      {
        if i < j {
          assert categories[i].slug != categories[j].slug;
        } else {
          assert categories[j].slug != categories[i].slug;
        }
      }
      FilterSingle(categories, WithSlug(c.slug), j);
    }
    var rows := ListingRows(catalogue, Some(c.id), minPrice, maxPrice);
    var sorted := SortById(rows);
    assert StoreListing(catalogue, categories, Some(c.slug), minPrice, maxPrice) == Listing(sorted, |sorted|);
    assert forall p :: p in sorted <==> p in rows by {
      forall p
        ensures p in sorted <==> p in rows
      {
        assert p in sorted <==> p in multiset(sorted);
        assert p in rows <==> p in multiset(rows);
      }
    }
  }

  /** Without a category the listing holds each available product priced
      within the bounds (when both are given) as often as it is in the
      table, and no unavailable or out-of-range product. */
  lemma StoreListingDefault(catalogue: seq<Product>, categories: seq<Category>, slug: Option<string>,
                            minPrice: Option<int>, maxPrice: Option<int>)
    requires slug.None? || slug.value == ""
    ensures var r := StoreListing(catalogue, categories, slug, minPrice, maxPrice);
      && r.Listing?
      && forall p :: multiset(r.products)[p] ==
           if p.isAvailable && (minPrice.Some? && maxPrice.Some? ==> minPrice.value <= p.price.amount <= maxPrice.value)
           then multiset(catalogue)[p] else 0
  {
    var available := Filter(catalogue, Available());
    FilterCount(catalogue, Available());
    if minPrice.Some? && maxPrice.Some? {
      FilterCount(available, PricedBetween(minPrice.value, maxPrice.value));
    }
  }

  /** A single bound leaves prices unfiltered. */
  lemma OneBoundIgnored(catalogue: seq<Product>, category: Option<int>, minPrice: Option<int>, maxPrice: Option<int>)
    requires minPrice.None? || maxPrice.None?
    ensures ListingRows(catalogue, category, minPrice, maxPrice) == ListingRows(catalogue, category, None, None)
  {
  }

  /** Without a slug or bounds the listing is every available product. */
  lemma WholeCatalogue(catalogue: seq<Product>, categories: seq<Category>)
    requires forall i :: 0 <= i < |catalogue| ==> catalogue[i].isAvailable
    ensures var r := StoreListing(catalogue, categories, None, None, None);
      r.Listing? && multiset(r.products) == multiset(catalogue) && r.count == |catalogue|
  {
    FilterAll(catalogue, Available());
  }

  // ------------------------------------------------------------------
  // The product page

  /** The product page: the category, the product and whether the session's
      cart already holds it; a 404; or the error of an ambiguous lookup. */
  datatype Detail = Detail(category: Category, product: Product, inCart: bool) | DetailNotFound | DetailError(exception: string)

  /** `CartItem.objects.filter(cart__cart_id=session, product=...).exists()`:
      some line of the product points at a cart carrying the session token. */
  predicate InCart(t: Tables, pid: int, session: string)
  {
    exists i, k :: 0 <= i < |t.items| && 0 <= k < |t.carts|
      && t.items[i].product == pid && t.items[i].cart == Some(t.carts[k].id) && t.carts[k].cartId == session
  }

  /** The candidates of `get_object_or_404(Product, category=..., slug=...)`. */
  function SlugInCategory(c: int, slug: string): Product -> bool
  {
    (p: Product) => p.category == c && p.slug == slug
  }

  /** `SingleProduct.get`. */
  function ProductDetail(t: Tables, catalogue: seq<Product>, categories: seq<Category>,
                         categorySlug: string, productSlug: string, session: string): (r: Detail)
    ensures r.DetailNotFound? <== forall c :: c in categories ==> c.slug != categorySlug
    ensures r.Detail? ==>
      && r.category in categories && r.category.slug == categorySlug
      && r.product in catalogue && r.product.category == r.category.id && r.product.slug == productSlug
      && r.inCart == InCart(t, r.product.id, session)
  {
    var named := Filter(categories, WithSlug(categorySlug));
    if |named| == 0 then DetailNotFound
    else if |named| > 1 then assert named[0] in named; DetailError("MultipleObjectsReturned")
    else
      var found := Filter(catalogue, SlugInCategory(named[0].id, productSlug));
      if |found| == 0 then DetailNotFound
      else if |found| > 1 then DetailError("MultipleObjectsReturned")
      else
        assert named[0] in named && found[0] in found;
        Detail(named[0], found[0], InCart(t, found[0].id, session))
  }

  /** With unique category slugs and unique product slugs, the page names the
      category with the slug and its product with the other slug. */
  lemma ProductDetailShown(t: Tables, catalogue: seq<Product>, categories: seq<Category>,
                           j: int, k: int, session: string)
    requires forall a, b :: 0 <= a < b < |categories| ==> categories[a].slug != categories[b].slug
    requires forall a, b :: 0 <= a < b < |catalogue| ==> catalogue[a].slug != catalogue[b].slug
    requires 0 <= j < |categories| && 0 <= k < |catalogue| && catalogue[k].category == categories[j].id
    ensures var c, p := categories[j], catalogue[k];
      ProductDetail(t, catalogue, categories, c.slug, p.slug, session) == Detail(c, p, InCart(t, p.id, session))
  {
    var c, p := categories[j], catalogue[k];
    assert Filter(categories, WithSlug(c.slug)) == [c] by {
      forall i | 0 <= i < |categories| && i != j
        ensures !WithSlug(c.slug)(categories[i])
      {
        if i < j {
          assert categories[i].slug != categories[j].slug;
        } else {
          assert categories[j].slug != categories[i].slug;
        }
      }
      FilterSingle(categories, WithSlug(c.slug), j);
    }
    assert Filter(catalogue, SlugInCategory(c.id, p.slug)) == [p] by {
      forall i | 0 <= i < |catalogue| && i != k
        ensures !SlugInCategory(c.id, p.slug)(catalogue[i])
      {
        if i < k {
          assert catalogue[i].slug != catalogue[k].slug;
        } else {
          assert catalogue[k].slug != catalogue[i].slug;
        }
      }
      FilterSingle(catalogue, SlugInCategory(c.id, p.slug), k);
    }
  }

  /** A category that exists but holds no product with the slug gives 404. */
  lemma ProductDetailMissing(t: Tables, catalogue: seq<Product>, categories: seq<Category>,
                             j: int, productSlug: string, session: string)
    requires forall a, b :: 0 <= a < b < |categories| ==> categories[a].slug != categories[b].slug
    requires 0 <= j < |categories|
    requires forall p :: p in catalogue ==> !(p.category == categories[j].id && p.slug == productSlug)
    ensures ProductDetail(t, catalogue, categories, categories[j].slug, productSlug, session) == DetailNotFound
  {
    var c := categories[j];
    assert Filter(categories, WithSlug(c.slug)) == [c] by {
      forall i | 0 <= i < |categories| && i != j
        ensures !WithSlug(c.slug)(categories[i])
      {
        if i < j {
          assert categories[i].slug != categories[j].slug;
        } else {
          assert categories[j].slug != categories[i].slug;
        }
      }
      FilterSingle(categories, WithSlug(c.slug), j);
    }
    assert forall i :: 0 <= i < |catalogue| ==> !SlugInCategory(c.id, productSlug)(catalogue[i]) by {
      forall i | 0 <= i < |catalogue| ensures !SlugInCategory(c.id, productSlug)(catalogue[i]) {
        assert catalogue[i] in catalogue;
      }
    }
    FilterNone(catalogue, SlugInCategory(c.id, productSlug));
  }

  /** A line kept under an account never marks a product as in the cart: only
      lines of the session's cart do. */
  lemma InCartIgnoresUserLines(t: Tables, pid: int, session: string, it: CartItem)
    requires it.cart == None
    ensures InCart(t.(items := t.items + [it]), pid, session) == InCart(t, pid, session)
  {
    var s := t.(items := t.items + [it]);
    if InCart(s, pid, session) {
      var i, k :| 0 <= i < |s.items| && 0 <= k < |s.carts|
        && s.items[i].product == pid && s.items[i].cart == Some(s.carts[k].id) && s.carts[k].cartId == session;
      assert i < |t.items|;
      assert t.items[i] == s.items[i];
    }
    if InCart(t, pid, session) {
      var i, k :| 0 <= i < |t.items| && 0 <= k < |t.carts|
        && t.items[i].product == pid && t.items[i].cart == Some(t.carts[k].id) && t.carts[k].cartId == session;
      assert s.items[i] == t.items[i];
    }
  }

  /** After an anonymous visitor adds a product through the form, the product
      page shows it as already in the cart. */
  lemma AddPostMarksInCart(t: Tables, pid: int, post: seq<(string, string)>, session: string)
    requires WellFormed(t) && pid in t.products
    ensures InCart(AddPost(t, pid, post, Anonymous, session).tables, pid, session)
  {
    var t1 := WithCart(t, session);
    WithCartPreserves(t, session);
    var owner := OwnerFor(t1, Anonymous, session);
    var s := AddPost(t, pid, post, Anonymous, session).tables;
    SelectionHasLine(t1, pid, owner, Resolve(t.variations, pid, post));
    var i :| 0 <= i < |s.items| && IsLineOf(pid, owner)(s.items[i]);
    var k := CartIndex(t1.carts, session);
    assert s.items[i].cart == Some(s.carts[k].id);
  }

  // ------------------------------------------------------------------
  // The search

  /** The search page: the matching products and their number, or no
      response at all. */
  datatype Found = Found(products: seq<Product>, count: int) | NoResponse

  /** Some variation of product `pid`, active or not, has a value containing
      the keyword, ignoring case. */
  predicate VariationMatches(vs: seq<Variation>, pid: int, keyword: string)
  {
    exists i :: 0 <= i < |vs| && vs[i].product == pid && IContains(vs[i].value, keyword)
  }

  /** The search test: name, artist or a variation value contains the
      keyword, ignoring case. */
  function MatchesKeyword(vs: seq<Variation>, keyword: string): Product -> bool
  {
    (p: Product) => IContains(p.name, keyword) || IContains(p.artist, keyword) || VariationMatches(vs, p.id, keyword)
  }

  /** `Search.get`. A missing or empty keyword falls off the end of the
      method, so no page is produced. Availability is not consulted. */
  function Search(catalogue: seq<Product>, vs: seq<Variation>, keyword: Option<string>): (r: Found)
    ensures r.NoResponse? <==> keyword.None? || keyword.value == ""
    ensures r.Found? ==> r.count == |r.products| && DescendingIds(r.products)
    ensures r.Found? ==> forall p :: p in r.products <==> p in catalogue && MatchesKeyword(vs, keyword.value)(p)
  {
    if keyword.None? || keyword.value == "" then NoResponse
    else
      var sorted := SortById(Filter(catalogue, MatchesKeyword(vs, keyword.value)));
      ReversedDescending(sorted);
      assert forall p :: p in Reversed(sorted) <==> p in multiset(sorted);
      var rows := Reversed(sorted);
      Found(rows, |rows|)
  }

  /** No two rows share a key, as primary keys guarantee of a table. */
  predicate UniqueIds(s: seq<Product>)
  {
    forall i, j :: 0 <= i < j < |s| ==> s[i].id != s[j].id
  }

  /** The tail of a table with unique keys has unique keys, none of them
      the head's. */
  lemma TailUniqueIds(s: seq<Product>)
    requires |s| > 0 && UniqueIds(s)
    ensures UniqueIds(s[1..])
    ensures forall x :: x in s[1..] ==> x.id != s[0].id
  {
    var tail := s[1..];
    forall i, j | 0 <= i < j < |tail|
      ensures tail[i].id != tail[j].id
    {
      assert tail[i] == s[i + 1] && tail[j] == s[j + 1];
    }
    forall x | x in tail
      ensures x.id != s[0].id
    {
      var k :| 0 <= k < |tail| && tail[k] == x;
      assert x == s[k + 1];
    }
  }

  /** A product whose key is new, put in front of rows with unique keys. */
  lemma ConsUniqueIds(x: Product, r: seq<Product>)
    requires UniqueIds(r) && forall y :: y in r ==> y.id != x.id
    ensures UniqueIds([x] + r)
  {
    var q := [x] + r;
    forall i, j | 0 <= i < j < |q|
      ensures q[i].id != q[j].id
    {
      assert q[j] == r[j - 1];
      if i > 0 {
        assert q[i] == r[i - 1];
      } else {
        assert r[j - 1] in r;
      }
    }
  }

  /** Filtering keeps keys unique. */
  lemma {:induction false} FilterUniqueIds(s: seq<Product>, keep: Product -> bool)
    requires UniqueIds(s)
    ensures UniqueIds(Filter(s, keep))
  {
    if s != [] {
      TailUniqueIds(s);
      FilterUniqueIds(s[1..], keep);
      var tail := Filter(s[1..], keep);
      if keep(s[0]) {
        assert Filter(s, keep) == [s[0]] + tail;
        ConsUniqueIds(s[0], tail);
      } else {
        assert Filter(s, keep) == tail;
      }
    }
  }

  /** Inserting a product whose key is new keeps keys unique. */
  lemma {:induction false} InsertByIdUnique(p: Product, s: seq<Product>)
    requires AscendingIds(s) && UniqueIds(s)
    requires forall x :: x in s ==> x.id != p.id
    ensures UniqueIds(InsertById(p, s))
  {
    if s == [] || p.id <= s[0].id {
      assert InsertById(p, s) == [p] + s;
      ConsUniqueIds(p, s);
    } else {
      var tail := s[1..];
      TailUniqueIds(s);
      assert AscendingIds(tail) by {
        forall i, j | 0 <= i < j < |tail|
          ensures tail[i].id <= tail[j].id
        {
          assert tail[i] == s[i + 1] && tail[j] == s[j + 1];
        }
      }
      assert forall x :: x in tail ==> x in s;
      InsertByIdUnique(p, tail);
      var rest := InsertById(p, tail);
      assert InsertById(p, s) == [s[0]] + rest;
      ConsUniqueIds(s[0], rest);
    }
  }

  /** Sorting keeps keys unique. */
  lemma {:induction false} SortByIdUnique(s: seq<Product>)
    requires UniqueIds(s)
    ensures UniqueIds(SortById(s))
  {
    if s != [] {
      TailUniqueIds(s);
      SortByIdUnique(s[1..]);
      var sorted := SortById(s[1..]);
      forall x | x in sorted
        ensures x.id != s[0].id
      {
        assert x in multiset(sorted);
      }
      InsertByIdUnique(s[0], sorted);
    }
  }

  /** Reversing an ascending run with unique keys gives strictly descending
      keys. */
  lemma ReversedStrictlyDescending(s: seq<Product>)
    requires AscendingIds(s) && UniqueIds(s)
    ensures forall i, j :: 0 <= i < j < |Reversed(s)| ==> Reversed(s)[i].id > Reversed(s)[j].id
  {
    var r := Reversed(s);
    forall i, j | 0 <= i < j < |r|
      ensures r[i].id > r[j].id
    {
      var a, b := |s| - 1 - j, |s| - 1 - i;
      assert 0 <= a < b < |s|;
      assert r[i] == s[b] && r[j] == s[a];
    }
  }

  /** `.distinct()`: over a table with unique keys, the search lists every
      product at most once, keys strictly descending, so the count is the
      number of distinct matches. */
  lemma SearchDistinct(catalogue: seq<Product>, vs: seq<Variation>, keyword: string)
    requires UniqueIds(catalogue) && keyword != ""
    ensures var r := Search(catalogue, vs, Some(keyword));
      && r.Found?
      && forall i, j :: 0 <= i < j < |r.products| ==> r.products[i].id > r.products[j].id
  {
    var matched := Filter(catalogue, MatchesKeyword(vs, keyword));
    FilterUniqueIds(catalogue, MatchesKeyword(vs, keyword));
    SortByIdUnique(matched);
    ReversedStrictlyDescending(SortById(matched));
    assert Search(catalogue, vs, Some(keyword)).products == Reversed(SortById(matched));
  }

  /** Searching is blind to the keyword's case. */
  lemma SearchIgnoresCase(catalogue: seq<Product>, vs: seq<Variation>, keyword: string)
    ensures Search(catalogue, vs, Some(keyword)) == Search(catalogue, vs, Some(Lower(keyword)))
  {
    LowerIdempotent(keyword);
    if keyword != "" {
      assert Lower(keyword) != "" by { assert |Lower(keyword)| == |keyword|; }
      forall i | 0 <= i < |catalogue|
        ensures MatchesKeyword(vs, keyword)(catalogue[i]) == MatchesKeyword(vs, Lower(keyword))(catalogue[i])
      {
        var p := catalogue[i];
        assert VariationMatches(vs, p.id, keyword) == VariationMatches(vs, p.id, Lower(keyword)) by {
          forall j | 0 <= j < |vs|
            ensures IContains(vs[j].value, keyword) == IContains(vs[j].value, Lower(keyword))
          {
          }
        }
      }
      FilterSame(catalogue, MatchesKeyword(vs, keyword), MatchesKeyword(vs, Lower(keyword)));
    } else {
      assert Lower(keyword) == "";
    }
  }

  /** A product named by the keyword itself is found, available or not. */
  lemma SearchFindsByName(catalogue: seq<Product>, vs: seq<Variation>, p: Product)
    requires p in catalogue && p.name != ""
    ensures var r := Search(catalogue, vs, Some(p.name));
      r.Found? && p in r.products
  {
    assert IsPrefix(Lower(p.name), Lower(p.name));
  }
}
