/** The database the cart and order code works on, as in-memory tables, with
    the row-level queries it issues (`get`, `filter`, `create`, `save`,
    `delete`) written as functions over those tables. */
module Db {
  import opened Common
  import opened Seqs
  import opened StoreModels
  import opened CartModels
  import opened OrderModels
  import opened OrderNumbers

  /** Who is asking: an anonymous visitor (identified by a session token,
      passed separately) or a logged-in account. */
  datatype Requester = Anonymous | Authenticated(user: int)

  /** The owner a cart line is looked up by: an account or a cart row. */
  datatype Owner = ByUser(user: int) | ByCart(cart: int)

  /** The value of every table, and the next primary key of each. */
  datatype Tables = Tables(
    products: map<int, Product>,
    variations: seq<Variation>,
    carts: seq<Cart>,
    items: seq<CartItem>,
    orders: seq<Order>,
    nextCart: int,
    nextItem: int,
    nextOrder: int)

  /** Products are keyed by their own id. */
  predicate CatalogKeyed(products: map<int, Product>)
  {
    forall pid :: pid in products ==> products[pid].id == pid
  }

  /** Every line names an existing product, and line keys are unique and
      below the next key. */
  predicate LinesSound(items: seq<CartItem>, products: map<int, Product>, nextItem: int)
  {
    && (forall i :: 0 <= i < |items| ==> items[i].product in products && items[i].id < nextItem)
    && LineKeysUnique(items)
  }

  /** No two lines share a key. */
  predicate LineKeysUnique(items: seq<CartItem>)
  {
    forall i, j :: 0 <= i < j < |items| ==> items[i].id != items[j].id
  }

  /** Every cart a line points at has a key below the next cart key. */
  predicate LinesPointBelow(items: seq<CartItem>, nextCart: int)
  {
    forall i :: 0 <= i < |items| && items[i].cart.Some? ==> items[i].cart.value < nextCart
  }

  /** Cart keys are unique and below the next key, and no two carts share a
      session token. */
  predicate CartsSound(carts: seq<Cart>, nextCart: int)
  {
    && (forall i :: 0 <= i < |carts| ==> carts[i].id < nextCart)
    && (forall i, j :: 0 <= i < j < |carts| ==> carts[i].id != carts[j].id && carts[i].cartId != carts[j].cartId)
  }

  /** Order keys are unique, positive and below the next key, and every order
      carries the number derived from its key. */
  predicate OrdersSound(orders: seq<Order>, nextOrder: int)
  {
    && 1 <= nextOrder
    && (forall i :: 0 <= i < |orders| ==> 1 <= orders[i].id < nextOrder && NumberedBy(orders[i].orderNumber, orders[i].id))
    && (forall i, j :: 0 <= i < j < |orders| ==> orders[i].id != orders[j].id)
  }

  /** What the schema and the code's own writes keep true. */
  predicate WellFormed(t: Tables)
  {
    && CatalogKeyed(t.products)
    && LinesSound(t.items, t.products, t.nextItem)
    && LinesPointBelow(t.items, t.nextCart)
    && CartsSound(t.carts, t.nextCart)
    && OrdersSound(t.orders, t.nextOrder)
  }

  /** No two orders share an order number. */
  lemma OrderNumbersDistinct(t: Tables, i: int, j: int)
    requires WellFormed(t) && 0 <= i < |t.orders| && 0 <= j < |t.orders| && i != j
    ensures t.orders[i].orderNumber != t.orders[j].orderNumber
  {
    if i < j {
      NumberedByDistinct(t.orders[i].orderNumber, t.orders[i].id, t.orders[j].orderNumber, t.orders[j].id);
    } else {
      NumberedByDistinct(t.orders[j].orderNumber, t.orders[j].id, t.orders[i].orderNumber, t.orders[i].id);
    }
  }

  /** `Cart.objects.get(cart_id=session)`: the position of the cart with that
      token, or -1 when there is none. */
  function CartIndex(carts: seq<Cart>, session: string): (k: int)
    ensures -1 <= k < |carts|
    ensures k >= 0 ==> carts[k].cartId == session
    ensures k < 0 <==> forall i :: 0 <= i < |carts| ==> carts[i].cartId != session
  {
    if carts == [] then -1
    else if carts[0].cartId == session then 0
    else
      var k := CartIndex(carts[1..], session);
      if k < 0 then -1 else k + 1
  }

  /** The cart row for `session`, created when missing (`get` falling back to
      `create`); nothing else changes. */
  function WithCart(t: Tables, session: string): (r: Tables)
    ensures CartIndex(r.carts, session) >= 0
    ensures r.products == t.products && r.variations == t.variations && r.items == t.items
    ensures r.orders == t.orders && r.nextItem == t.nextItem && r.nextOrder == t.nextOrder
    ensures CartIndex(t.carts, session) >= 0 ==> r == t
    ensures CartIndex(t.carts, session) < 0 ==>
      r == t.(carts := t.carts + [Cart(t.nextCart, session)], nextCart := t.nextCart + 1)
  {
    if CartIndex(t.carts, session) >= 0 then t
    else
      var r := t.(carts := t.carts + [Cart(t.nextCart, session)], nextCart := t.nextCart + 1);
      assert r.carts[|t.carts|].cartId == session;
      r
  }

  /** Creating the session cart keeps the tables well formed. */
  lemma WithCartPreserves(t: Tables, session: string)
    requires WellFormed(t)
    ensures WellFormed(WithCart(t, session))
  {
  }

  /** A cart created for a session no cart carries is the one later found
      for that session. */
  lemma NewSessionCart(t: Tables, session: string)
    requires CartIndex(t.carts, session) < 0
    ensures CartIndex(WithCart(t, session).carts, session) == |t.carts|
    ensures WithCart(t, session).carts[|t.carts|].id == t.nextCart
  {
  }

  /** The primary key of the cart row for `session`. */
  function SessionCart(t: Tables, session: string): (pk: int)
    requires CartIndex(t.carts, session) >= 0
    ensures CartsSound(t.carts, t.nextCart) ==> pk < t.nextCart
  {
    t.carts[CartIndex(t.carts, session)].id
  }

  /** A line belongs to the owner: its `user` or its `cart` column names it. */
  predicate Owns(it: CartItem, owner: Owner)
  {
    match owner
    case ByUser(u) => it.user == Some(u)
    case ByCart(c) => it.cart == Some(c)
  }

  /** The test "is a line for product `pid` belonging to `owner`". */
  function IsLineOf(pid: int, owner: Owner): CartItem -> bool
  {
    (it: CartItem) => it.product == pid && Owns(it, owner)
  }

  /** `CartItem.objects.filter(product=..., user=...)` or `(..., cart=...)`. */
  function LinesOf(items: seq<CartItem>, pid: int, owner: Owner): (r: seq<CartItem>)
    ensures forall it :: it in r <==> it in items && it.product == pid && Owns(it, owner)
  {
    Filter(items, IsLineOf(pid, owner))
  }

  /** Every line of a sub-sequence of the line table names an existing product. */
  lemma LinesArePriced(t: Tables, lines: seq<CartItem>)
    requires WellFormed(t)
    requires forall it :: it in lines ==> it in t.items
    ensures forall i :: 0 <= i < |lines| ==> lines[i].product in t.products
  {
    forall i | 0 <= i < |lines|
      ensures lines[i].product in t.products
    {
      assert lines[i] in lines;
    }
  }

  /** The line `create(product=..., quantity=1, user=...)` or
      `create(product=..., cart=..., quantity=1)` makes, with the given
      variations attached. */
  function NewLine(id: int, owner: Owner, pid: int, variations: seq<int>): (it: CartItem)
    ensures Owns(it, owner)
    ensures owner.ByUser? ==> it.cart == None
    ensures owner.ByCart? ==> it.user == None
    ensures it.id == id && it.product == pid && it.variations == variations
    ensures it.quantity == 1 && it.isActive
  {
    match owner
    case ByUser(u) => NewCartItem(id, Some(u), pid, None, 1).(variations := variations)
    case ByCart(c) => NewCartItem(id, None, pid, Some(c), 1).(variations := variations)
  }

  /** The owner is an account, or a cart key already handed out. */
  predicate OwnerKnown(t: Tables, owner: Owner)
  {
    owner.ByCart? ==> owner.cart < t.nextCart
  }

  /** The tables with a new line for `pid` appended under the next key. */
  function AppendLine(t: Tables, owner: Owner, pid: int, variations: seq<int>): Tables
  {
    t.(items := t.items + [NewLine(t.nextItem, owner, pid, variations)], nextItem := t.nextItem + 1)
  }

  /** A new line for an existing product, owned by an account or a known
      cart, keeps the tables well formed. */
  lemma AppendLinePreserves(t: Tables, owner: Owner, pid: int, variations: seq<int>)
    requires WellFormed(t) && pid in t.products && OwnerKnown(t, owner)
    ensures WellFormed(AppendLine(t, owner, pid, variations))
  {
  }

  /** Every line with key `id` has its quantity moved by `delta` (`get(id=...)`,
      `quantity += delta`, `save()`). */
  function UpdateQuantity(items: seq<CartItem>, id: int, delta: int): (r: seq<CartItem>)
    ensures |r| == |items|
    ensures forall i :: 0 <= i < |items| ==>
      r[i] == if items[i].id == id then items[i].(quantity := items[i].quantity + delta) else items[i]
  {
    seq(|items|, i requires 0 <= i < |items| =>
      if items[i].id == id then items[i].(quantity := items[i].quantity + delta) else items[i])
  }

  /** Moving quantities keeps every line's product and key. */
  lemma UpdateQuantitySound(items: seq<CartItem>, products: map<int, Product>, nextItem: int, id: int, delta: int)
    requires LinesSound(items, products, nextItem)
    ensures LinesSound(UpdateQuantity(items, id, delta), products, nextItem)
  {
  }

  /** Moving the quantity of the line with key `id` keeps the tables well formed. */
  lemma UpdateQuantityPreserves(t: Tables, id: int, delta: int)
    requires WellFormed(t)
    ensures WellFormed(t.(items := UpdateQuantity(t.items, id, delta)))
  {
    UpdateQuantitySound(t.items, t.products, t.nextItem, id, delta);
  }

  /** With unique keys, the update touches exactly the line at `j`. */
  lemma UpdateQuantityAt(items: seq<CartItem>, j: int, delta: int)
    requires 0 <= j < |items|
    requires forall a, b :: 0 <= a < b < |items| ==> items[a].id != items[b].id
    ensures UpdateQuantity(items, items[j].id, delta) == items[j := items[j].(quantity := items[j].quantity + delta)]
  {
  }

  /** The test "is not the line with key `id`". */
  function OtherThan(id: int): CartItem -> bool
  {
    (it: CartItem) => it.id != id
  }

  /** `delete()` of the line with key `id`. */
  function RemoveLine(items: seq<CartItem>, id: int): (r: seq<CartItem>)
    ensures forall it :: it in r <==> it in items && it.id != id
  {
    Filter(items, OtherThan(id))
  }

  /** Filtering lines with unique keys leaves lines with unique keys. */
  lemma {:induction false} FilterKeysUnique(items: seq<CartItem>, keep: CartItem -> bool)
    requires LineKeysUnique(items)
    ensures LineKeysUnique(Filter(items, keep))
  {
    if items != [] {
      var rest := items[1..];
      assert LineKeysUnique(rest) by {
        forall a, b | 0 <= a < b < |rest|
          ensures rest[a].id != rest[b].id
        {
          assert rest[a] == items[a + 1] && rest[b] == items[b + 1];
        }
      }
      FilterKeysUnique(rest, keep);
      var tail := Filter(rest, keep);
      if keep(items[0]) {
        forall b | 0 <= b < |tail|
          ensures items[0].id != tail[b].id
        {
          assert tail[b] in rest;
          var k :| 0 <= k < |rest| && rest[k] == tail[b];
          assert rest[k] == items[k + 1];
        }
        assert Filter(items, keep) == [items[0]] + tail;
      } else {
        assert Filter(items, keep) == tail;
      }
    }
  }

  /** Deleting a line keeps the others sound. */
  lemma RemoveLineSound(items: seq<CartItem>, products: map<int, Product>, nextItem: int, id: int)
    requires LinesSound(items, products, nextItem)
    ensures LinesSound(RemoveLine(items, id), products, nextItem)
  {
    var r := RemoveLine(items, id);
    forall i | 0 <= i < |r|
      ensures r[i].product in products && r[i].id < nextItem
    {
      assert r[i] in items;
    }
    FilterKeysUnique(items, OtherThan(id));
  }

  /** Deleting the line with key `id` keeps the tables well formed. */
  lemma RemoveLinePreserves(t: Tables, id: int)
    requires WellFormed(t)
    ensures WellFormed(t.(items := RemoveLine(t.items, id)))
  {
    var r := RemoveLine(t.items, id);
    RemoveLineSound(t.items, t.products, t.nextItem, id);
    forall i | 0 <= i < |r| && r[i].cart.Some?
      ensures r[i].cart.value < t.nextCart
    {
      assert r[i] in r;
    }
  }

  /** With unique keys, deleting removes exactly the line at `j`. */
  lemma RemoveLineAt(items: seq<CartItem>, j: int)
    requires 0 <= j < |items|
    requires forall a, b :: 0 <= a < b < |items| ==> items[a].id != items[b].id
    ensures RemoveLine(items, items[j].id) == items[..j] + items[j + 1..]
  {
    var id := items[j].id;
    assert forall i :: 0 <= i < |items| && i != j ==> OtherThan(id)(items[i]) by {
      forall i | 0 <= i < |items| && i != j ensures OtherThan(id)(items[i]) {
        if i < j {
          assert items[i].id != items[j].id;
        } else {
          assert items[j].id != items[i].id;
        }
      }
    }
    FilterDropsOne(items, OtherThan(id), j);
  }

  /** `product.stock -= 1; product.save()`. */
  function DecrementStock(products: map<int, Product>, pid: int): (r: map<int, Product>)
    requires pid in products
    ensures r.Keys == products.Keys
    ensures r[pid] == products[pid].(stock := products[pid].stock - 1)
    ensures forall q :: q in products && q != pid ==> r[q] == products[q]
  {
    products[pid := products[pid].(stock := products[pid].stock - 1)]
  }

  /** Taking stock keeps the catalogue keyed and every line's product present. */
  lemma DecrementStockSound(t: Tables, pid: int)
    requires WellFormed(t) && pid in t.products
    ensures WellFormed(t.(products := DecrementStock(t.products, pid)))
  {
  }

  /** The database object: one field per table. */
  class Database {
    var products: map<int, Product>
    var variations: seq<Variation>
    var carts: seq<Cart>
    var items: seq<CartItem>
    var orders: seq<Order>
    var nextCart: int
    var nextItem: int
    var nextOrder: int

    /** The current value of all tables. */
    function Snapshot(): Tables
      reads this
    {
      Tables(products, variations, carts, items, orders, nextCart, nextItem, nextOrder)
    }

    predicate Valid()
      reads this
    {
      WellFormed(Snapshot())
    }

    /** A database holding a catalogue and nothing else. */
    constructor (products: map<int, Product>, variations: seq<Variation>)
      requires forall pid :: pid in products ==> products[pid].id == pid
      ensures Valid()
      ensures Snapshot() == Tables(products, variations, [], [], [], 1, 1, 1)
    {
      this.products := products;
      this.variations := variations;
      carts := [];
      items := [];
      orders := [];
      nextCart := 1;
      nextItem := 1;
      nextOrder := 1;
    }
  }
}
