/** The `PlaceOrder` view of `orders/views.py`: the logged-in shopper's cart
    lines become one order row, numbered after the day and its key, and the
    payment page shows that order with the lines and their figures. */
module OrderViews {
  import opened Common
  import opened Seqs
  import opened Text
  import opened CartModels
  import opened OrderModels
  import opened OrderNumbers
  import opened Db
  import opened CartViews
  import opened CartCounter

  /** The set of field names the view tests before creating the order. It is
      a literal, never empty, so the redirect back to the checkout page that
      would follow an empty set is never taken. */
  const RequiredFields: set<string> := {"first_name", "last_name", "email", "phone", "address_line_1",
                                        "address_line_2", "city", "state", "country", "order_note"}

  /** The test `if data:` always passes: the set holds ten names. */
  lemma RequiredFieldsListed()
    ensures |RequiredFields| == 10
  {
  }

  /** What the view answers: a redirect, the payment page, or an exception
      Django turns into a server error. */
  datatype Outcome =
    | Redirected(view: string)
    | Payments(order: Order, lines: seq<CartItem>, totals: Totals)
    | Failed(exception: string)

  /** The tables after the request, and the answer. */
  datatype Placement = Placement(tables: Tables, outcome: Outcome)

  /** `CartItem.objects.filter(user=...)`: every line of the account, active
      or not. */
  function UserLines(items: seq<CartItem>, u: int): (r: seq<CartItem>)
    ensures forall it :: it in r <==> it in items && it.user == Some(u)
  {
    Filter(items, OwnedBy(ByUser(u)))
  }

  /** The test of `Order.objects.get(user=..., is_ordered=True, order_number=...)`. */
  function IsOrderOf(u: int, number: string): Order -> bool
  {
    (o: Order) => o.user == u && o.isOrdered && o.orderNumber == number
  }

  /** The row as it stands after its second `save`: created from the posted
      fields and the figures, then given the number made of the day and its
      own key. */
  function PlacedOrder(id: nat, u: int, customer: Customer, totals: Totals, today: Date, ip: string): Order
    requires ValidDate(today)
  {
    NewOrder(id, u, customer, totals.grandTotal, totals.tax, ip).(orderNumber := OrderNumber(today, id))
  }

  /** The view. An anonymous visitor cannot be used in the line query; an
      account without lines is sent to the store; otherwise one order is
      added and the `get` that follows finds it (see `PlacedOrderIsFound`).
      The cart lines are left as they are. */
  function Place(t: Tables, who: Requester, customer: Customer, today: Date, ip: string): (p: Placement)
    requires WellFormed(t) && ValidDate(today)
    ensures p.tables.products == t.products && p.tables.variations == t.variations
    ensures p.tables.carts == t.carts && p.tables.items == t.items
    ensures !p.outcome.Payments? ==> p.tables == t
    ensures p.outcome.Payments? ==>
      && who.Authenticated?
      && p.outcome.order.user == who.user
      && p.tables.orders == t.orders + [p.outcome.order]
      && p.tables.nextOrder == t.nextOrder + 1
  {
    if who.Anonymous? then Placement(t, Failed("TypeError"))
    else
      var lines := UserLines(t.items, who.user);
      if |lines| <= 0 then Placement(t, Redirected("store"))
      else
        LinesArePriced(t, lines);
        var totals := TotalsOf(lines, t.products);
        var order := PlacedOrder(t.nextOrder, who.user, customer, totals, today, ip);
        Placement(t.(orders := t.orders + [order], nextOrder := t.nextOrder + 1), Payments(order, lines, totals))
  }

  /** The new order is the only one the closing `get` can match: every older
      order carries the number of a smaller key. */
  lemma PlacedOrderIsFound(t: Tables, u: int, customer: Customer, totals: Totals, today: Date, ip: string)
    requires WellFormed(t) && ValidDate(today)
    ensures var o := PlacedOrder(t.nextOrder, u, customer, totals, today, ip);
      Filter(t.orders + [o], IsOrderOf(u, o.orderNumber)) == [o]
  {
    var o := PlacedOrder(t.nextOrder, u, customer, totals, today, ip);
    var all := t.orders + [o];
    var n := |t.orders|;
    OrderNumberShape(today, t.nextOrder);
    forall i | 0 <= i < |all| && i != n
      ensures !IsOrderOf(u, o.orderNumber)(all[i])
    {
      assert all[i] == t.orders[i];
      NumberedByDistinct(t.orders[i].orderNumber, t.orders[i].id, o.orderNumber, t.nextOrder);
    }
    FilterSingle(all, IsOrderOf(u, o.orderNumber), n);
  }

  /** Placing an order keeps the tables well formed: the new key is fresh and
      the new row carries the number of its key. */
  lemma PlacePreserves(t: Tables, who: Requester, customer: Customer, today: Date, ip: string)
    requires WellFormed(t) && ValidDate(today)
    ensures WellFormed(Place(t, who, customer, today, ip).tables)
  {
    var p := Place(t, who, customer, today, ip);
    if p.outcome.Payments? {
      OrderNumberShape(today, t.nextOrder);
      assert p.outcome.order.id == t.nextOrder;
    }
  }

  /** The `PlaceOrder.post` view: the same steps on the database object, the
      row saved once without and once with its number. */
  method PlaceOrder(db: Database, who: Requester, customer: Customer, today: Date, ip: string) returns (out: Outcome)
    requires db.Valid() && ValidDate(today)
    modifies db
    ensures db.Valid()
    ensures Placement(db.Snapshot(), out) == Place(old(db.Snapshot()), who, customer, today, ip)
  {
    ghost var t := db.Snapshot();
    PlacePreserves(t, who, customer, today, ip);
    if who.Anonymous? {
      return Failed("TypeError");
    }
    var lines := UserLines(db.items, who.user);
    if |lines| <= 0 {
      return Redirected("store");
    }
    LinesArePriced(t, lines);
    var totals := ComputeTotals(lines, db.products);
    var order := SaveOrder(db, who.user, customer, totals, today, ip);
    out := Payments(order, lines, totals);
  }

  /** The two saves of the new row, the second after its number is set, and
      the `get` that reads it back by account and number. */
  method SaveOrder(db: Database, u: int, customer: Customer, totals: Totals, today: Date, ip: string)
      returns (order: Order)
    requires db.Valid() && ValidDate(today)
    modifies db
    ensures order == PlacedOrder(old(db.nextOrder), u, customer, totals, today, ip)
    ensures db.Snapshot() == old(db.Snapshot()).(orders := old(db.orders) + [order], nextOrder := old(db.nextOrder) + 1)
  {
    ghost var t := db.Snapshot();
    ghost var placed := PlacedOrder(t.nextOrder, u, customer, totals, today, ip);
    PlacedOrderIsFound(t, u, customer, totals, today, ip);
    var id := db.nextOrder;
    order := NewOrder(id, u, customer, totals.grandTotal, totals.tax, ip);
    db.orders := db.orders + [order];
    db.nextOrder := id + 1;
    var number := OrderNumber(today, id);
    order := order.(orderNumber := number);
    db.orders := db.orders[|db.orders| - 1 := order];
    assert order == placed;
    assert db.orders == t.orders + [placed];
    var found := Filter(db.orders, IsOrderOf(u, number));
    assert found == [placed];
    order := found[0];
  }

  /** An account with no line at all, active or not, is sent to the store and
      nothing is written. */
  lemma PlaceWithoutLines(t: Tables, u: int, customer: Customer, today: Date, ip: string)
    requires WellFormed(t) && ValidDate(today)
    requires forall i :: 0 <= i < |t.items| ==> t.items[i].user != Some(u)
    ensures Place(t, Authenticated(u), customer, today, ip) == Placement(t, Redirected("store"))
  {
    FilterNone(t.items, OwnedBy(ByUser(u)));
  }

  /** An account with a line gets the payment page for a new order: key
      `nextOrder`, the day's number, status New, marked ordered, the posted
      customer fields and address, and as total the grand total (2% tax
      included) of every line of the account. */
  lemma PlaceRecordsOrder(t: Tables, u: int, customer: Customer, today: Date, ip: string, j: int)
    requires WellFormed(t) && ValidDate(today)
    requires 0 <= j < |t.items| && t.items[j].user == Some(u)
    ensures var p := Place(t, Authenticated(u), customer, today, ip);
      && p.outcome.Payments?
      && (forall it :: it in p.outcome.lines <==> it in t.items && it.user == Some(u))
      && (forall i :: 0 <= i < |p.outcome.lines| ==> p.outcome.lines[i].product in t.products)
      && p.outcome.totals == TotalsOf(p.outcome.lines, t.products)
      && p.outcome.order.id == t.nextOrder
      && p.outcome.order.orderNumber == OrderNumber(today, t.nextOrder)
      && p.outcome.order.customer == customer
      && p.outcome.order.ip == ip
      && p.outcome.order.status == New && p.outcome.order.isOrdered
      && p.outcome.order.orderTotal == p.outcome.totals.grandTotal
      && p.outcome.order.tax == p.outcome.totals.tax
      && 100.0 * p.outcome.order.tax == 2.0 * p.outcome.totals.total as real
  {
    assert t.items[j] in UserLines(t.items, u);
  }

  /** When every line of the account is active, the order is for exactly the
      lines and figures the checkout page showed. */
  lemma PlaceMatchesCheckout(t: Tables, u: int, session: string, customer: Customer, today: Date, ip: string, j: int)
    requires WellFormed(t) && ValidDate(today)
    requires 0 <= j < |t.items| && t.items[j].user == Some(u)
    requires forall i :: 0 <= i < |t.items| && t.items[i].user == Some(u) ==> t.items[i].isActive
    ensures var p := Place(t, Authenticated(u), customer, today, ip);
      var page := CartPage(t, Authenticated(u), session);
      p.outcome.Payments? && page.Page? && p.outcome.lines == page.lines && p.outcome.totals == page.totals
  {
    PlaceRecordsOrder(t, u, customer, today, ip, j);
    FilterSame(t.items, OwnedBy(ByUser(u)), ActiveOf(ByUser(u)));
  }

  /** Unlike the checkout page, the order also bills the account's inactive
      lines. */
  lemma PlaceBillsInactiveLines(t: Tables, u: int, session: string, customer: Customer, today: Date, ip: string, j: int)
    requires WellFormed(t) && ValidDate(today)
    requires 0 <= j < |t.items| && t.items[j].user == Some(u) && !t.items[j].isActive
    ensures var p := Place(t, Authenticated(u), customer, today, ip);
      var page := CartPage(t, Authenticated(u), session);
      p.outcome.Payments? && page.Page? && t.items[j] in p.outcome.lines && t.items[j] !in page.lines
  {
    PlaceRecordsOrder(t, u, customer, today, ip, j);
  }

  /** The cart is not emptied: posting the form again places a second order
      for the same total under a different number, and the cart counter
      still shows the same count. */
  lemma PlaceTwice(t: Tables, u: int, session: string, customer: Customer, today: Date, ip: string, j: int)
    requires WellFormed(t) && ValidDate(today)
    requires 0 <= j < |t.items| && t.items[j].user == Some(u)
    ensures var p1 := Place(t, Authenticated(u), customer, today, ip);
      && WellFormed(p1.tables)
      && var p2 := Place(p1.tables, Authenticated(u), customer, today, ip);
      && p1.outcome.Payments? && p2.outcome.Payments?
      && p2.outcome.order.orderTotal == p1.outcome.order.orderTotal
      && p2.outcome.order.orderNumber != p1.outcome.order.orderNumber
      && |p2.tables.orders| == |t.orders| + 2
      && CartCount(p2.tables, Authenticated(u), session) == CartCount(t, Authenticated(u), session)
  {
    var p1 := Place(t, Authenticated(u), customer, today, ip);
    PlaceRecordsOrder(t, u, customer, today, ip, j);
    PlacePreserves(t, Authenticated(u), customer, today, ip);
    PlaceRecordsOrder(p1.tables, u, customer, today, ip, j);
    OrderNumberShape(today, t.nextOrder);
    OrderNumberShape(today, t.nextOrder + 1);
    NumberedByDistinct(p1.outcome.order.orderNumber, t.nextOrder, OrderNumber(today, t.nextOrder + 1), t.nextOrder + 1);
  }
}
