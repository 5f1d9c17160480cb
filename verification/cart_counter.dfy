/** The `counter` context processor of `cart/context_processors.py`: the
    number of units in the shopper's cart, shown on every page outside the
    admin site. */
module CartCounter {
  import opened Common
  import opened Seqs
  import opened Text
  import opened CartModels
  import opened Db
  import opened CartViews

  /** The sum of the lines' quantities. */
  function QuantitySum(lines: seq<CartItem>): int
  {
    if lines == [] then 0 else lines[0].quantity + QuantitySum(lines[1..])
  }

  /** The quantity of two runs of lines is the sum of their quantities. */
  lemma {:induction false} QuantitySumAppend(a: seq<CartItem>, b: seq<CartItem>)
    ensures QuantitySum(a + b) == QuantitySum(a) + QuantitySum(b)
  {
    if a == [] {
      assert a + b == b;
    } else {
      assert (a + b)[1..] == a[1..] + b;
      QuantitySumAppend(a[1..], b);
    }
  }

  /** The test "a line of `owner`", active or not. */
  function OwnedBy(owner: Owner): CartItem -> bool
  {
    (it: CartItem) => Owns(it, owner)
  }

  /** The units in the lines of `owner`. */
  function OwnedQuantity(items: seq<CartItem>, owner: Owner): int
  {
    QuantitySum(Filter(items, OwnedBy(owner)))
  }

  /** Whose lines are counted: the account's when logged in; otherwise those
      of the first cart carrying the session token (`cart[:1]`), and nobody's
      when there is no such cart. */
  function CountedOwner(t: Tables, who: Requester, session: string): Option<Owner>
  {
    if who.Authenticated? then Some(ByUser(who.user))
    else if CartIndex(t.carts, session) < 0 then None
    else Some(ByCart(SessionCart(t, session)))
  }

  /** The number shown as `cart_count`: every line of the shopper counts,
      inactive ones included. */
  function CartCount(t: Tables, who: Requester, session: string): (n: int)
    ensures CountedOwner(t, who, session).None? ==> n == 0
  {
    match CountedOwner(t, who, session)
    case None => 0
    case Some(owner) => OwnedQuantity(t.items, owner)
  }

  /** The `counter` context processor: nothing at all on a path containing
      `admin`, and `cart_count` everywhere else. */
  method Counter(db: Database, who: Requester, session: string, path: string) returns (r: map<string, int>)
    requires db.Valid()
    ensures Contains(path, "admin") ==> r == map[]
    ensures !Contains(path, "admin") ==> r == map["cart_count" := CartCount(db.Snapshot(), who, session)]
  {
    if Contains(path, "admin") {
      return map[];
    }
    var count := 0;
    var owner := CountedOwner(db.Snapshot(), who, session);
    if owner.Some? {
      var lines := Filter(db.items, OwnedBy(owner.value));
      for i := 0 to |lines|
        invariant count == QuantitySum(lines[..i])
      {
        assert lines[..i + 1] == lines[..i] + [lines[i]];
        QuantitySumAppend(lines[..i], [lines[i]]);
        count := count + lines[i].quantity;
      }
      assert lines[..|lines|] == lines;
    }
    r := map["cart_count" := count];
  }

  /** The owner's units are those of the first line, if it is theirs, plus
      those in the rest. */
  lemma OwnedQuantityCons(items: seq<CartItem>, owner: Owner)
    requires items != []
    ensures OwnedQuantity(items, owner)
         == (if Owns(items[0], owner) then items[0].quantity else 0) + OwnedQuantity(items[1..], owner)
  {
    var keep := OwnedBy(owner);
    QuantitySumAppend(if keep(items[0]) then [items[0]] else [], Filter(items[1..], keep));
  }

  /** The owner's units in two runs of lines add up. */
  lemma OwnedQuantityAppend(a: seq<CartItem>, b: seq<CartItem>, owner: Owner)
    ensures OwnedQuantity(a + b, owner) == OwnedQuantity(a, owner) + OwnedQuantity(b, owner)
  {
    FilterAppend(a, b, OwnedBy(owner));
    QuantitySumAppend(Filter(a, OwnedBy(owner)), Filter(b, OwnedBy(owner)));
  }

  /** Changing the quantity of one of the owner's lines by `d` changes the
      owner's units by `d`. */
  lemma {:induction false} BumpCount(items: seq<CartItem>, owner: Owner, j: int, d: int)
    requires 0 <= j < |items| && Owns(items[j], owner)
    ensures OwnedQuantity(items[j := items[j].(quantity := items[j].quantity + d)], owner)
         == OwnedQuantity(items, owner) + d
  {
    var bumped := items[j := items[j].(quantity := items[j].quantity + d)];
    OwnedQuantityCons(items, owner);
    OwnedQuantityCons(bumped, owner);
    if j == 0 {
      assert bumped[1..] == items[1..];
    } else {
      assert bumped[1..] == items[1..][j - 1 := items[j].(quantity := items[j].quantity + d)];
      BumpCount(items[1..], owner, j - 1, d);
    }
  }

  /** With unique keys, moving the quantity of one of the owner's lines by
      `d` moves the owner's units by `d`. */
  lemma UpdateCount(items: seq<CartItem>, owner: Owner, it: CartItem, d: int)
    requires it in items && Owns(it, owner) && LineKeysUnique(items)
    ensures OwnedQuantity(UpdateQuantity(items, it.id, d), owner) == OwnedQuantity(items, owner) + d
  {
    var j :| 0 <= j < |items| && items[j] == it;
    UpdateQuantityAt(items, j, d);
    BumpCount(items, owner, j, d);
  }

  /** Deleting the line at `j` takes its units off its owner's count. */
  lemma RemoveCount(items: seq<CartItem>, owner: Owner, j: int)
    requires 0 <= j < |items| && Owns(items[j], owner)
    ensures OwnedQuantity(items[..j] + items[j + 1..], owner) == OwnedQuantity(items, owner) - items[j].quantity
  {
    var tail := items[j..];
    assert items == items[..j] + tail;
    assert tail[1..] == items[j + 1..];
    OwnedQuantityAppend(items[..j], tail, owner);
    OwnedQuantityAppend(items[..j], items[j + 1..], owner);
    OwnedQuantityCons(tail, owner);
  }

  /** A new line of one unit raises its owner's count by one. */
  lemma AppendCount(t: Tables, owner: Owner, pid: int, variations: seq<int>)
    ensures OwnedQuantity(AppendLine(t, owner, pid, variations).items, owner) == OwnedQuantity(t.items, owner) + 1
  {
    var line := NewLine(t.nextItem, owner, pid, variations);
    FilterSnoc(t.items, line, OwnedBy(owner));
    QuantitySumAppend(Filter(t.items, OwnedBy(owner)), [line]);
  }

  /** Whatever branch it takes, adding a selection raises the owner's count
      by exactly one. */
  lemma SelectionCount(t: Tables, pid: int, owner: Owner, requested: seq<int>)
    requires pid in t.products && LineKeysUnique(t.items)
    ensures OwnedQuantity(AddSelection(t, pid, owner, requested).items, owner) == OwnedQuantity(t.items, owner) + 1
  {
    var lines := LinesOf(t.items, pid, owner);
    var k := FirstIndex(VariationLists(lines), requested);
    if |lines| == 0 {
      AppendCount(t, owner, pid, Dedup(requested));
    } else if k >= 0 {
      assert lines[k] in lines;
      UpdateCount(t.items, owner, lines[k], 1);
    } else {
      AppendCount(t, owner, pid, Dedup(requested));
    }
  }

  /** No line points at the cart key about to be handed out. */
  lemma NewCartIsEmpty(t: Tables)
    requires WellFormed(t)
    ensures OwnedQuantity(t.items, ByCart(t.nextCart)) == 0
  {
    FilterNone(t.items, OwnedBy(ByCart(t.nextCart)));
  }

  /** Adding through the form raises the units of the shopper's lines by one. */
  lemma AddPostCount(t: Tables, pid: int, post: seq<(string, string)>, who: Requester, session: string)
    requires pid in t.products && LineKeysUnique(t.items)
    ensures var owner := OwnerFor(WithCart(t, session), who, session);
      OwnedQuantity(AddPost(t, pid, post, who, session).tables.items, owner) == OwnedQuantity(t.items, owner) + 1
  {
    var t1 := WithCart(t, session);
    var owner := OwnerFor(t1, who, session);
    var requested := Resolve(t.variations, pid, post);
    assert AddPost(t, pid, post, who, session).tables == AddSelection(t1, pid, owner, requested);
    assert t1.items == t.items && pid in t1.products;
    SelectionCount(t1, pid, owner, requested);
  }

  /** Adding a product through the form raises the shopper's `cart_count` by
      exactly one, whether or not a cart existed before. */
  lemma CountAfterAddPost(t: Tables, pid: int, post: seq<(string, string)>, who: Requester, session: string)
    requires WellFormed(t) && pid in t.products
    ensures CartCount(AddPost(t, pid, post, who, session).tables, who, session) == CartCount(t, who, session) + 1
  {
    var t1 := WithCart(t, session);
    var owner := OwnerFor(t1, who, session);
    var requested := Resolve(t.variations, pid, post);
    var s := AddPost(t, pid, post, who, session).tables;
    AddPostCount(t, pid, post, who, session);
    assert CartCount(s, who, session) == OwnedQuantity(s.items, owner) by {
      assert CountedOwner(s, who, session) == Some(owner);
    }
    if who.Anonymous? && CartIndex(t.carts, session) < 0 {
      NewSessionCart(t, session);
      NewCartIsEmpty(t);
    } else {
      assert CountedOwner(t, who, session) == Some(owner);
    }
  }

  /** Taking one unit off one of the shopper's lines lowers `cart_count` by
      one when the line had several units, and by the line's quantity when
      the line is deleted. */
  lemma CountAfterDelete(t: Tables, who: Requester, session: string, j: int)
    requires LinesSound(t.items, t.products, t.nextItem) && (who.Authenticated? || CartIndex(t.carts, session) >= 0)
    requires 0 <= j < |t.items| && Owns(t.items[j], OwnerFor(t, who, session))
    ensures var s := DeleteLine(t, t.items[j].product, t.items[j].id, who, session);
      CartCount(s.tables, who, session)
        == CartCount(t, who, session) - (if t.items[j].quantity > 1 then 1 else t.items[j].quantity)
  {
    if t.items[j].quantity > 1 {
      CountAfterDecrement(t, who, session, j);
    } else {
      CountAfterRemoval(t, who, session, j);
    }
  }

  /** The shopper is counted by the same owner before and after a delete. */
  lemma DeleteKeepsCountedOwner(t: Tables, pid: int, itemId: int, who: Requester, session: string)
    requires who.Authenticated? || CartIndex(t.carts, session) >= 0
    ensures var owner := OwnerFor(t, who, session);
      && CartCount(t, who, session) == OwnedQuantity(t.items, owner)
      && var s := DeleteLine(t, pid, itemId, who, session).tables;
         CartCount(s, who, session) == OwnedQuantity(s.items, owner)
  {
    var s := DeleteLine(t, pid, itemId, who, session).tables;
    assert s.carts == t.carts;
  }

  /** Taking one unit off a line of several lowers `cart_count` by one. */
  lemma CountAfterDecrement(t: Tables, who: Requester, session: string, j: int)
    requires LinesSound(t.items, t.products, t.nextItem) && (who.Authenticated? || CartIndex(t.carts, session) >= 0)
    requires 0 <= j < |t.items| && Owns(t.items[j], OwnerFor(t, who, session)) && t.items[j].quantity > 1
    ensures CartCount(DeleteLine(t, t.items[j].product, t.items[j].id, who, session).tables, who, session)
         == CartCount(t, who, session) - 1
  {
    var it := t.items[j];
    var owner := OwnerFor(t, who, session);
    var s := DeleteLine(t, it.product, it.id, who, session).tables;
    assert s.items == UpdateQuantity(t.items, it.id, -1) by {
      OnlyTheLine(t, owner, j);
    }
    UpdateCount(t.items, owner, it, -1);
    DeleteKeepsCountedOwner(t, it.product, it.id, who, session);
  }

  /** Deleting a line of one unit lowers `cart_count` by its quantity. */
  lemma CountAfterRemoval(t: Tables, who: Requester, session: string, j: int)
    requires LinesSound(t.items, t.products, t.nextItem) && (who.Authenticated? || CartIndex(t.carts, session) >= 0)
    requires 0 <= j < |t.items| && Owns(t.items[j], OwnerFor(t, who, session)) && t.items[j].quantity <= 1
    ensures CartCount(DeleteLine(t, t.items[j].product, t.items[j].id, who, session).tables, who, session)
         == CartCount(t, who, session) - t.items[j].quantity
  {
    var it := t.items[j];
    DeleteKeepsCountedOwner(t, it.product, it.id, who, session);
    DeleteRemoves(t, who, session, j);
    RemoveCount(t.items, OwnerFor(t, who, session), j);
  }
}
