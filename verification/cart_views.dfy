/** The cart engine of `cart/views.py`: adding a product to a cart (with the
    posted variations, or from a plain link), taking one unit off a line, and
    the cart and checkout pages with their totals. Each view is a method on
    the database, proved equal to a function that says what the view does to
    the tables. */
module CartViews {
  import opened Common
  import opened Seqs
  import opened Text
  import opened StoreModels
  import opened CartModels
  import opened Db

  /** What a view answers: a redirect to a named page, a 404, or an exception
      that escapes the view (a server error). */
  datatype Response = Redirect(view: string) | NotFound | ServerError(exception: string)

  /** The tables after a view, and its answer. */
  datatype Step = Step(tables: Tables, response: Response)

  // ---------------------------------------------------------------------
  // Posted variations

  /** The test `Variation.objects.get(product=..., variation_category__iexact=key,
      variation_value__iexact=value)` applies; activity is not consulted. */
  function MatchesPosted(pid: int, key: string, value: string): Variation -> bool
  {
    (v: Variation) => v.product == pid && IExact(v.category, key) && IExact(v.value, value)
  }

  /** The variations one posted pair could mean. */
  function Candidates(vs: seq<Variation>, pid: int, key: string, value: string): (r: seq<Variation>)
    ensures forall v :: v in r <==> v in vs && v.product == pid && IExact(v.category, key) && IExact(v.value, value)
  {
    Filter(vs, MatchesPosted(pid, key, value))
  }

  /** The keys of the variations the posted pairs select, in posting order. A
      pair selects a variation only when exactly one matches it: no match and
      several matches both raise inside a bare `except` and are skipped. */
  function Resolve(vs: seq<Variation>, pid: int, post: seq<(string, string)>): (r: seq<int>)
  {
    if post == [] then []
    else
      var (key, value) := post[|post| - 1];
      var c := Candidates(vs, pid, key, value);
      Resolve(vs, pid, post[..|post| - 1]) + (if |c| == 1 then [c[0].id] else [])
  }

  /** The selection has at most one entry per posted pair, and each entry is
      the key of a variation of the product. */
  lemma {:induction false} ResolveSelectsVariations(vs: seq<Variation>, pid: int, post: seq<(string, string)>)
    ensures |Resolve(vs, pid, post)| <= |post|
    ensures forall id :: id in Resolve(vs, pid, post) ==> exists v :: v in vs && v.id == id && v.product == pid
  {
    if post != [] {
      var (key, value) := post[|post| - 1];
      var c := Candidates(vs, pid, key, value);
      ResolveSelectsVariations(vs, pid, post[..|post| - 1]);
      if |c| == 1 {
        assert c[0] in c;
      }
    }
  }

  /** The selection made by one pair. */
  lemma ResolveSingle(vs: seq<Variation>, pid: int, key: string, value: string)
    ensures var c := Candidates(vs, pid, key, value);
      Resolve(vs, pid, [(key, value)]) == if |c| == 1 then [c[0].id] else []
  {
    assert [(key, value)][..0] == [];
  }

  /** Pairs are resolved independently, and their selections keep the order
      the pairs were posted in. */
  lemma {:induction false} ResolveAppend(vs: seq<Variation>, pid: int, p: seq<(string, string)>, q: seq<(string, string)>)
    ensures Resolve(vs, pid, p + q) == Resolve(vs, pid, p) + Resolve(vs, pid, q)
  {
    if q == [] {
      assert p + q == p;
    } else {
      var init := q[..|q| - 1];
      assert (p + q)[..|p + q| - 1] == p + init;
      assert (p + q)[|p + q| - 1] == q[|q| - 1];
      ResolveAppend(vs, pid, p, init);
    }
  }

  /** A posted pair that matches no variation, or more than one, changes
      nothing (this is what happens to the CSRF token field). */
  lemma SkippedPair(vs: seq<Variation>, pid: int, p: seq<(string, string)>, key: string, value: string, q: seq<(string, string)>)
    requires |Candidates(vs, pid, key, value)| != 1
    ensures Resolve(vs, pid, p + [(key, value)] + q) == Resolve(vs, pid, p + q)
  {
    ResolveAppend(vs, pid, p + [(key, value)], q);
    ResolveAppend(vs, pid, p, [(key, value)]);
    ResolveSingle(vs, pid, key, value);
    ResolveAppend(vs, pid, p, q);
  }

  /** The loop over `request.POST` collecting `product_variation`. */
  method ResolveVariations(vs: seq<Variation>, pid: int, post: seq<(string, string)>) returns (matched: seq<int>)
    ensures matched == Resolve(vs, pid, post)
  {
    matched := [];
    for i := 0 to |post|
      invariant matched == Resolve(vs, pid, post[..i])
    {
      var (key, value) := post[i];
      var found := Filter(vs, MatchesPosted(pid, key, value));
      if |found| == 1 {
        matched := matched + [found[0].id];
      }
      assert post[..i + 1][..i] == post[..i];
    }
    assert post[..|post|] == post;
  }

  /** The loop `for item in product_variation: cart_item.variation.add(item)`:
      a many-to-many `add` ignores a variation that is already attached. */
  method AttachVariations(requested: seq<int>) returns (attached: seq<int>)
    ensures attached == Dedup(requested)
  {
    attached := [];
    for i := 0 to |requested|
      invariant attached == Dedup(requested[..i])
    {
      assert requested[..i + 1][..i] == requested[..i];
      if requested[i] !in attached {
        attached := attached + [requested[i]];
      }
    }
    assert requested[..|requested|] == requested;
  }

  // ---------------------------------------------------------------------
  // Existing lines

  /** The attached-variation lists of some lines (`ex_var_list`). */
  function VariationLists(lines: seq<CartItem>): (r: seq<seq<int>>)
    ensures |r| == |lines|
    ensures forall k :: 0 <= k < |lines| ==> r[k] == lines[k].variations
  {
    seq(|lines|, k requires 0 <= k < |lines| => lines[k].variations)
  }

  /** The loop building `ex_var_list` and `id` from the matching lines. */
  method ExistingLines(lines: seq<CartItem>) returns (exVarList: seq<seq<int>>, ids: seq<int>)
    ensures exVarList == VariationLists(lines)
    ensures |ids| == |lines| && forall k :: 0 <= k < |lines| ==> ids[k] == lines[k].id
  {
    exVarList := [];
    ids := [];
    for i := 0 to |lines|
      invariant |exVarList| == i && |ids| == i
      invariant forall k :: 0 <= k < i ==> exVarList[k] == lines[k].variations && ids[k] == lines[k].id
    {
      exVarList := exVarList + [lines[i].variations];
      ids := ids + [lines[i].id];
    }
  }

  /** Whose lines a view looks at: the account's when logged in, otherwise the
      session cart's. */
  function OwnerFor(t: Tables, who: Requester, session: string): (owner: Owner)
    requires who.Authenticated? || CartIndex(t.carts, session) >= 0
  {
    if who.Authenticated? then ByUser(who.user) else ByCart(SessionCart(t, session))
  }

  /** In well-formed tables the owner never points past the cart keys issued
      so far. */
  lemma OwnerForKnown(t: Tables, who: Requester, session: string)
    requires WellFormed(t) && (who.Authenticated? || CartIndex(t.carts, session) >= 0)
    ensures OwnerKnown(t, OwnerFor(t, who, session))
  {
  }

  /** The attached-variation lists of a line followed by more lines. */
  lemma VariationListsCons(it: CartItem, lines: seq<CartItem>)
    ensures VariationLists([it] + lines) == [it.variations] + VariationLists(lines)
  {
  }

  /** `index` on a list that starts with something else looks in the rest. */
  lemma FirstIndexCons<T>(x: T, s: seq<T>, y: T)
    requires x != y
    ensures FirstIndex([x] + s, y) == if FirstIndex(s, y) < 0 then -1 else FirstIndex(s, y) + 1
  {
    assert ([x] + s)[1..] == s;
  }

  /** `items[j]` is the first line (in table order) of `pid` owned by `owner`
      whose variations are exactly `requested`. */
  predicate FirstMatchAt(items: seq<CartItem>, pid: int, owner: Owner, requested: seq<int>, j: int)
  {
    && 0 <= j < |items| && IsLineOf(pid, owner)(items[j]) && items[j].variations == requested
    && forall i :: 0 <= i < j ==> !(IsLineOf(pid, owner)(items[i]) && items[i].variations == requested)
  }

  /** The first matching line is the one `ex_var_list.index(...)` picks. */
  lemma {:induction false} FirstMatchingLine(items: seq<CartItem>, pid: int, owner: Owner, requested: seq<int>, j: int)
    requires FirstMatchAt(items, pid, owner, requested, j)
    ensures var lines := LinesOf(items, pid, owner);
      var k := FirstIndex(VariationLists(lines), requested);
      0 <= k < |lines| && lines[k] == items[j]
  {
    var keep := IsLineOf(pid, owner);
    var rest := items[1..];
    var lines := LinesOf(items, pid, owner);
    var restLines := LinesOf(rest, pid, owner);
    assert lines == (if keep(items[0]) then [items[0]] else []) + restLines;
    if j == 0 {
      VariationListsCons(items[0], restLines);
    } else {
      assert 0 <= FirstIndex(VariationLists(restLines), requested) < |restLines|
          && restLines[FirstIndex(VariationLists(restLines), requested)] == items[j] by {
        assert rest[j - 1] == items[j];
        forall i | 0 <= i < j - 1
          ensures !(keep(rest[i]) && rest[i].variations == requested)
        {
          assert rest[i] == items[i + 1];
        }
        FirstMatchingLine(rest, pid, owner, requested, j - 1);
      }
      if keep(items[0]) {
        MatchAfterFirst(items[0], restLines, requested);
      } else {
        assert lines == restLines;
      }
    }
  }

  /** When the first line does not carry the selection, `index` finds the
      match one place further on than in the rest. */
  lemma MatchAfterFirst(it: CartItem, restLines: seq<CartItem>, requested: seq<int>)
    requires it.variations != requested
    requires 0 <= FirstIndex(VariationLists(restLines), requested) < |restLines|
    ensures var k := FirstIndex(VariationLists(restLines), requested);
      && FirstIndex(VariationLists([it] + restLines), requested) == k + 1
      && ([it] + restLines)[k + 1] == restLines[k]
  {
    VariationListsCons(it, restLines);
    FirstIndexCons(it.variations, VariationLists(restLines), requested);
  }

  /** When no line of `pid` owned by `owner` carries exactly `requested`,
      `product_variation in ex_var_list` is false. */
  lemma NoMatchingLine(items: seq<CartItem>, pid: int, owner: Owner, requested: seq<int>)
    requires forall i :: 0 <= i < |items| && IsLineOf(pid, owner)(items[i]) ==> items[i].variations != requested
    ensures FirstIndex(VariationLists(LinesOf(items, pid, owner)), requested) < 0
  {
    var lines := LinesOf(items, pid, owner);
    forall k | 0 <= k < |lines|
      ensures VariationLists(lines)[k] != requested
    {
      assert lines[k] in lines;
    }
  }

  /** A line table in which no line qualifies filters to nothing. */
  lemma NoLines(items: seq<CartItem>, pid: int, owner: Owner)
    requires forall i :: 0 <= i < |items| ==> !IsLineOf(pid, owner)(items[i])
    ensures LinesOf(items, pid, owner) == []
  {
    FilterNone(items, IsLineOf(pid, owner));
  }

  // ---------------------------------------------------------------------
  // AddCart.post

  /** Adding one unit of `pid` with the selection `requested` to the lines
      of `owner`:
      - no line yet: a new line with the selected variations, stock untouched;
      - a line whose variations equal the selection: the first such line
        gains one unit, stock untouched;
      - lines, none with that selection: a new line, and stock goes down by one. */
  function AddSelection(t: Tables, pid: int, owner: Owner, requested: seq<int>): (r: Tables)
    requires pid in t.products
    ensures r.carts == t.carts && r.variations == t.variations && r.orders == t.orders
    ensures r.products.Keys == t.products.Keys
  {
    var lines := LinesOf(t.items, pid, owner);
    var k := FirstIndex(VariationLists(lines), requested);
    if |lines| == 0 then
      AppendLine(t, owner, pid, Dedup(requested))
    else if k >= 0 then
      t.(items := UpdateQuantity(t.items, lines[k].id, 1))
    else
      var t2 := AppendLine(t, owner, pid, Dedup(requested));
      t2.(products := DecrementStock(t2.products, pid))
  }

  /** Adding a selection keeps the tables well formed. */
  lemma SelectionPreserves(t: Tables, pid: int, owner: Owner, requested: seq<int>)
    requires WellFormed(t) && pid in t.products && OwnerKnown(t, owner)
    ensures WellFormed(AddSelection(t, pid, owner, requested))
  {
    var r := AddSelection(t, pid, owner, requested);
    var lines := LinesOf(t.items, pid, owner);
    var k := FirstIndex(VariationLists(lines), requested);
    var t2 := AppendLine(t, owner, pid, Dedup(requested));
    if |lines| == 0 {
      assert r == t2;
      AppendLinePreserves(t, owner, pid, Dedup(requested));
    } else if k >= 0 {
      assert r == t.(items := UpdateQuantity(t.items, lines[k].id, 1));
      UpdateQuantityPreserves(t, lines[k].id, 1);
    } else {
      assert r == t2.(products := DecrementStock(t2.products, pid));
      AppendLinePreserves(t, owner, pid, Dedup(requested));
      DecrementStockSound(t2, pid);
    }
  }

  /** What `AddCart.post` does: 404 for an unknown product; otherwise the
      session cart is fetched or created, the posted pairs are resolved, and
      the selection is added among the product's lines of the shopper (the
      account's lines when logged in, the session cart's otherwise). */
  function AddPost(t: Tables, pid: int, post: seq<(string, string)>, who: Requester, session: string): (s: Step)
    ensures s.response == if pid in t.products then Redirect("cart") else NotFound
    ensures pid !in t.products ==> s.tables == t
    ensures pid in t.products ==> CartIndex(s.tables.carts, session) >= 0
    ensures s.tables.variations == t.variations && s.tables.orders == t.orders
    ensures s.tables.products.Keys == t.products.Keys
  {
    if pid !in t.products then Step(t, NotFound)
    else
      var t1 := WithCart(t, session);
      Step(AddSelection(t1, pid, OwnerFor(t1, who, session), Resolve(t.variations, pid, post)), Redirect("cart"))
  }

  /** `AddCart.post` keeps the tables well formed. */
  lemma AddPostPreserves(t: Tables, pid: int, post: seq<(string, string)>, who: Requester, session: string)
    requires WellFormed(t)
    ensures WellFormed(AddPost(t, pid, post, who, session).tables)
  {
    if pid in t.products {
      var t1 := WithCart(t, session);
      WithCartPreserves(t, session);
      SelectionPreserves(t1, pid, OwnerFor(t1, who, session), Resolve(t.variations, pid, post));
    }
  }

  /** `Cart.objects.get(cart_id=...)`, falling back to `create`. */
  method GetOrCreateCart(db: Database, session: string) returns (pk: int)
    requires db.Valid()
    modifies db
    ensures db.Valid()
    ensures db.Snapshot() == WithCart(old(db.Snapshot()), session)
    ensures CartIndex(db.carts, session) >= 0 && pk == SessionCart(db.Snapshot(), session)
  {
    WithCartPreserves(db.Snapshot(), session);
    if CartIndex(db.carts, session) < 0 {
      db.carts := db.carts + [Cart(db.nextCart, session)];
      db.nextCart := db.nextCart + 1;
      assert db.carts[|db.carts| - 1].cartId == session;
    }
    var k := CartIndex(db.carts, session);
    pk := db.carts[k].id;
  }

  /** `CartItem.objects.create(product=..., quantity=1, ...)` followed by the
      variations being attached. */
  method CreateLine(db: Database, owner: Owner, pid: int, variations: seq<int>)
    requires db.Valid() && pid in db.products && OwnerKnown(db.Snapshot(), owner)
    modifies db
    ensures db.Valid()
    ensures db.Snapshot() == AppendLine(old(db.Snapshot()), owner, pid, variations)
  {
    AppendLinePreserves(db.Snapshot(), owner, pid, variations);
    db.items := db.items + [NewLine(db.nextItem, owner, pid, variations)];
    db.nextItem := db.nextItem + 1;
  }

  /** `AddCart.post`. */
  method AddCartPost(db: Database, pid: int, post: seq<(string, string)>, who: Requester, session: string) returns (r: Response)
    requires db.Valid()
    modifies db
    ensures db.Valid()
    ensures Step(db.Snapshot(), r) == AddPost(old(db.Snapshot()), pid, post, who, session)
  {
    if pid !in db.products {
      return NotFound;
    }
    var requested := ResolveVariations(db.variations, pid, post);
    var cartPk := GetOrCreateCart(db, session);
    var owner := if who.Authenticated? then ByUser(who.user) else ByCart(cartPk);
    AddSelectionTo(db, pid, owner, requested);
    r := Redirect("cart");
  }

  /** The part of `AddCart.post` after the cart is in hand. */
  method AddSelectionTo(db: Database, pid: int, owner: Owner, requested: seq<int>)
    requires db.Valid() && pid in db.products && OwnerKnown(db.Snapshot(), owner)
    modifies db
    ensures db.Snapshot() == AddSelection(old(db.Snapshot()), pid, owner, requested)
    ensures db.Valid()
  {
    ghost var t := db.Snapshot();
    SelectionPreserves(t, pid, owner, requested);
    var lines := LinesOf(db.items, pid, owner);
    if |lines| > 0 {
      var exVarList, ids := ExistingLines(lines);
      var index := FirstIndex(exVarList, requested);
      if index >= 0 {
        db.items := UpdateQuantity(db.items, ids[index], 1);
        assert db.Snapshot() == t.(items := UpdateQuantity(t.items, lines[index].id, 1));
      } else {
        var attached := AttachVariations(requested);
        ghost var t2 := AppendLine(t, owner, pid, Dedup(requested));
        CreateLine(db, owner, pid, attached);
        assert db.Snapshot() == t2;
        db.products := DecrementStock(db.products, pid);
        assert db.Snapshot() == t2.(products := DecrementStock(t2.products, pid));
      }
    } else {
      var attached := AttachVariations(requested);
      CreateLine(db, owner, pid, attached);
    }
  }

  /** With no line of the product yet, adding appends a line with the
      selection attached once per variation. */
  lemma SelectionFirstLine(t: Tables, pid: int, owner: Owner, requested: seq<int>)
    requires pid in t.products
    requires forall i :: 0 <= i < |t.items| ==> !IsLineOf(pid, owner)(t.items[i])
    ensures AddSelection(t, pid, owner, requested) == AppendLine(t, owner, pid, Dedup(requested))
  {
    NoLines(t.items, pid, owner);
  }

  /** Adding the selection an existing line carries bumps the first such line. */
  lemma SelectionMerges(t: Tables, pid: int, owner: Owner, requested: seq<int>, j: int)
    requires pid in t.products && LineKeysUnique(t.items) && FirstMatchAt(t.items, pid, owner, requested, j)
    ensures AddSelection(t, pid, owner, requested)
         == t.(items := t.items[j := t.items[j].(quantity := t.items[j].quantity + 1)])
  {
    var lines := LinesOf(t.items, pid, owner);
    FirstMatchingLine(t.items, pid, owner, requested, j);
    var k := FirstIndex(VariationLists(lines), requested);
    assert lines[k].id == t.items[j].id;
    UpdateQuantityAt(t.items, j, 1);
  }

  /** Adding a selection no existing line carries, when there are lines of
      the product, appends a line and takes one unit of stock. */
  lemma SelectionNewVariant(t: Tables, pid: int, owner: Owner, requested: seq<int>, j: int)
    requires pid in t.products
    requires 0 <= j < |t.items| && IsLineOf(pid, owner)(t.items[j])
    requires forall i :: 0 <= i < |t.items| && IsLineOf(pid, owner)(t.items[i]) ==> t.items[i].variations != requested
    ensures AddSelection(t, pid, owner, requested)
         == AppendLine(t, owner, pid, Dedup(requested)).(products := DecrementStock(t.products, pid))
  {
    assert t.items[j] in LinesOf(t.items, pid, owner);
    NoMatchingLine(t.items, pid, owner, requested);
  }

  /** Whatever branch it takes, adding leaves the owner with a line of the
      product. */
  lemma SelectionHasLine(t: Tables, pid: int, owner: Owner, requested: seq<int>)
    requires pid in t.products && LineKeysUnique(t.items)
    ensures var r := AddSelection(t, pid, owner, requested);
      exists i :: 0 <= i < |r.items| && IsLineOf(pid, owner)(r.items[i])
  {
    var r := AddSelection(t, pid, owner, requested);
    var lines := LinesOf(t.items, pid, owner);
    var k := FirstIndex(VariationLists(lines), requested);
    if |lines| != 0 && k >= 0 {
      assert lines[k] in lines;
      var j :| 0 <= j < |t.items| && t.items[j] == lines[k];
      UpdateQuantityAt(t.items, j, 1);
      assert IsLineOf(pid, owner)(r.items[j]);
    } else {
      assert IsLineOf(pid, owner)(r.items[|r.items| - 1]);
    }
  }

  /** The first add of a product by a shopper creates one active line of one
      unit, with the selected variations attached once each, and leaves stock
      as it was. */
  lemma AddPostFirstLine(t: Tables, pid: int, post: seq<(string, string)>, who: Requester, session: string)
    requires WellFormed(t) && pid in t.products
    requires var t1 := WithCart(t, session);
      forall i :: 0 <= i < |t.items| ==> !IsLineOf(pid, OwnerFor(t1, who, session))(t.items[i])
    ensures var t1 := WithCart(t, session);
      var s := AddPost(t, pid, post, who, session);
      && s.tables.items == t.items + [NewLine(t.nextItem, OwnerFor(t1, who, session), pid, Dedup(Resolve(t.variations, pid, post)))]
      && s.tables.products == t.products
      && s.tables.carts == t1.carts
  {
    var t1 := WithCart(t, session);
    WithCartPreserves(t, session);
    SelectionFirstLine(t1, pid, OwnerFor(t1, who, session), Resolve(t.variations, pid, post));
  }

  /** Adding again with the selection of an existing line adds one unit to
      the first such line and changes nothing else: no new line, no stock
      change. */
  lemma AddPostMerges(t: Tables, pid: int, post: seq<(string, string)>, who: Requester, session: string, j: int)
    requires LineKeysUnique(t.items) && pid in t.products
    requires FirstMatchAt(t.items, pid, OwnerFor(WithCart(t, session), who, session), Resolve(t.variations, pid, post), j)
    ensures var s := AddPost(t, pid, post, who, session);
      s.tables == WithCart(t, session).(items := t.items[j := t.items[j].(quantity := t.items[j].quantity + 1)])
  {
    var t1 := WithCart(t, session);
    var owner := OwnerFor(t1, who, session);
    var requested := Resolve(t.variations, pid, post);
    assert t1.items == t.items;
    var merged := t1.items[j := t1.items[j].(quantity := t1.items[j].quantity + 1)];
    assert AddSelection(t1, pid, owner, requested) == t1.(items := merged) by {
      SelectionMerges(t1, pid, owner, requested, j);
    }
    assert AddPost(t, pid, post, who, session).tables == AddSelection(t1, pid, owner, requested);
    assert merged == t.items[j := t.items[j].(quantity := t.items[j].quantity + 1)];
  }

  /** Adding a selection that no existing line of the product carries, when
      the shopper already has lines of it, appends a new line and takes one
      unit off the product's stock; other products keep their stock. */
  lemma AddPostNewVariant(t: Tables, pid: int, post: seq<(string, string)>, who: Requester, session: string, j: int)
    requires pid in t.products
    requires var owner := OwnerFor(WithCart(t, session), who, session);
      && 0 <= j < |t.items| && IsLineOf(pid, owner)(t.items[j])
      && forall i :: 0 <= i < |t.items| && IsLineOf(pid, owner)(t.items[i]) ==>
           t.items[i].variations != Resolve(t.variations, pid, post)
    ensures var t1 := WithCart(t, session);
      var s := AddPost(t, pid, post, who, session);
      && s.tables.items == t.items + [NewLine(t.nextItem, OwnerFor(t1, who, session), pid, Dedup(Resolve(t.variations, pid, post)))]
      && s.tables.products[pid].stock == t.products[pid].stock - 1
      && forall q :: q in t.products && q != pid ==> s.tables.products[q] == t.products[q]
  {
    var t1 := WithCart(t, session);
    SelectionNewVariant(t1, pid, OwnerFor(t1, who, session), Resolve(t.variations, pid, post), j);
  }

  /** After a successful add the session cart exists, so adding again finds
      the same cart and the same shopper's lines. */
  lemma AddPostKeepsCart(t: Tables, pid: int, post: seq<(string, string)>, who: Requester, session: string)
    requires WellFormed(t) && pid in t.products
    ensures var t1 := WithCart(t, session);
      var s := AddPost(t, pid, post, who, session);
      && WithCart(s.tables, session) == s.tables
      && OwnerFor(s.tables, who, session) == OwnerFor(t1, who, session)
      && Resolve(s.tables.variations, pid, post) == Resolve(t.variations, pid, post)
  {
  }

  /** The first duplicate-free selection of a product appends exactly the
      selection as a new line, and the tables stay well formed. */
  lemma FirstSelectionShape(t: Tables, pid: int, owner: Owner, requested: seq<int>)
    requires WellFormed(t) && pid in t.products && OwnerKnown(t, owner) && NoDuplicates(requested)
    requires forall i :: 0 <= i < |t.items| ==> !IsLineOf(pid, owner)(t.items[i])
    ensures var t2 := AddSelection(t, pid, owner, requested);
      && t2 == AppendLine(t, owner, pid, requested)
      && t2.items == t.items + [NewLine(t.nextItem, owner, pid, requested)]
      && pid in t2.products && LineKeysUnique(t2.items)
  {
    SelectionFirstLine(t, pid, owner, requested);
    DedupOfNoDuplicates(requested);
    SelectionPreserves(t, pid, owner, requested);
  }

  /** Adding the same duplicate-free selection twice to a shopper with no
      line of the product yields one line of two units. */
  lemma SelectionTwice(t: Tables, pid: int, owner: Owner, requested: seq<int>)
    requires WellFormed(t) && pid in t.products && OwnerKnown(t, owner) && NoDuplicates(requested)
    requires forall i :: 0 <= i < |t.items| ==> !IsLineOf(pid, owner)(t.items[i])
    ensures var t2 := AddSelection(t, pid, owner, requested);
      var line := NewLine(t.nextItem, owner, pid, requested);
      && AddSelection(t2, pid, owner, requested) == t2.(items := t.items + [line.(quantity := 2)])
      && t2.products == t.products
  {
    var t2 := AddSelection(t, pid, owner, requested);
    var line := NewLine(t.nextItem, owner, pid, requested);
    var j := |t.items|;
    FirstSelectionShape(t, pid, owner, requested);
    assert FirstMatchAt(t2.items, pid, owner, requested, j) by {
      forall i | 0 <= i < j
        ensures !(IsLineOf(pid, owner)(t2.items[i]) && t2.items[i].variations == requested)
      {
        assert t2.items[i] == t.items[i];
      }
    }
    SelectionMerges(t2, pid, owner, requested, j);
    UpdateLast(t.items, line, line.(quantity := 2));
  }

  /** A shopper who adds the same selection twice (with no earlier line of the
      product, and no variation selected twice) ends with one line of two
      units, and the product's stock is what it was. */
  lemma AddPostTwice(t: Tables, pid: int, post: seq<(string, string)>, who: Requester, session: string)
    requires WellFormed(t) && pid in t.products
    requires NoDuplicates(Resolve(t.variations, pid, post))
    requires var t1 := WithCart(t, session);
      forall i :: 0 <= i < |t.items| ==> !IsLineOf(pid, OwnerFor(t1, who, session))(t.items[i])
    ensures var t1 := WithCart(t, session);
      var s := AddPost(AddPost(t, pid, post, who, session).tables, pid, post, who, session);
      && s.tables.items == t.items + [NewLine(t.nextItem, OwnerFor(t1, who, session), pid, Resolve(t.variations, pid, post)).(quantity := 2)]
      && s.tables.products == t.products
  {
    var t1 := WithCart(t, session);
    WithCartPreserves(t, session);
    AddPostKeepsCart(t, pid, post, who, session);
    SelectionTwice(t1, pid, OwnerFor(t1, who, session), Resolve(t.variations, pid, post));
  }

  /** A selection naming a variation twice is stored de-duplicated, so the
      second add of it finds no line carrying it: it opens a second line and
      takes one unit of stock. */
  lemma SelectionRepeatedNeverMerges(t: Tables, pid: int, owner: Owner, requested: seq<int>)
    requires pid in t.products && !NoDuplicates(requested)
    requires forall i :: 0 <= i < |t.items| ==> !IsLineOf(pid, owner)(t.items[i])
    ensures var t2 := AddSelection(t, pid, owner, requested);
      var t3 := AddSelection(t2, pid, owner, requested);
      && |t3.items| == |t.items| + 2
      && t3.products[pid].stock == t.products[pid].stock - 1
  {
    var t2 := AddSelection(t, pid, owner, requested);
    var line := NewLine(t.nextItem, owner, pid, Dedup(requested));
    var j := |t.items|;
    assert t2 == AppendLine(t, owner, pid, Dedup(requested)) by {
      SelectionFirstLine(t, pid, owner, requested);
    }
    assert t2.items == t.items + [line];
    assert forall i :: 0 <= i < j ==> !IsLineOf(pid, owner)(t2.items[i]) by {
      forall i | 0 <= i < j
        ensures !IsLineOf(pid, owner)(t2.items[i])
      {
        assert t2.items[i] == t.items[i];
      }
    }
    assert Dedup(requested) != requested;
    SelectionNewVariant(t2, pid, owner, requested, j);
  }

  /** When two keys of the form select the same variation, the stored line
      carries it once and so never equals the selection again: every later
      add of that selection opens another line and takes stock. */
  lemma AddPostRepeatedSelectionNeverMerges(t: Tables, pid: int, post: seq<(string, string)>, who: Requester, session: string)
    requires WellFormed(t) && pid in t.products
    requires !NoDuplicates(Resolve(t.variations, pid, post))
    requires var t1 := WithCart(t, session);
      forall i :: 0 <= i < |t.items| ==> !IsLineOf(pid, OwnerFor(t1, who, session))(t.items[i])
    ensures var s1 := AddPost(t, pid, post, who, session);
      var s2 := AddPost(s1.tables, pid, post, who, session);
      && |s2.tables.items| == |t.items| + 2
      && s2.tables.products[pid].stock == t.products[pid].stock - 1
  {
    var t1 := WithCart(t, session);
    WithCartPreserves(t, session);
    AddPostKeepsCart(t, pid, post, who, session);
    SelectionRepeatedNeverMerges(t1, pid, OwnerFor(t1, who, session), Resolve(t.variations, pid, post));
  }

  // ---------------------------------------------------------------------
  // AddCart.get

  /** Adding one unit of `pid` to cart `cart` from a link: the product's line
      in that cart is looked up with `get`:
      - none: a new line of one unit without variations, stock untouched;
      - exactly one: it gains one unit and stock goes down by one;
      - several: `MultipleObjectsReturned` escapes the view (only the missing
        case is caught). */
  function AddToCart(t: Tables, pid: int, cart: int): (s: Step)
    requires pid in t.products
    ensures s.tables.carts == t.carts && s.tables.variations == t.variations && s.tables.orders == t.orders
  {
    var owner := ByCart(cart);
    var lines := LinesOf(t.items, pid, owner);
    if |lines| == 0 then
      Step(AppendLine(t, owner, pid, []), Redirect("cart"))
    else if |lines| == 1 then
      Step(t.(items := UpdateQuantity(t.items, lines[0].id, 1),
              products := DecrementStock(t.products, pid)), Redirect("cart"))
    else
      Step(t, ServerError("MultipleObjectsReturned"))
  }

  /** What `AddCart.get` does: 404 for an unknown product; otherwise the
      session cart is fetched or created and one unit is added to the
      product's line in that cart, whatever the login state. A cart created
      on the way stays even when the lookup then fails. */
  function AddGet(t: Tables, pid: int, session: string): (s: Step)
    ensures pid !in t.products <==> s.response == NotFound
    ensures pid !in t.products ==> s.tables == t
    ensures s.tables.variations == t.variations && s.tables.orders == t.orders
  {
    if pid !in t.products then Step(t, NotFound)
    else
      var t1 := WithCart(t, session);
      AddToCart(t1, pid, SessionCart(t1, session))
  }

  /** `AddCart.get` keeps the tables well formed. */
  lemma AddGetPreserves(t: Tables, pid: int, session: string)
    requires WellFormed(t)
    ensures WellFormed(AddGet(t, pid, session).tables)
  {
    if pid in t.products {
      var t1 := WithCart(t, session);
      WithCartPreserves(t, session);
      var owner := ByCart(SessionCart(t1, session));
      var lines := LinesOf(t1.items, pid, owner);
      if |lines| == 0 {
        AppendLinePreserves(t1, owner, pid, []);
      } else if |lines| == 1 {
        UpdateQuantitySound(t1.items, t1.products, t1.nextItem, lines[0].id, 1);
        DecrementStockSound(t1.(items := UpdateQuantity(t1.items, lines[0].id, 1)), pid);
      }
    }
  }

  /** `AddCart.get`. */
  method AddCartGet(db: Database, pid: int, session: string) returns (r: Response)
    requires db.Valid()
    modifies db
    ensures db.Valid()
    ensures Step(db.Snapshot(), r) == AddGet(old(db.Snapshot()), pid, session)
  {
    if pid !in db.products {
      return NotFound;
    }
    var cartPk := GetOrCreateCart(db, session);
    r := AddToCartIn(db, pid, cartPk);
  }

  /** The part of `AddCart.get` after the cart is in hand. */
  method AddToCartIn(db: Database, pid: int, cart: int) returns (r: Response)
    requires db.Valid() && pid in db.products && cart < db.nextCart
    modifies db
    ensures db.Valid()
    ensures Step(db.Snapshot(), r) == AddToCart(old(db.Snapshot()), pid, cart)
  {
    ghost var t := db.Snapshot();
    var found := LinesOf(db.items, pid, ByCart(cart));
    if |found| == 0 {
      CreateLine(db, ByCart(cart), pid, []);
    } else if |found| == 1 {
      ghost var t2 := t.(items := UpdateQuantity(t.items, found[0].id, 1));
      UpdateQuantitySound(t.items, t.products, t.nextItem, found[0].id, 1);
      DecrementStockSound(t2, pid);
      db.items := UpdateQuantity(db.items, found[0].id, 1);
      assert db.Snapshot() == t2;
      db.products := DecrementStock(db.products, pid);
      assert db.Snapshot() == t2.(products := DecrementStock(t2.products, pid));
    } else {
      return ServerError("MultipleObjectsReturned");
    }
    r := Redirect("cart");
  }

  /** Re-adding from a link when the session cart holds exactly one line of
      the product adds one unit to it and takes one unit of stock. */
  lemma AddGetIncrements(t: Tables, pid: int, session: string, j: int)
    requires WellFormed(t) && pid in t.products
    requires var owner := ByCart(SessionCart(WithCart(t, session), session));
      && 0 <= j < |t.items| && IsLineOf(pid, owner)(t.items[j])
      && forall i :: 0 <= i < |t.items| && i != j ==> !IsLineOf(pid, owner)(t.items[i])
    ensures var s := AddGet(t, pid, session);
      && s.response == Redirect("cart")
      && s.tables.items == t.items[j := t.items[j].(quantity := t.items[j].quantity + 1)]
      && s.tables.products == DecrementStock(t.products, pid)
  {
    var t1 := WithCart(t, session);
    var owner := ByCart(SessionCart(t1, session));
    FilterSingle(t1.items, IsLineOf(pid, owner), j);
    UpdateQuantityAt(t1.items, j, 1);
  }

  /** Adding from a link when the session cart has no line of the product
      opens one line of one unit and leaves stock alone. */
  lemma AddGetCreates(t: Tables, pid: int, session: string)
    requires WellFormed(t) && pid in t.products
    requires var owner := ByCart(SessionCart(WithCart(t, session), session));
      forall i :: 0 <= i < |t.items| ==> !IsLineOf(pid, owner)(t.items[i])
    ensures var s := AddGet(t, pid, session);
      var owner := ByCart(SessionCart(WithCart(t, session), session));
      && s.response == Redirect("cart")
      && s.tables.items == t.items + [NewLine(t.nextItem, owner, pid, [])]
      && s.tables.products == t.products
  {
    var t1 := WithCart(t, session);
    NoLines(t1.items, pid, ByCart(SessionCart(t1, session)));
  }

  /** Two lines of the product in the session cart (for instance two
      variants added through the form) make a plain re-add fail, leaving the
      lines and stock as they were. */
  lemma AddGetAmbiguous(t: Tables, pid: int, session: string, i: int, j: int)
    requires WellFormed(t) && pid in t.products
    requires var owner := ByCart(SessionCart(WithCart(t, session), session));
      && 0 <= i < j < |t.items|
      && IsLineOf(pid, owner)(t.items[i]) && IsLineOf(pid, owner)(t.items[j])
    ensures var s := AddGet(t, pid, session);
      && s.response == ServerError("MultipleObjectsReturned")
      && s.tables.items == t.items && s.tables.products == t.products
  {
    var t1 := WithCart(t, session);
    var owner := ByCart(SessionCart(t1, session));
    var lines := LinesOf(t1.items, pid, owner);
    assert t.items[i] in lines && t.items[j] in lines;
    TwoMembers(lines, t.items[i], t.items[j]);
  }

  // ---------------------------------------------------------------------
  // DeleteItem.get

  /** The test `get(product=..., user|cart=..., id=...)` applies. */
  function IsTheLine(pid: int, owner: Owner, id: int): CartItem -> bool
  {
    (it: CartItem) => it.product == pid && Owns(it, owner) && it.id == id
  }

  /** What `DeleteItem.get` does: 404 for an unknown product; an anonymous
      visitor without a cart gets the escaping `Cart.DoesNotExist`; a line
      that is not the shopper's (or not of that product) is left alone;
      otherwise a line of several units loses one and a line of one unit (or
      fewer) is deleted. Stock is never given back. */
  function DeleteLine(t: Tables, pid: int, itemId: int, who: Requester, session: string): (s: Step)
    ensures s.tables.products == t.products && s.tables.carts == t.carts
    ensures s.tables.variations == t.variations && s.tables.orders == t.orders
    ensures s.response.Redirect? ==> pid in t.products
    ensures s.response.ServerError? <==> pid in t.products && who.Anonymous? && CartIndex(t.carts, session) < 0
  {
    if pid !in t.products then Step(t, NotFound)
    else if who.Anonymous? && CartIndex(t.carts, session) < 0 then Step(t, ServerError("Cart.DoesNotExist"))
    else
      var found := Filter(t.items, IsTheLine(pid, OwnerFor(t, who, session), itemId));
      if found == [] then Step(t, Redirect("cart"))
      else if found[0].quantity > 1 then
        Step(t.(items := UpdateQuantity(t.items, itemId, -1)), Redirect("cart"))
      else
        Step(t.(items := RemoveLine(t.items, itemId)), Redirect("cart"))
  }

  /** `DeleteItem.get` keeps the tables well formed. */
  lemma DeleteLinePreserves(t: Tables, pid: int, itemId: int, who: Requester, session: string)
    requires WellFormed(t)
    ensures WellFormed(DeleteLine(t, pid, itemId, who, session).tables)
  {
    var s := DeleteLine(t, pid, itemId, who, session).tables;
    if pid in t.products && !(who.Anonymous? && CartIndex(t.carts, session) < 0) {
      var found := Filter(t.items, IsTheLine(pid, OwnerFor(t, who, session), itemId));
      if found != [] && found[0].quantity > 1 {
        assert s == t.(items := UpdateQuantity(t.items, itemId, -1));
        UpdateQuantityPreserves(t, itemId, -1);
      } else if found != [] {
        assert s == t.(items := RemoveLine(t.items, itemId));
        RemoveLinePreserves(t, itemId);
      }
    }
  }

  /** `DeleteItem.get`. */
  method DeleteItem(db: Database, pid: int, itemId: int, who: Requester, session: string) returns (r: Response)
    requires db.Valid()
    modifies db
    ensures db.Valid()
    ensures Step(db.Snapshot(), r) == DeleteLine(old(db.Snapshot()), pid, itemId, who, session)
  {
    ghost var t := db.Snapshot();
    DeleteLinePreserves(t, pid, itemId, who, session);
    if pid !in db.products {
      return NotFound;
    }
    var owner;
    if who.Authenticated? {
      owner := ByUser(who.user);
    } else {
      var k := CartIndex(db.carts, session);
      if k < 0 {
        return ServerError("Cart.DoesNotExist");
      }
      owner := ByCart(db.carts[k].id);
    }
    assert owner == OwnerFor(t, who, session);
    var found := Filter(db.items, IsTheLine(pid, owner, itemId));
    if found != [] {
      if found[0].quantity > 1 {
        db.items := UpdateQuantity(db.items, itemId, -1);
        assert db.Snapshot() == t.(items := UpdateQuantity(t.items, itemId, -1));
      } else {
        db.items := RemoveLine(db.items, itemId);
        assert db.Snapshot() == t.(items := RemoveLine(t.items, itemId));
      }
    }
    r := Redirect("cart");
  }

  /** Line keys are unique, so a line is the only one that matches its own
      product, owner and key. */
  lemma OnlyTheLine(t: Tables, owner: Owner, j: int)
    requires LineKeysUnique(t.items)
    requires 0 <= j < |t.items| && Owns(t.items[j], owner)
    ensures var it := t.items[j];
      Filter(t.items, IsTheLine(it.product, owner, it.id)) == [it]
  {
    var it := t.items[j];
    forall i | 0 <= i < |t.items| && i != j
      ensures !IsTheLine(it.product, owner, it.id)(t.items[i])
    {
      if i < j {
        assert t.items[i].id != t.items[j].id;
      } else {
        assert t.items[j].id != t.items[i].id;
      }
    }
    FilterSingle(t.items, IsTheLine(it.product, owner, it.id), j);
  }

  /** Taking one unit off a shopper's line of several units lowers exactly
      that line by one. */
  lemma DeleteDecrements(t: Tables, who: Requester, session: string, j: int)
    requires LinesSound(t.items, t.products, t.nextItem) && (who.Authenticated? || CartIndex(t.carts, session) >= 0)
    requires 0 <= j < |t.items| && Owns(t.items[j], OwnerFor(t, who, session)) && t.items[j].quantity > 1
    ensures var s := DeleteLine(t, t.items[j].product, t.items[j].id, who, session);
      && s.response == Redirect("cart")
      && s.tables.items == t.items[j := t.items[j].(quantity := t.items[j].quantity - 1)]
  {
    var it := t.items[j];
    var owner := OwnerFor(t, who, session);
    assert it.product in t.products;
    assert Filter(t.items, IsTheLine(it.product, owner, it.id)) == [it] by {
      OnlyTheLine(t, owner, j);
    }
    assert DeleteLine(t, it.product, it.id, who, session) == Step(t.(items := UpdateQuantity(t.items, it.id, -1)), Redirect("cart"));
    UpdateQuantityAt(t.items, j, -1);
  }

  /** Taking the last unit off a shopper's line removes exactly that line. */
  lemma DeleteRemoves(t: Tables, who: Requester, session: string, j: int)
    requires LinesSound(t.items, t.products, t.nextItem) && (who.Authenticated? || CartIndex(t.carts, session) >= 0)
    requires 0 <= j < |t.items| && Owns(t.items[j], OwnerFor(t, who, session)) && t.items[j].quantity <= 1
    ensures var s := DeleteLine(t, t.items[j].product, t.items[j].id, who, session);
      && s.response == Redirect("cart")
      && s.tables.items == t.items[..j] + t.items[j + 1..]
  {
    var it := t.items[j];
    var owner := OwnerFor(t, who, session);
    assert it.product in t.products;
    assert Filter(t.items, IsTheLine(it.product, owner, it.id)) == [it] by {
      OnlyTheLine(t, owner, j);
    }
    assert DeleteLine(t, it.product, it.id, who, session) == Step(t.(items := RemoveLine(t.items, it.id)), Redirect("cart"));
    RemoveLineAt(t.items, j);
  }

  /** A line key that is not one of the shopper's lines of that product
      (someone else's line, or a made-up key) changes nothing. */
  lemma DeleteForeignLine(t: Tables, pid: int, itemId: int, who: Requester, session: string)
    requires WellFormed(t) && pid in t.products && (who.Authenticated? || CartIndex(t.carts, session) >= 0)
    requires forall i :: 0 <= i < |t.items| ==> !IsTheLine(pid, OwnerFor(t, who, session), itemId)(t.items[i])
    ensures DeleteLine(t, pid, itemId, who, session) == Step(t, Redirect("cart"))
  {
    FilterNone(t.items, IsTheLine(pid, OwnerFor(t, who, session), itemId));
  }

  // ---------------------------------------------------------------------
  // The cart and checkout pages

  /** The sum of the lines' sub-totals. */
  function LinesTotal(lines: seq<CartItem>, products: map<int, Product>): int
    requires forall i :: 0 <= i < |lines| ==> lines[i].product in products
  {
    if lines == [] then 0
    else LinesTotal(lines[..|lines| - 1], products) + SubTotal(lines[|lines| - 1], products)
  }

  /** The total of two runs of lines is the sum of their totals. */
  lemma {:induction false} LinesTotalAppend(a: seq<CartItem>, b: seq<CartItem>, products: map<int, Product>)
    requires forall i :: 0 <= i < |a| ==> a[i].product in products
    requires forall i :: 0 <= i < |b| ==> b[i].product in products
    ensures forall i :: 0 <= i < |a + b| ==> (a + b)[i].product in products
    ensures LinesTotal(a + b, products) == LinesTotal(a, products) + LinesTotal(b, products)
  {
    if b == [] {
      assert a + b == a;
    } else {
      var init := b[..|b| - 1];
      assert (a + b)[..|a + b| - 1] == a + init;
      LinesTotalAppend(a, init, products);
    }
  }

  /** The quantity the page shows: that of the last line listed, not a sum
      (the loop assigns it rather than adding to it). */
  function LastQuantity(lines: seq<CartItem>): int
  {
    if lines == [] then 0 else lines[|lines| - 1].quantity
  }

  /** The figures the cart and checkout pages show. */
  datatype Totals = Totals(total: int, quantity: int, tax: real, grandTotal: real)

  /** The figures for some lines: the total of their sub-totals, a 2% tax on
      it, and the total with tax. */
  function TotalsOf(lines: seq<CartItem>, products: map<int, Product>): (r: Totals)
    requires forall i :: 0 <= i < |lines| ==> lines[i].product in products
    ensures 100.0 * r.tax == 2.0 * r.total as real
    ensures r.grandTotal == r.total as real * 1.02
    ensures lines == [] ==> r == Totals(0, 0, 0.0, 0.0)
  {
    var total := LinesTotal(lines, products);
    var tax := (2 * total) as real / 100.0;
    Totals(total, LastQuantity(lines), tax, total as real + tax)
  }

  /** The loop over the lines in the cart and checkout views. */
  method ComputeTotals(lines: seq<CartItem>, products: map<int, Product>) returns (totals: Totals)
    requires forall i :: 0 <= i < |lines| ==> lines[i].product in products
    ensures totals == TotalsOf(lines, products)
  {
    var total := 0;
    var quantity := 0;
    for i := 0 to |lines|
      invariant total == LinesTotal(lines[..i], products)
      invariant quantity == LastQuantity(lines[..i])
    {
      assert lines[..i + 1][..i] == lines[..i];
      total := total + products[lines[i].product].price.amount * lines[i].quantity;
      quantity := lines[i].quantity;
    }
    assert lines[..|lines|] == lines;
    var tax := (2 * total) as real / 100.0;
    totals := Totals(total, quantity, tax, total as real + tax);
  }

  /** The page total counts every line at its price times its quantity: a
      line added to the page raises the total by its sub-total. */
  lemma TotalsAddLine(lines: seq<CartItem>, it: CartItem, products: map<int, Product>)
    requires forall i :: 0 <= i < |lines| ==> lines[i].product in products
    requires it.product in products
    ensures forall i :: 0 <= i < |lines + [it]| ==> (lines + [it])[i].product in products
    ensures TotalsOf(lines + [it], products).total == TotalsOf(lines, products).total + SubTotal(it, products)
    ensures TotalsOf(lines + [it], products).quantity == it.quantity
  {
    assert (lines + [it])[..|lines + [it]| - 1] == lines;
  }

  /** The test "an active line of `owner`". */
  function ActiveOf(owner: Owner): CartItem -> bool
  {
    (it: CartItem) => Owns(it, owner) && it.isActive
  }

  /** `CartItem.objects.filter(user=..., is_active=True)` or `(cart=..., is_active=True)`. */
  function ActiveLines(items: seq<CartItem>, owner: Owner): (r: seq<CartItem>)
    ensures forall it :: it in r <==> it in items && Owns(it, owner) && it.isActive
  {
    Filter(items, ActiveOf(owner))
  }

  /** What the cart page shows: its lines and figures, a 404, or (for the
      checkout page of an anonymous visitor) a redirect to the login page. */
  datatype Page = Page(lines: seq<CartItem>, totals: Totals) | PageNotFound | LoginRedirect

  /** The cart page: the shopper's active lines (the account's when logged
      in, the session cart's otherwise) and their figures; an anonymous
      visitor without a cart gets a 404. */
  function CartPage(t: Tables, who: Requester, session: string): (p: Page)
    requires WellFormed(t)
    ensures p.PageNotFound? <==> who.Anonymous? && CartIndex(t.carts, session) < 0
    ensures p.Page? ==>
      && (forall it :: it in p.lines <==> it in t.items && Owns(it, OwnerFor(t, who, session)) && it.isActive)
      && (forall i :: 0 <= i < |p.lines| ==> p.lines[i].product in t.products)
      && p.totals == TotalsOf(p.lines, t.products)
  {
    if who.Anonymous? && CartIndex(t.carts, session) < 0 then PageNotFound
    else
      var lines := ActiveLines(t.items, OwnerFor(t, who, session));
      LinesArePriced(t, lines);
      Page(lines, TotalsOf(lines, t.products))
  }

  /** The page lists each of those lines once, in the order of the line
      table, so its total and its shown quantity are fixed by the table. */
  lemma CartPageLines(t: Tables, who: Requester, session: string)
    requires WellFormed(t)
    ensures var p := CartPage(t, who, session);
      p.Page? ==> NoDuplicates(p.lines) && exists f :: SubsequenceVia(p.lines, t.items, f)
  {
    if !(who.Anonymous? && CartIndex(t.carts, session) < 0) {
      var owner := OwnerFor(t, who, session);
      var lines := ActiveLines(t.items, owner);
      assert CartPage(t, who, session).lines == lines;
      var f := FilterOrder(t.items, ActiveOf(owner));
      assert NoDuplicates(t.items) by {
        forall i, j | 0 <= i < j < |t.items|
          ensures t.items[i] != t.items[j]
        {
          assert t.items[i].id != t.items[j].id;
        }
      }
      SubsequenceNoDuplicates(lines, t.items, f);
    }
  }

  /** The `cart` view. */
  method ShowCart(db: Database, who: Requester, session: string) returns (p: Page)
    requires db.Valid()
    ensures p == CartPage(db.Snapshot(), who, session)
  {
    var owner;
    if who.Authenticated? {
      owner := ByUser(who.user);
    } else {
      var k := CartIndex(db.carts, session);
      if k < 0 {
        return PageNotFound;
      }
      owner := ByCart(db.carts[k].id);
    }
    var lines := ActiveLines(db.items, owner);
    LinesArePriced(db.Snapshot(), lines);
    var totals := ComputeTotals(lines, db.products);
    p := Page(lines, totals);
  }

  /** The `Checkout` view: login is required, and then it shows what the
      cart page shows. */
  method Checkout(db: Database, who: Requester, session: string) returns (p: Page)
    requires db.Valid()
    ensures who.Anonymous? ==> p == LoginRedirect
    ensures who.Authenticated? ==> p == CartPage(db.Snapshot(), who, session)
  {
    if who.Anonymous? {
      return LoginRedirect;
    }
    p := ShowCart(db, who, session);
  }

  /** A logged-in shopper's cart page lists every active line of the account
      and nothing else, whichever session it is opened from. */
  lemma CartPageIgnoresSession(t: Tables, u: int, s1: string, s2: string)
    requires WellFormed(t)
    ensures CartPage(t, Authenticated(u), s1) == CartPage(t, Authenticated(u), s2)
    ensures CartPage(t, Authenticated(u), s1).Page?
  {
  }
}
