/** Order-preserving filtering and de-duplication of sequences: the shape of a
    query-set `filter(...)` and of a many-to-many `add(...)`. */
module Seqs {

  /** The elements of `s` that satisfy `keep`, in their original order. */
  function Filter<T(!new)>(s: seq<T>, keep: T -> bool): (r: seq<T>)
    ensures |r| <= |s|
    ensures forall x :: x in r <==> x in s && keep(x)
  {
    if s == [] then []
    else (if keep(s[0]) then [s[0]] else []) + Filter(s[1..], keep)
  }

  /** Filtering keeps every qualifying element as often as it occurs, and
      no other. */
  lemma {:induction false} FilterCount<T(!new)>(s: seq<T>, keep: T -> bool)
    ensures forall x :: multiset(Filter(s, keep))[x] == if keep(x) then multiset(s)[x] else 0
  {
    if s != [] {
      FilterCount(s[1..], keep);
      assert s == [s[0]] + s[1..];
    }
  }

  /** Filtering distributes over concatenation. */
  lemma {:induction false} FilterAppend<T(!new)>(a: seq<T>, b: seq<T>, keep: T -> bool)
    ensures Filter(a + b, keep) == Filter(a, keep) + Filter(b, keep)
  {
    if a == [] {
      assert a + b == b;
    } else {
      assert (a + b)[1..] == a[1..] + b;
      FilterAppend(a[1..], b, keep);
    }
  }

  /** Filtering a sequence extended by one element. */
  lemma FilterSnoc<T(!new)>(a: seq<T>, x: T, keep: T -> bool)
    ensures Filter(a + [x], keep) == Filter(a, keep) + (if keep(x) then [x] else [])
  {
    FilterAppend(a, [x], keep);
    assert [x][1..] == [];
    assert Filter([x], keep) == (if keep(x) then [x] else []) + Filter([], keep);
  }

  /** No element occurs twice. */
  predicate NoDuplicates<T(==)>(s: seq<T>)
  {
    forall i, j :: 0 <= i < j < |s| ==> s[i] != s[j]
  }

  /** `s` with every repeated element dropped, first occurrences kept in order. */
  function Dedup<T(==,!new)>(s: seq<T>): (r: seq<T>)
    ensures NoDuplicates(r)
    ensures forall x :: x in r <==> x in s
    ensures |r| <= |s|
  {
    if s == [] then []
    else
      var init := s[..|s| - 1];
      var last := s[|s| - 1];
      assert s == init + [last];
      if last in init then Dedup(init) else Dedup(init) + [last]
  }

  /** A sequence without repetitions is its own de-duplication. */
  lemma {:induction false} DedupOfNoDuplicates<T(!new)>(s: seq<T>)
    requires NoDuplicates(s)
    ensures Dedup(s) == s
  {
    if s != [] {
      var init := s[..|s| - 1];
      assert NoDuplicates(init);
      DedupOfNoDuplicates(init);
      assert s == init + [s[|s| - 1]];
    }
  }

  /** Filtering keeps everything when every element qualifies. */
  lemma {:induction false} FilterAll<T(!new)>(s: seq<T>, keep: T -> bool)
    requires forall i :: 0 <= i < |s| ==> keep(s[i])
    ensures Filter(s, keep) == s
  {
    if s != [] {
      FilterAll(s[1..], keep);
    }
  }

  /** The index of the first occurrence of `x` in `s` (Python's `s.index(x)`),
      or -1 when `x` does not occur (`x not in s`). */
  function FirstIndex<T(==)>(s: seq<T>, x: T): (k: int)
    ensures -1 <= k < |s|
    ensures k >= 0 ==> s[k] == x && forall j :: 0 <= j < k ==> s[j] != x
    ensures k < 0 <==> x !in s
  {
    if s == [] then -1
    else if s[0] == x then 0
    else
      var k := FirstIndex(s[1..], x);
      if k < 0 then -1 else k + 1
  }

  /** Filtering keeps nothing when no element qualifies. */
  lemma FilterNone<T(!new)>(s: seq<T>, keep: T -> bool)
    requires forall i :: 0 <= i < |s| ==> !keep(s[i])
    ensures Filter(s, keep) == []
  {
  }

  /** Filtering keeps exactly `s[j]` when it is the only element that qualifies. */
  lemma {:induction false} FilterSingle<T(!new)>(s: seq<T>, keep: T -> bool, j: int)
    requires 0 <= j < |s| && keep(s[j])
    requires forall i :: 0 <= i < |s| && i != j ==> !keep(s[i])
    ensures Filter(s, keep) == [s[j]]
  {
    var rest := s[1..];
    if j == 0 {
      assert forall i :: 0 <= i < |rest| ==> !keep(rest[i]) by {
        forall i | 0 <= i < |rest| ensures !keep(rest[i]) {
          assert rest[i] == s[i + 1];
        }
      }
      FilterNone(rest, keep);
    } else {
      assert rest[j - 1] == s[j];
      assert forall i :: 0 <= i < |rest| && i != j - 1 ==> !keep(rest[i]) by {
        forall i | 0 <= i < |rest| && i != j - 1 ensures !keep(rest[i]) {
          assert rest[i] == s[i + 1];
        }
      }
      FilterSingle(rest, keep, j - 1);
    }
  }

  /** Filtering drops exactly `s[j]` when it is the only element that fails. */
  lemma {:induction false} FilterDropsOne<T(!new)>(s: seq<T>, keep: T -> bool, j: int)
    requires 0 <= j < |s| && !keep(s[j])
    requires forall i :: 0 <= i < |s| && i != j ==> keep(s[i])
    ensures Filter(s, keep) == s[..j] + s[j + 1..]
  {
    var rest := s[1..];
    if j == 0 {
      assert Filter(rest, keep) == rest by {
        forall i | 0 <= i < |rest| ensures keep(rest[i]) {
          assert rest[i] == s[i + 1];
        }
        FilterAll(rest, keep);
      }
      assert s[..j] + s[j + 1..] == rest;
    } else {
      assert Filter(rest, keep) == rest[..j - 1] + rest[j..] by {
        forall i | 0 <= i < |rest| && i != j - 1 ensures keep(rest[i]) {
          assert rest[i] == s[i + 1];
        }
        FilterDropsOne(rest, keep, j - 1);
      }
      assert keep(s[0]);
      assert s[..j] + s[j + 1..] == [s[0]] + (rest[..j - 1] + rest[j..]) by {
        assert s[..j] == [s[0]] + rest[..j - 1];
        assert s[j + 1..] == rest[j..];
        AppendAssoc([s[0]], rest[..j - 1], rest[j..]);
      }
    }
  }

  /** Replacing the last element of `a + [x]` gives `a + [y]`. */
  lemma UpdateLast<T>(a: seq<T>, x: T, y: T)
    ensures (a + [x])[|a| := y] == a + [y]
  {
  }

  /** Concatenation is associative. */
  lemma AppendAssoc<T>(a: seq<T>, b: seq<T>, c: seq<T>)
    ensures (a + b) + c == a + (b + c)
  {
  }

  /** Two tests that agree on every element keep the same elements. */
  lemma {:induction false} FilterSame<T(!new)>(s: seq<T>, p: T -> bool, q: T -> bool)
    requires forall i :: 0 <= i < |s| ==> p(s[i]) == q(s[i])
    ensures Filter(s, p) == Filter(s, q)
  {
    if s != [] {
      var rest := s[1..];
      assert forall i :: 0 <= i < |rest| ==> p(rest[i]) == q(rest[i]) by {
        forall i | 0 <= i < |rest| ensures p(rest[i]) == q(rest[i]) {
          assert rest[i] == s[i + 1];
        }
      }
      FilterSame(rest, p, q);
    }
  }

  /** `r` is `s` with some elements left out and the rest in their order:
      element `i` of `r` is element `f[i]` of `s`, and `f` increases. */
  predicate SubsequenceVia<T(==)>(r: seq<T>, s: seq<T>, f: seq<int>)
  {
    && |f| == |r|
    && (forall i :: 0 <= i < |f| ==> 0 <= f[i] < |s| && r[i] == s[f[i]])
    && (forall i, j :: 0 <= i < j < |f| ==> f[i] < f[j])
  }

  /** Positions one further along. */
  function Shifted(g: seq<int>): (h: seq<int>)
    ensures |h| == |g| && forall i :: 0 <= i < |g| ==> h[i] == g[i] + 1
  {
    seq(|g|, i requires 0 <= i < |g| => g[i] + 1)
  }

  /** A subsequence of the tail of `s` is one of `s`, one position further on. */
  lemma SubsequenceOfTail<T>(r: seq<T>, s: seq<T>, g: seq<int>)
    requires |s| > 0 && SubsequenceVia(r, s[1..], g)
    ensures SubsequenceVia(r, s, Shifted(g))
  {
    var h := Shifted(g);
    forall i | 0 <= i < |h|
      ensures 0 <= h[i] < |s| && r[i] == s[h[i]]
    {
      assert r[i] == s[1..][g[i]];
    }
  }

  /** The head of `s` in front of a subsequence of its tail. */
  lemma SubsequenceCons<T>(r: seq<T>, s: seq<T>, g: seq<int>)
    requires |s| > 0 && SubsequenceVia(r, s[1..], g)
    ensures SubsequenceVia([s[0]] + r, s, [0] + Shifted(g))
  {
    SubsequenceOfTail(r, s, g);
    var f := [0] + Shifted(g);
    var q := [s[0]] + r;
    forall i | 0 <= i < |f|
      ensures 0 <= f[i] < |s| && q[i] == s[f[i]]
    {
      if i > 0 {
        assert f[i] == Shifted(g)[i - 1] && q[i] == r[i - 1];
      }
    }
  }

  /** Filtering keeps the surviving elements in their original order: it
      returns the positions they came from. */
  lemma {:induction false} FilterOrder<T(!new)>(s: seq<T>, keep: T -> bool) returns (f: seq<int>)
    ensures SubsequenceVia(Filter(s, keep), s, f)
  {
    if s == [] {
      f := [];
    } else {
      var tail := Filter(s[1..], keep);
      var g := FilterOrder(s[1..], keep);
      if keep(s[0]) {
        SubsequenceCons(tail, s, g);
        f := [0] + Shifted(g);
        assert Filter(s, keep) == [s[0]] + tail;
      } else {
        SubsequenceOfTail(tail, s, g);
        f := Shifted(g);
        assert Filter(s, keep) == tail;
      }
    }
  }

  /** Elements taken from distinct positions of a sequence without
      repetitions are themselves distinct. */
  lemma SubsequenceNoDuplicates<T>(r: seq<T>, s: seq<T>, f: seq<int>)
    requires SubsequenceVia(r, s, f) && NoDuplicates(s)
    ensures NoDuplicates(r)
  {
    forall i, j | 0 <= i < j < |r|
      ensures r[i] != r[j]
    {
      assert f[i] < f[j];
    }
  }

  /** A sequence holding two different values has at least two elements. */
  lemma TwoMembers<T>(s: seq<T>, a: T, b: T)
    requires a in s && b in s && a != b
    ensures |s| >= 2
  {
  }
}
