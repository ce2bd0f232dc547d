/**
 * Orders used by the `sorted(...)` calls of the source: Python compares
 * strings code point by code point (a proper prefix is smaller), and
 * integers numerically.  `SortSet` is `sorted(some_set)`.
 */
module Ordering {

  /** Python's `a < b` on `str`. */
  predicate StrLt(a: string, b: string)
  {
    if |a| == 0 then |b| > 0
    else if |b| == 0 then false
    else if a[0] != b[0] then a[0] < b[0]
    else StrLt(a[1..], b[1..])
  }

  predicate IntLt(a: int, b: int) { a < b }

  ghost predicate StrictTotalOrder<T(!new)>(lt: (T, T) -> bool)
  {
    && (forall a :: !lt(a, a))
    && (forall a, b, c :: lt(a, b) && lt(b, c) ==> lt(a, c))
    && (forall a, b :: a != b ==> lt(a, b) || lt(b, a))
  }

  /** Strictly increasing, hence free of duplicates. */
  ghost predicate SortedBy<T>(s: seq<T>, lt: (T, T) -> bool)
  {
    forall i, j :: 0 <= i < j < |s| ==> lt(s[i], s[j])
  }

  /** `s` lists exactly the elements of `elems`, in increasing order. */
  ghost predicate SortedListOf<T(!new)>(s: seq<T>, elems: set<T>, lt: (T, T) -> bool)
  {
    SortedBy(s, lt) && (forall x :: x in s <==> x in elems)
  }

  lemma {:induction false} StrLtIrreflexive(a: string)
    ensures !StrLt(a, a)
  {
    if |a| > 0 {
      StrLtIrreflexive(a[1..]);
    }
  }

  lemma {:induction false} StrLtTransitive(a: string, b: string, c: string)
    requires StrLt(a, b) && StrLt(b, c)
    ensures StrLt(a, c)
  {
    if |a| > 0 && |b| > 0 && |c| > 0 && a[0] == b[0] && b[0] == c[0] {
      StrLtTransitive(a[1..], b[1..], c[1..]);
    }
  }

  lemma {:induction false} StrLtTotal(a: string, b: string)
    requires a != b
    ensures StrLt(a, b) || StrLt(b, a)
  {
    if |a| > 0 && |b| > 0 && a[0] == b[0] {
      assert a == [a[0]] + a[1..] && b == [b[0]] + b[1..];
      StrLtTotal(a[1..], b[1..]);
    }
  }

  /** Python's string comparison is a strict total order, so `sorted` is well defined. */
  lemma StrLtIsStrictTotalOrder()
    ensures StrictTotalOrder(StrLt)
  {
    forall a ensures !StrLt(a, a) { StrLtIrreflexive(a); }
    forall a, b, c | StrLt(a, b) && StrLt(b, c) ensures StrLt(a, c) { StrLtTransitive(a, b, c); }
    forall a, b | a != b ensures StrLt(a, b) || StrLt(b, a) { StrLtTotal(a, b); }
  }

  /** `sorted` on a set of ints: `<` is a strict total order (a separate lemma keeps its quantifiers out of callers' proofs). */
  lemma IntLtIsStrictTotalOrder()
    ensures StrictTotalOrder(IntLt)
  {
  }

  /** A non-empty finite set has a least element under a strict total order. */
  lemma {:induction false} LeastExists<T(!new)>(s: set<T>, lt: (T, T) -> bool)
    requires StrictTotalOrder(lt) && s != {}
    ensures exists m :: m in s && forall y :: y in s && y != m ==> lt(m, y)
    decreases |s|
  {
    var x :| x in s;
    var rest := s - {x};
    if rest == {} {
      assert s == {x};
    } else {
      LeastExists(rest, lt);
      var m :| m in rest && forall y :: y in rest && y != m ==> lt(m, y);
      if lt(m, x) {
        forall y | y in s && y != m ensures lt(m, y) {
          if y != x {
            assert y in rest;
          }
        }
      } else {
        assert lt(x, m);
        forall y | y in s && y != x ensures lt(x, y) {
          assert y in rest;
          if y != m {
            assert lt(m, y);
          }
        }
      }
    }
  }

  lemma ListOfEmpty<T(!new)>(s: seq<T>, elems: set<T>, lt: (T, T) -> bool)
    requires SortedListOf(s, elems, lt)
    ensures s == [] <==> elems == {}
  {
    if s != [] {
      assert s[0] in elems;
    }
    if elems != {} {
      var x :| x in elems;
      assert x in s;
    }
  }

  lemma ListOfHeadIsLeast<T(!new)>(s: seq<T>, elems: set<T>, lt: (T, T) -> bool)
    requires SortedListOf(s, elems, lt) && s != []
    ensures s[0] in elems
    ensures forall y :: y in elems && y != s[0] ==> lt(s[0], y)
  {
    forall y | y in elems && y != s[0] ensures lt(s[0], y) {
      var k :| 0 <= k < |s| && s[k] == y;
    }
  }

  /** Two increasing lists of the same elements are equal: `sorted(set)` has one answer. */
  lemma {:induction false} SortedListUnique<T(!new)>(s: seq<T>, t: seq<T>, elems: set<T>, lt: (T, T) -> bool)
    requires StrictTotalOrder(lt)
    requires SortedListOf(s, elems, lt) && SortedListOf(t, elems, lt)
    ensures s == t
    decreases |s|
  {
    ListOfEmpty(s, elems, lt);
    ListOfEmpty(t, elems, lt);
    if s != [] {
      ListOfHeadIsLeast(s, elems, lt);
      ListOfHeadIsLeast(t, elems, lt);
      assert s[0] == t[0];
      var rest := elems - {s[0]};
      forall x ensures x in s[1..] <==> x in rest {
        if x in s[1..] {
          var k :| 1 <= k < |s| && s[k] == x;
          assert lt(s[0], s[k]);
        }
        if x in rest {
          assert x in s;
          var k :| 0 <= k < |s| && s[k] == x;
          assert k != 0;
          assert s[1..][k - 1] == x;
        }
      }
      forall x ensures x in t[1..] <==> x in rest {
        if x in t[1..] {
          var k :| 1 <= k < |t| && t[k] == x;
          assert lt(t[0], t[k]);
        }
        if x in rest {
          assert x in t;
          var k :| 0 <= k < |t| && t[k] == x;
          assert k != 0;
          assert t[1..][k - 1] == x;
        }
      }
      SortedListUnique(s[1..], t[1..], rest, lt);
      assert s == [s[0]] + s[1..] && t == [t[0]] + t[1..];
    }
  }

  /** The increasing list of `elems`: the least element, then the rest (`SortedListUnique`: the only one). */
  ghost function SortedOf<T(!new)>(elems: set<T>, lt: (T, T) -> bool): (s: seq<T>)
    requires StrictTotalOrder(lt)
    ensures SortedListOf(s, elems, lt)
    decreases |elems|
  {
    if elems == {} then []
    else
      LeastExists(elems, lt);
      var m :| m in elems && forall y :: y in elems && y != m ==> lt(m, y);
      var rest := SortedOf(elems - {m}, lt);
      assert forall j :: 0 <= j < |rest| ==> rest[j] in elems - {m};
      [m] + rest
  }

  /** `sorted(elems)`: repeatedly takes the least remaining element. */
  method SortSet<T(==,!new)>(elems: set<T>, lt: (T, T) -> bool) returns (s: seq<T>)
    requires StrictTotalOrder(lt)
    ensures SortedListOf(s, elems, lt)
    ensures |s| == |elems|
  {
    s := [];
    var rest := elems;
    while rest != {}
      invariant rest <= elems
      invariant forall x :: x in elems <==> x in s || x in rest
      invariant forall x :: x in s ==> x !in rest
      invariant SortedBy(s, lt)
      invariant forall i, y :: 0 <= i < |s| && y in rest ==> lt(s[i], y)
      invariant |s| + |rest| == |elems|
      decreases |rest|
    {
      LeastExists(rest, lt);
      var m :| m in rest && forall y :: y in rest && y != m ==> lt(m, y);
      s := s + [m];
      rest := rest - {m};
    }
  }
}
