/**
 * Swift's `sorted()` and `sorted(by:)`, modelled as a stable insertion sort
 * over a "comes before" relation `lt`. The library sorts correctly only when
 * `lt` is a strict weak ordering; the lemmas below say what that buys.
 */
module Sorting {

  ghost predicate Irreflexive<T(!new)>(lt: (T, T) -> bool)
  {
    forall a :: !lt(a, a)
  }

  ghost predicate Asymmetric<T(!new)>(lt: (T, T) -> bool)
  {
    forall a, b :: lt(a, b) ==> !lt(b, a)
  }

  ghost predicate Transitive<T(!new)>(lt: (T, T) -> bool)
  {
    forall a, b, c :: lt(a, b) && lt(b, c) ==> lt(a, c)
  }

  /** Being incomparable is itself transitive. */
  ghost predicate IncomparabilityTransitive<T(!new)>(lt: (T, T) -> bool)
  {
    forall a, b, c :: !lt(a, b) && !lt(b, a) && !lt(b, c) && !lt(c, b) ==> !lt(a, c) && !lt(c, a)
  }

  /** What `sorted(by:)` demands of its predicate. */
  ghost predicate StrictWeakOrder<T(!new)>(lt: (T, T) -> bool)
  {
    Irreflexive(lt) && Asymmetric(lt) && Transitive(lt) && IncomparabilityTransitive(lt)
  }

  /** No element comes before an element placed earlier. */
  predicate SortedBy<T>(s: seq<T>, lt: (T, T) -> bool)
  {
    forall i, j :: 0 <= i < j < |s| ==> !lt(s[j], s[i])
  }

  /** Places `x` after every element of `t` it does not come before. */
  function Insert<T>(t: seq<T>, x: T, lt: (T, T) -> bool): (r: seq<T>)
    ensures multiset(r) == multiset(t) + multiset{x}
  {
    if t == [] then [x]
    else if lt(x, t[0]) then [x] + t
    else
      assert t == [t[0]] + t[1..];
      [t[0]] + Insert(t[1..], x, lt)
  }

  function Sort<T>(s: seq<T>, lt: (T, T) -> bool): (r: seq<T>)
    ensures multiset(r) == multiset(s)
    ensures |r| == |s|
  {
    if s == [] then []
    else
      var init, last := s[..|s| - 1], s[|s| - 1];
      assert s == init + [last];
      assert multiset(s) == multiset(init) + multiset{last};
      Insert(Sort(init, lt), last, lt)
  }

  /** Whatever the insertion yields came from `t` or is `x`. */
  lemma InsertMembers<T>(t: seq<T>, x: T, lt: (T, T) -> bool, y: T)
    requires y in Insert(t, x, lt)
    ensures y in t || y == x
  {
    assert y in multiset(Insert(t, x, lt));
  }

  lemma {:induction false} InsertSorted<T(!new)>(t: seq<T>, x: T, lt: (T, T) -> bool)
    requires Irreflexive(lt) && Transitive(lt)
    requires SortedBy(t, lt)
    ensures SortedBy(Insert(t, x, lt), lt)
  {
    if t != [] && !lt(x, t[0]) {
      var rest := Insert(t[1..], x, lt);
      InsertSorted(t[1..], x, lt);
      forall y | y in rest ensures !lt(y, t[0]) {
        InsertMembers(t[1..], x, lt, y);
        if y != x {
          var k :| 0 <= k < |t[1..]| && t[1..][k] == y;
          assert t[k + 1] == y;
        }
      }
      var r := [t[0]] + rest;
      forall i, j | 0 <= i < j < |r| ensures !lt(r[j], r[i]) {
        if i == 0 {
          assert r[j] in rest;
        } else {
          assert r[j] == rest[j - 1] && r[i] == rest[i - 1];
        }
      }
    }
  }

  /** With an irreflexive and transitive `lt`, the result is in order. */
  lemma {:induction false} SortSorted<T(!new)>(s: seq<T>, lt: (T, T) -> bool)
    requires Irreflexive(lt) && Transitive(lt)
    ensures SortedBy(Sort(s, lt), lt)
  {
    if s != [] {
      SortSorted(s[..|s| - 1], lt);
      InsertSorted(Sort(s[..|s| - 1], lt), s[|s| - 1], lt);
    }
  }

  lemma {:induction false} InsertAgrees<T>(t: seq<T>, x: T, lt1: (T, T) -> bool, lt2: (T, T) -> bool)
    requires forall a, b :: a in t + [x] && b in t + [x] ==> (lt1(a, b) <==> lt2(a, b))
    ensures Insert(t, x, lt1) == Insert(t, x, lt2)
  {
    if t != [] {
      assert t[0] in t + [x] && x in t + [x];
      assert forall a :: a in t[1..] + [x] ==> a in t + [x];
      InsertAgrees(t[1..], x, lt1, lt2);
    }
  }

  /** Two relations that agree on the elements being sorted sort them alike. */
  lemma {:induction false} SortAgrees<T>(s: seq<T>, lt1: (T, T) -> bool, lt2: (T, T) -> bool)
    requires forall a, b :: a in s && b in s ==> (lt1(a, b) <==> lt2(a, b))
    ensures Sort(s, lt1) == Sort(s, lt2)
  {
    if s != [] {
      var init := s[..|s| - 1];
      assert forall a :: a in init ==> a in s;
      SortAgrees(init, lt1, lt2);
      var t := Sort(init, lt1);
      forall a | a in t + [s[|s| - 1]] ensures a in s {
        assert a in multiset(t) || a == s[|s| - 1];
        if a != s[|s| - 1] {
          assert a in multiset(init);
        }
      }
      InsertAgrees(t, s[|s| - 1], lt1, lt2);
    }
  }

  /** Every element of the input is in the output and conversely. */
  lemma SortMembers<T>(s: seq<T>, lt: (T, T) -> bool, x: T)
    ensures x in Sort(s, lt) <==> x in s
  {
    assert x in multiset(Sort(s, lt)) <==> x in multiset(s);
  }
}
