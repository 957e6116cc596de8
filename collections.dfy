/** Sequence helpers standing for Swift's `reduce`, `filter` and `flatMap`. */
module Collections {

  /** The sum of a sequence of naturals, folded from the left as `reduce(0, +)` does. */
  function Sum(xs: seq<nat>): nat
  {
    if xs == [] then 0 else Sum(xs[..|xs| - 1]) + xs[|xs| - 1]
  }

  /** Replacing one element changes the sum by the difference. */
  lemma {:induction false} SumUpdate(xs: seq<nat>, i: nat, v: nat)
    requires i < |xs|
    ensures Sum(xs[i := v]) == Sum(xs) - xs[i] + v
  {
    var n := |xs| - 1;
    if i < n {
      assert xs[i := v][..n] == xs[..n][i := v];
      SumUpdate(xs[..n], i, v);
    } else {
      assert xs[i := v][..n] == xs[..n];
    }
  }

  /** Removing one element lowers the sum by that element. */
  lemma {:induction false} SumRemove(xs: seq<nat>, k: nat)
    requires k < |xs|
    ensures Sum(xs[..k] + xs[k + 1..]) == Sum(xs) - xs[k]
  {
    var n := |xs| - 1;
    if k < n {
      var ys := xs[..k] + xs[k + 1..];
      assert ys[..|ys| - 1] == xs[..n][..k] + xs[..n][k + 1..];
      assert ys[|ys| - 1] == xs[n];
      SumRemove(xs[..n], k);
    } else {
      assert xs[..k] + xs[k + 1..] == xs[..n];
    }
  }

  ghost predicate Distinct<T>(s: seq<T>)
  {
    forall i, j :: 0 <= i < j < |s| ==> s[i] != s[j]
  }

  /** Removing one element keeps the others distinct and leaves no new element. */
  lemma RemoveKeepsDistinct<T>(s: seq<T>, k: nat)
    requires k < |s| && Distinct(s)
    ensures Distinct(s[..k] + s[k + 1..])
    ensures forall x :: x in s[..k] + s[k + 1..] ==> x in s
  {
    var r := s[..k] + s[k + 1..];
    forall i, j | 0 <= i < j < |r| ensures r[i] != r[j] {
      var oi := if i < k then i else i + 1;
      var oj := if j < k then j else j + 1;
      assert r[i] == s[oi] && r[j] == s[oj];
    }
  }

  lemma AppendKeepsDistinct<T>(s: seq<T>, x: T)
    requires Distinct(s) && x !in s
    ensures Distinct(s + [x])
  {
  }

  /** The elements of `s` that satisfy `p`, in their original order. */
  function Filter<T(!new)>(s: seq<T>, p: T -> bool): (r: seq<T>)
    ensures |r| <= |s|
    ensures forall x :: x in r <==> x in s && p(x)
  {
    if s == [] then [] else (if p(s[0]) then [s[0]] else []) + Filter(s[1..], p)
  }

  /** Filtering distributes over concatenation: it keeps the relative order of what it keeps. */
  lemma {:induction false} FilterAppend<T(!new)>(a: seq<T>, b: seq<T>, p: T -> bool)
    ensures Filter(a + b, p) == Filter(a, p) + Filter(b, p)
  {
    if a != [] {
      assert (a + b)[0] == a[0];
      assert (a + b)[1..] == a[1..] + b;
      FilterAppend(a[1..], b, p);
    } else {
      assert a + b == b;
    }
  }

  /** Filtering by a predicate that holds everywhere on `s` keeps all of `s`. */
  lemma {:induction false} FilterKeepsAll<T(!new)>(s: seq<T>, p: T -> bool)
    requires forall x :: x in s ==> p(x)
    ensures Filter(s, p) == s
  {
    if s != [] {
      assert forall x :: x in s[1..] ==> x in s;
      FilterKeepsAll(s[1..], p);
    }
  }

  /** A first filter by a weaker predicate does not change what a stronger one keeps. */
  lemma {:induction false} FilterNarrows<T(!new)>(s: seq<T>, wide: T -> bool, narrow: T -> bool)
    requires forall x :: x in s && narrow(x) ==> wide(x)
    ensures Filter(Filter(s, wide), narrow) == Filter(s, narrow)
  {
    if s != [] {
      assert forall x :: x in s[1..] ==> x in s;
      FilterNarrows(s[1..], wide, narrow);
      var rest := Filter(s[1..], wide);
      if wide(s[0]) {
        assert Filter(s, wide) == [s[0]] + rest;
        FilterAppend([s[0]], rest, narrow);
        assert Filter([s[0]], narrow) == (if narrow(s[0]) then [s[0]] else []) + Filter([s[0]][1..], narrow);
        assert [s[0]][1..] == [];
      } else {
        assert Filter(s, wide) == rest;
      }
    }
  }

  /** The concatenation of a sequence of sequences, in order. */
  function Flatten<T>(xss: seq<seq<T>>): seq<T>
  {
    if xss == [] then [] else Flatten(xss[..|xss| - 1]) + xss[|xss| - 1]
  }

  /** The total number of elements of the first `i` inner sequences. */
  function Offset<T>(xss: seq<seq<T>>, i: nat): nat
    requires i <= |xss|
  {
    if i == 0 then 0 else Offset(xss, i - 1) + |xss[i - 1]|
  }

  /** Element `j` of inner sequence `i` sits at `Offset(xss, i) + j` of the flattening. */
  lemma {:induction false} FlattenAt<T>(xss: seq<seq<T>>, i: nat, j: nat)
    requires i < |xss| && j < |xss[i]|
    ensures |Flatten(xss)| == Offset(xss, |xss|)
    ensures Offset(xss, i) + j < |Flatten(xss)|
    ensures Flatten(xss)[Offset(xss, i) + j] == xss[i][j]
  {
    var n := |xss| - 1;
    var init := xss[..n];
    FlattenLength(xss);
    OffsetPrefix(xss, n, i);
    OffsetMonotone(xss, i + 1, |xss|);
    if i < n {
      FlattenAt(init, i, j);
    } else {
      FlattenLength(init);
      OffsetPrefix(xss, n, n);
    }
  }

  lemma {:induction false} FlattenLength<T>(xss: seq<seq<T>>)
    ensures |Flatten(xss)| == Offset(xss, |xss|)
  {
    if xss != [] {
      var n := |xss| - 1;
      FlattenLength(xss[..n]);
      OffsetPrefix(xss, n, n);
    }
  }

  /** Offsets within a prefix are those of the whole. */
  lemma {:induction false} OffsetPrefix<T>(xss: seq<seq<T>>, n: nat, i: nat)
    requires i <= n <= |xss|
    ensures Offset(xss[..n], i) == Offset(xss, i)
  {
    if i > 0 {
      OffsetPrefix(xss, n, i - 1);
    }
  }

  lemma {:induction false} OffsetMonotone<T>(xss: seq<seq<T>>, i: nat, k: nat)
    requires i <= k <= |xss|
    ensures Offset(xss, i) <= Offset(xss, k)
  {
    if i < k {
      OffsetMonotone(xss, i, k - 1);
    }
  }
}
