/**
 The statistic functions of the early-stopping layer: the global minimum of
 the training-loss history, the upper median of its last k samples and the
 sum of its last k samples. Losses are modelled as reals, so the order used
 by the sort is total (no NaN).
 */
module Statistics {

  /** Ascending order, as produced by `std::sort` with the default `<`. */
  predicate Sorted(s: seq<real>) {
    forall i, j :: 0 <= i < j < |s| ==> s[i] <= s[j]
  }

  /** The last k samples of a history, oldest first. */
  function Window(s: seq<real>, k: nat): (w: seq<real>)
    requires k <= |s|
    ensures |w| == k
  {
    s[|s| - k..]
  }

  /* ---------------------------------------------------------------------
     Sorting: a functional insertion sort stands for `std::sort`. Which
     algorithm is used does not matter: SortedPermutationUnique shows that
     a sorted permutation of a sequence is unique.
     --------------------------------------------------------------------- */

  /** A lower bound of s and of x bounds every element of a permutation of s + [x]. */
  lemma BoundedByMultiset(r: seq<real>, s: seq<real>, x: real, b: real)
    requires multiset(r) == multiset(s) + multiset{x}
    requires b <= x
    requires forall i :: 0 <= i < |s| ==> b <= s[i]
    ensures forall i :: 0 <= i < |r| ==> b <= r[i]
  {
    forall i | 0 <= i < |r|
      ensures b <= r[i]
    {
      assert r[i] in multiset(r);
      if r[i] != x {
        assert r[i] in multiset(s);
      }
    }
  }

  function Insert(x: real, s: seq<real>): (r: seq<real>)
    requires Sorted(s)
    ensures Sorted(r)
    ensures multiset(r) == multiset(s) + multiset{x}
    ensures |r| == |s| + 1
    decreases |s|
  {
    if |s| == 0 then [x]
    else if x <= s[0] then [x] + s
    else
      var rest := Insert(x, s[1..]);
      assert s == [s[0]] + s[1..];
      BoundedByMultiset(rest, s[1..], x, s[0]);
      [s[0]] + rest
  }

  /** The sorted copy `std::sort` makes in `find_min` and `find_median`. */
  function Sort(s: seq<real>): (r: seq<real>)
    ensures Sorted(r)
    ensures multiset(r) == multiset(s)
    ensures |r| == |s|
  {
    if |s| == 0 then []
    else
      assert s == [s[0]] + s[1..];
      Insert(s[0], Sort(s[1..]))
  }

  /** Every element of a sorted sequence is at least its first element. */
  lemma SortedHeadIsLeast(t: seq<real>, x: real)
    requires Sorted(t)
    requires x in multiset(t)
    ensures t[0] <= x
  {
    var j :| 0 <= j < |t| && t[j] == x;
  }

  /** Removing the first sample keeps a sequence sorted and removes one occurrence. */
  lemma SortedTail(t: seq<real>)
    requires Sorted(t) && |t| > 0
    ensures Sorted(t[1..])
    ensures multiset(t[1..]) == multiset(t) - multiset{t[0]}
  {
    assert t == [t[0]] + t[1..];
  }

  /** Two sorted permutations of one multiset are the same sequence. */
  lemma {:induction false} SortedPermutationUnique(a: seq<real>, b: seq<real>)
    requires Sorted(a) && Sorted(b)
    requires multiset(a) == multiset(b)
    ensures a == b
    decreases |a|
  {
    assert |a| == |multiset(a)| == |b|;
    if |a| > 0 {
      assert a[0] in multiset(a);
      assert b[0] in multiset(b);
      SortedHeadIsLeast(b, a[0]);
      SortedHeadIsLeast(a, b[0]);
      assert a[0] == b[0];
      SortedTail(a);
      SortedTail(b);
      SortedPermutationUnique(a[1..], b[1..]);
      assert a == [a[0]] + a[1..];
      assert b == [b[0]] + b[1..];
    }
  }

  /* ---------------------------------------------------------------------
     Folds over a window: the sum, and how many samples lie below a value.
     Each is a left fold, in the order the loop of `sum_lastk` visits them.
     --------------------------------------------------------------------- */

  function Sum(s: seq<real>): real {
    if |s| == 0 then 0.0 else Sum(s[..|s| - 1]) + s[|s| - 1]
  }

  /** Number of samples of s that are <= x. */
  function CountLe(s: seq<real>, x: real): nat {
    if |s| == 0 then 0 else CountLe(s[..|s| - 1], x) + (if s[|s| - 1] <= x then 1 else 0)
  }

  /** Number of samples of s that are < x. */
  function CountLt(s: seq<real>, x: real): nat {
    if |s| == 0 then 0 else CountLt(s[..|s| - 1], x) + (if s[|s| - 1] < x then 1 else 0)
  }

  lemma {:induction false} FoldsAppend(p: seq<real>, q: seq<real>, x: real)
    ensures Sum(p + q) == Sum(p) + Sum(q)
    ensures CountLe(p + q, x) == CountLe(p, x) + CountLe(q, x)
    ensures CountLt(p + q, x) == CountLt(p, x) + CountLt(q, x)
    decreases |q|
  {
    if |q| == 0 {
      assert p + q == p;
    } else {
      var q' := q[..|q| - 1];
      assert (p + q)[..|p + q| - 1] == p + q';
      FoldsAppend(p, q', x);
    }
  }

  /** Sum and counts do not depend on the order of the samples. */
  lemma {:induction false} FoldsPermutationInvariant(a: seq<real>, b: seq<real>, x: real)
    requires multiset(a) == multiset(b)
    ensures Sum(a) == Sum(b)
    ensures CountLe(a, x) == CountLe(b, x)
    ensures CountLt(a, x) == CountLt(b, x)
    decreases |a|
  {
    assert |a| == |multiset(a)| == |b|;
    if |a| > 0 {
      var last := a[|a| - 1];
      var a' := a[..|a| - 1];
      assert a == a' + [last];
      assert last in multiset(b);
      var j :| 0 <= j < |b| && b[j] == last;
      var b' := b[..j] + b[j + 1..];
      assert b == b[..j] + [last] + b[j + 1..];
      assert multiset(b') == multiset(b) - multiset{last};
      assert multiset(a') == multiset(a) - multiset{last};
      FoldsPermutationInvariant(a', b', x);
      FoldsAppend(a', [last], x);
      FoldsAppend(b[..j], [last], x);
      FoldsAppend(b[..j] + [last], b[j + 1..], x);
      FoldsAppend(b[..j], b[j + 1..], x);
    }
  }

  /** A fold that sees only values <= x counts every one of them. */
  lemma {:induction false} CountAllBelow(s: seq<real>, x: real)
    requires forall i :: 0 <= i < |s| ==> s[i] <= x
    ensures CountLe(s, x) == |s|
  {
    if |s| > 0 {
      CountAllBelow(s[..|s| - 1], x);
    }
  }

  /** A fold that sees only values >= x finds none strictly below it. */
  lemma {:induction false} CountNoneBelow(s: seq<real>, x: real)
    requires forall i :: 0 <= i < |s| ==> x <= s[i]
    ensures CountLt(s, x) == 0
  {
    if |s| > 0 {
      CountNoneBelow(s[..|s| - 1], x);
    }
  }

  /** Counts never exceed the length. */
  lemma {:induction false} CountBounded(s: seq<real>, x: real)
    ensures CountLt(s, x) <= CountLe(s, x) <= |s|
  {
    if |s| > 0 {
      CountBounded(s[..|s| - 1], x);
    }
  }

  /** Whatever is <= a is < b when a < b. */
  lemma {:induction false} CountMonotone(s: seq<real>, a: real, b: real)
    requires a < b
    ensures CountLe(s, a) <= CountLt(s, b)
  {
    if |s| > 0 {
      CountMonotone(s[..|s| - 1], a, b);
    }
  }

  /* ---------------------------------------------------------------------
     Order statistics: r is the element at index m of the sorted copy of w
     exactly when fewer than m+1 samples are below r and more than m are
     at most r.
     --------------------------------------------------------------------- */

  ghost predicate IsOrderStatistic(w: seq<real>, m: nat, r: real) {
    r in w && CountLt(w, r) <= m < CountLe(w, r)
  }

  /** The element at index m of a sorted sequence is its m-th order statistic. */
  lemma SortedIndexIsOrderStatistic(t: seq<real>, m: nat)
    requires Sorted(t)
    requires m < |t|
    ensures IsOrderStatistic(t, m, t[m])
  {
    assert t == t[..m + 1] + t[m + 1..];
    assert t == t[..m] + t[m..];
    FoldsAppend(t[..m + 1], t[m + 1..], t[m]);
    FoldsAppend(t[..m], t[m..], t[m]);
    CountAllBelow(t[..m + 1], t[m]);
    CountNoneBelow(t[m..], t[m]);
    CountBounded(t[..m], t[m]);
  }

  /** At most one value is the m-th order statistic of w. */
  lemma OrderStatisticUnique(w: seq<real>, m: nat, r1: real, r2: real)
    requires IsOrderStatistic(w, m, r1)
    requires IsOrderStatistic(w, m, r2)
    ensures r1 == r2
  {
    if r1 < r2 {
      CountMonotone(w, r1, r2);
    } else if r2 < r1 {
      CountMonotone(w, r2, r1);
    }
  }

  /** Being an order statistic depends only on the multiset of samples. */
  lemma OrderStatisticPermutation(a: seq<real>, b: seq<real>, m: nat, r: real)
    requires multiset(a) == multiset(b)
    requires IsOrderStatistic(a, m, r)
    ensures IsOrderStatistic(b, m, r)
  {
    FoldsPermutationInvariant(a, b, r);
    assert r in multiset(a);
  }

  /* ---------------------------------------------------------------------
     The three statistics of `EarlystopLayer`.
     --------------------------------------------------------------------- */

  /** `find_min`: the first element of a sorted copy of the whole history. */
  function FindMin(s: seq<real>): (r: real)
    requires |s| > 0
    ensures r in s
    ensures forall i :: 0 <= i < |s| ==> r <= s[i]
  {
    var t := Sort(s);
    assert t[0] in multiset(s);
    assert forall i :: 0 <= i < |s| ==> t[0] <= s[i] by {
      forall i | 0 <= i < |s|
        ensures t[0] <= s[i]
      {
        assert s[i] in multiset(s);
        SortedHeadIsLeast(t, s[i]);
      }
    }
    t[0]
  }

  /** `find_min` can be maintained as a running minimum as samples arrive. */
  lemma RunningMinimum(s: seq<real>, x: real)
    requires |s| > 0
    ensures FindMin(s + [x]) == (if x < FindMin(s) then x else FindMin(s))
  {
    var m := FindMin(s + [x]);
    assert m in s + [x];
    assert m <= (s + [x])[|s|];
    if m != x {
      assert m in s;
    }
    forall i | 0 <= i < |s|
      ensures m <= s[i]
    {
      assert s[i] == (s + [x])[i];
    }
  }

  /**
   `find_median`: the element at index k/2 of the sorted last-k window. For
   an even k this is the upper of the two middle samples.
   */
  function FindMedian(s: seq<real>, k: nat): (r: real)
    requires 1 <= k <= |s|
    ensures r in Window(s, k)
    ensures IsOrderStatistic(Window(s, k), k / 2, r)
    ensures CountLe(Window(s, k), r) >= k / 2 + 1
    ensures k - CountLt(Window(s, k), r) >= k - k / 2
  {
    var w := Window(s, k);
    var t := Sort(w);
    SortedIndexIsOrderStatistic(t, k / 2);
    OrderStatisticPermutation(t, w, k / 2, t[k / 2]);
    t[k / 2]
  }

  /** The median is the order statistic of the window, whatever sort computes it. */
  lemma MedianIsSortedWindowIndex(s: seq<real>, k: nat, t: seq<real>)
    requires 1 <= k <= |s|
    requires Sorted(t) && multiset(t) == multiset(Window(s, k))
    ensures k / 2 < |t| && FindMedian(s, k) == t[k / 2]
  {
    assert |t| == |multiset(t)| == k;
    SortedIndexIsOrderStatistic(t, k / 2);
    OrderStatisticPermutation(t, Window(s, k), k / 2, t[k / 2]);
    OrderStatisticUnique(Window(s, k), k / 2, FindMedian(s, k), t[k / 2]);
  }

  /** `sum_lastk`: its loop adds the last k samples in order. */
  method SumLastK(s: seq<real>, k: nat) returns (r: real)
    requires k <= |s|
    ensures r == Sum(Window(s, k))
  {
    r := 0.0;
    var i := |s| - k;
    while i < |s|
      invariant |s| - k <= i <= |s|
      invariant r == Sum(s[|s| - k..i])
    {
      assert s[|s| - k..i + 1][..i - (|s| - k)] == s[|s| - k..i];
      r := r + s[i];
      i := i + 1;
    }
    assert s[|s| - k..i] == Window(s, k);
  }

  /** The windowed sum ignores every sample before the window. */
  lemma SumLastKIgnoresPrefix(p: seq<real>, s: seq<real>, k: nat)
    requires k <= |s|
    ensures Sum(Window(p + s, k)) == Sum(Window(s, k))
  {
    assert Window(p + s, k) == Window(s, k);
  }

  /** The windowed sum does not depend on the order of the window's samples. */
  lemma SumLastKOrderFree(s: seq<real>, k: nat, t: seq<real>)
    requires k <= |s|
    requires multiset(t) == multiset(Window(s, k))
    ensures Sum(t) == Sum(Window(s, k))
  {
    FoldsPermutationInvariant(t, Window(s, k), 0.0);
  }
}
