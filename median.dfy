/**
 * The running median of one planet: the values are split between `low` (the max-heap of the
 * smaller half) and `high` (the min-heap of the larger half). This module holds the pure part:
 * heap tops, the balance invariant, the median read off the tops, and its agreement with the
 * textbook median of the sorted values.
 */
module RunningMedian {
  import opened Wrappers
  import opened Seqs

  /** Index of a largest element: the top of a max-heap holding `s`. */
  function MaxIndex(s: seq<int>): (k: nat)
    requires |s| > 0
    ensures k < |s|
    ensures forall i :: 0 <= i < |s| ==> s[i] <= s[k]
  {
    if |s| == 1 then 0
    else
      var k := MaxIndex(s[..|s| - 1]);
      if s[k] < s[|s| - 1] then |s| - 1 else k
  }

  /** Index of a smallest element: the top of a min-heap holding `s`. */
  function MinIndex(s: seq<int>): (k: nat)
    requires |s| > 0
    ensures k < |s|
    ensures forall i :: 0 <= i < |s| ==> s[k] <= s[i]
  {
    if |s| == 1 then 0
    else
      var k := MinIndex(s[..|s| - 1]);
      if s[|s| - 1] < s[k] then |s| - 1 else k
  }

  /** `low` holds as many values as `high`, or one more. */
  ghost predicate Balanced(low: seq<int>, high: seq<int>) {
    |low| == |high| || |low| == |high| + 1
  }

  /** The top of `low` is at most the top of `high`: every value of `low` is at most every value of `high`. */
  ghost predicate Split(low: seq<int>, high: seq<int>) {
    |low| == 0 || |high| == 0 || low[MaxIndex(low)] <= high[MinIndex(high)]
  }

  lemma SplitMeans(low: seq<int>, high: seq<int>, x: int, y: int)
    requires Split(low, high) && x in low && y in high
    ensures x <= y
  {
    var i :| 0 <= i < |low| && low[i] == x;
    var j :| 0 <= j < |high| && high[j] == y;
  }

  ghost predicate NonNegative(low: seq<int>, high: seq<int>) {
    (forall x :: x in low ==> x >= 0) && (forall y :: y in high ==> y >= 0)
  }

  /** Adding a non-negative value to non-negative halves keeps them non-negative. */
  lemma NonNegativeKept(low: seq<int>, high: seq<int>, low': seq<int>, high': seq<int>, v: int)
    requires NonNegative(low, high) && v >= 0
    requires forall x :: x in low' || x in high' ==> x == v || x in low || x in high
    ensures NonNegative(low', high')
  {
  }

  ghost predicate MedianInv(low: seq<int>, high: seq<int>) {
    Balanced(low, high) && Split(low, high)
  }

  /**
   * C++ integer division by two, which truncates toward zero: twice the result is `n` less
   * the remainder, and the remainder has the sign of `n`.
   */
  function Halve(n: int): (r: int)
    ensures n >= 0 ==> 0 <= n - 2 * r <= 1
    ensures n <= 0 ==> -1 <= n - 2 * r <= 0
  {
    if n >= 0 then n / 2 else -((-n) / 2)
  }

  /**
   * The median `printMedianOut` reports for one planet, or `None` when it prints nothing.
   */
  function MedianOf(low: seq<int>, high: seq<int>): (r: Option<int>)
    ensures r.None? <==> |low| == 0 && |high| == 0
  {
    if |low| > |high| then Some(low[MaxIndex(low)])
    else if |high| > |low| then Some(high[MinIndex(high)])
    else if |low| != 0 && |high| == |low| then Some(Halve(low[MaxIndex(low)] + high[MinIndex(high)]))
    else None
  }

  /** The largest value of `s + [v]` is the larger of `v` and the largest value of `s`. */
  lemma MaxOfPush(s: seq<int>, v: int)
    ensures var t := s + [v];
      t[MaxIndex(t)] == if |s| == 0 || s[MaxIndex(s)] < v then v else s[MaxIndex(s)]
  {
    var t := s + [v];
    var k := MaxIndex(t);
    if |s| > 0 {
      assert t[MaxIndex(s)] == s[MaxIndex(s)] && t[|s|] == v;
      if k < |s| {
        assert t[k] == s[k];
      }
    }
  }

  /** The smallest value of `s + [v]` is the smaller of `v` and the smallest value of `s`. */
  lemma MinOfPush(s: seq<int>, v: int)
    ensures var t := s + [v];
      t[MinIndex(t)] == if |s| == 0 || v < s[MinIndex(s)] then v else s[MinIndex(s)]
  {
    var t := s + [v];
    var k := MinIndex(t);
    if |s| > 0 {
      assert t[MinIndex(s)] == s[MinIndex(s)] && t[|s|] == v;
      if k < |s| {
        assert t[k] == s[k];
      }
    }
  }

  /** A value no larger than the top of `low` (or any value when `low` is empty) can join `low`. */
  lemma PushLow(low: seq<int>, high: seq<int>, v: int)
    requires Split(low, high)
    requires |low| == 0 || v <= low[MaxIndex(low)]
    requires |low| == 0 ==> |high| == 0
    ensures Split(low + [v], high)
  {
    MaxOfPush(low, v);
  }

  /** A value larger than the top of `low` can join `high`. */
  lemma PushHigh(low: seq<int>, high: seq<int>, v: int)
    requires Split(low, high)
    requires |low| > 0 && v > low[MaxIndex(low)]
    ensures Split(low, high + [v])
  {
    MinOfPush(high, v);
  }

  /** Taking element `k` out of `s` and putting it on `t` keeps the values of the two together. */
  lemma MoveKeepsValues(s: seq<int>, t: seq<int>, k: nat)
    requires k < |s|
    ensures multiset(RemoveAt(s, k)) + multiset(t + [s[k]]) == multiset(s) + multiset(t)
    ensures multiset(t + [s[k]]) + multiset(RemoveAt(s, k)) == multiset(t) + multiset(s)
  {
    var m := multiset(s);
    RemoveAtValues(s, k);
    assert s[k] in m;
    assert multiset(t + [s[k]]) == multiset(t) + multiset{s[k]};
    assert (m - multiset{s[k]}) + multiset{s[k]} == m;
  }

  lemma ValuesFromMultiset(low: seq<int>, high: seq<int>, m: multiset<int>)
    requires multiset(low) + multiset(high) == m
    ensures |low| + |high| == |m|
    ensures forall x :: x in low || x in high ==> x in m
  {
  }

  /** Moving the top of `low` over to `high` keeps the halves split. */
  lemma MoveLowTop(low: seq<int>, high: seq<int>)
    requires Split(low, high) && |low| > 0
    ensures Split(RemoveAt(low, MaxIndex(low)), high + [low[MaxIndex(low)]])
  {
    var k := MaxIndex(low);
    var rest := RemoveAt(low, k);
    RemoveAtValues(low, k);
    MinOfPush(high, low[k]);
    if |rest| > 0 {
      var m := MaxIndex(rest);
      assert rest[m] in low;
    }
  }

  /** Moving the top of `high` over to `low` keeps the halves split. */
  lemma MoveHighTop(low: seq<int>, high: seq<int>)
    requires Split(low, high) && |high| > 0
    ensures Split(low + [high[MinIndex(high)]], RemoveAt(high, MinIndex(high)))
  {
    var k := MinIndex(high);
    var rest := RemoveAt(high, k);
    RemoveAtValues(high, k);
    MaxOfPush(low, high[k]);
    if |rest| > 0 {
      var m := MinIndex(rest);
      assert rest[m] in high;
    }
  }

  ghost predicate Sorted(s: seq<int>) {
    forall i, j :: 0 <= i < j < |s| ==> s[i] <= s[j]
  }

  /** The textbook median of a sorted sequence: its middle element, or the floor of the mean of its two middle elements. */
  ghost function TextbookMedian(s: seq<int>): Option<int> {
    if |s| == 0 then None
    else if |s| % 2 == 1 then Some(s[|s| / 2])
    else Some((s[|s| / 2 - 1] + s[|s| / 2]) / 2)
  }

  /** `x` inserted into the sorted sequence `s`, before the first element it does not exceed. */
  ghost function InsertSorted(x: int, s: seq<int>): (r: seq<int>)
    requires Sorted(s)
    ensures |r| == |s| + 1 && r[0] == if s == [] || x <= s[0] then x else s[0]
    ensures Sorted(r)
  {
    if s == [] then [x]
    else if x <= s[0] then
      assert forall j :: 0 <= j < |s| ==> x <= s[j];
      [x] + s
    else
      var t := InsertSorted(x, s[1..]);
      var r := [s[0]] + t;
      assert s == [s[0]] + s[1..];
      assert forall j :: 0 <= j < |t| ==> s[0] <= t[0] <= t[j];
      assert forall i :: 0 < i < |r| ==> r[i] == t[i - 1];
      r
  }

  /** Inserting `x` into `s` adds exactly `x` to its values. */
  lemma {:induction false} InsertSortedPermutes(x: int, s: seq<int>)
    requires Sorted(s)
    ensures multiset(InsertSorted(x, s)) == multiset(s) + multiset{x}
  {
    if s != [] && x > s[0] {
      var t := InsertSorted(x, s[1..]);
      InsertSortedPermutes(x, s[1..]);
      assert s == [s[0]] + s[1..];
      assert InsertSorted(x, s) == [s[0]] + t;
      assert multiset([s[0]] + t) == multiset{s[0]} + multiset(s[1..]) + multiset{x};
    }
  }

  /** The values of `s` in non-decreasing order. */
  ghost function SortSeq(s: seq<int>): (r: seq<int>)
    ensures Sorted(r) && multiset(r) == multiset(s)
  {
    if s == [] then []
    else
      assert s == [s[0]] + s[1..];
      InsertSortedPermutes(s[0], SortSeq(s[1..]));
      InsertSorted(s[0], SortSeq(s[1..]))
  }

  /** The first element of a sorted sequence is at most each of its values. */
  lemma SortedHeadIsLeast(a: seq<int>, x: int)
    requires Sorted(a) && x in multiset(a)
    ensures a[0] <= x
  {
    assert x in a;
    var i :| 0 <= i < |a| && a[i] == x;
    assert i == 0 || a[0] <= a[i];
  }

  /** The tail of a non-empty sorted sequence is sorted and holds all values but the head. */
  lemma Uncons(a: seq<int>)
    requires Sorted(a) && a != []
    ensures Sorted(a[1..]) && multiset(a[1..]) == multiset(a) - multiset{a[0]}
  {
    assert a == [a[0]] + a[1..];
  }

  /** A multiset has only one sorted arrangement. */
  lemma {:induction false} SortedUnique(a: seq<int>, b: seq<int>)
    requires Sorted(a) && Sorted(b) && multiset(a) == multiset(b)
    ensures a == b
  {
    if a == [] {
      assert |b| == |multiset(b)| == 0;
    } else {
      assert a[0] in multiset(b);
      assert b[0] in multiset(a);
      SortedHeadIsLeast(b, a[0]);
      SortedHeadIsLeast(a, b[0]);
      assert a[0] == b[0];
      Uncons(a);
      Uncons(b);
      assert multiset(a[1..]) == multiset(b[1..]);
      SortedUnique(a[1..], b[1..]);
      assert a == [a[0]] + a[1..];
      assert b == [b[0]] + b[1..];
    }
  }

  /** The last element of a sorted arrangement `t` of `s` is the max-heap top of `s`. */
  lemma ArrangedLastIsMax(s: seq<int>, t: seq<int>)
    requires |s| > 0 && Sorted(t) && multiset(t) == multiset(s)
    ensures |t| == |s| && t[|t| - 1] == s[MaxIndex(s)]
  {
    var m := MaxIndex(s);
    assert |t| == |multiset(t)| == |multiset(s)| == |s|;
    assert t[|t| - 1] in multiset(t);
    var i :| 0 <= i < |s| && s[i] == t[|t| - 1];
    assert s[m] in multiset(s);
    var j :| 0 <= j < |t| && t[j] == s[m];
    assert j == |t| - 1 || t[j] <= t[|t| - 1];
  }

  /** The first element of a sorted arrangement `t` of `s` is the min-heap top of `s`. */
  lemma ArrangedFirstIsMin(s: seq<int>, t: seq<int>)
    requires |s| > 0 && Sorted(t) && multiset(t) == multiset(s)
    ensures |t| == |s| && t[0] == s[MinIndex(s)]
  {
    var m := MinIndex(s);
    assert |t| == |multiset(t)| == |multiset(s)| == |s|;
    assert t[0] in multiset(t);
    var i :| 0 <= i < |s| && s[i] == t[0];
    assert s[m] in multiset(s);
    var j :| 0 <= j < |t| && t[j] == s[m];
    assert j == 0 || t[0] <= t[j];
  }

  lemma SortedConcat(a: seq<int>, b: seq<int>)
    requires Sorted(a) && Sorted(b)
    requires forall i, j :: 0 <= i < |a| && 0 <= j < |b| ==> a[i] <= b[j]
    ensures Sorted(a + b)
  {
    forall i, j | 0 <= i < j < |a + b| ensures (a + b)[i] <= (a + b)[j] {
      if j < |a| {
        assert (a + b)[i] == a[i] && (a + b)[j] == a[j];
      } else if i >= |a| {
        assert (a + b)[i] == b[i - |a|] && (a + b)[j] == b[j - |a|];
      } else {
        assert (a + b)[i] == a[i] && (a + b)[j] == b[j - |a|];
      }
    }
  }

  /** Under the invariant, sorting all values puts the values of `low` first. */
  lemma SortedHalves(low: seq<int>, high: seq<int>)
    requires Split(low, high)
    ensures SortSeq(low + high) == SortSeq(low) + SortSeq(high)
  {
    var sl, sh := SortSeq(low), SortSeq(high);
    forall i, j | 0 <= i < |sl| && 0 <= j < |sh| ensures sl[i] <= sh[j] {
      assert sl[i] in multiset(low) && sh[j] in multiset(high);
      SplitMeans(low, high, sl[i], sh[j]);
    }
    SortedConcat(sl, sh);
    assert multiset(sl + sh) == multiset(low + high);
    SortedUnique(SortSeq(low + high), sl + sh);
  }

  /** Where the heap tops land once all values are sorted. */
  lemma TopsInSorted(low: seq<int>, high: seq<int>)
    requires Split(low, high) && |low| > 0
    ensures |SortSeq(low + high)| == |low| + |high|
    ensures SortSeq(low + high)[|low| - 1] == low[MaxIndex(low)]
    ensures |high| > 0 ==> SortSeq(low + high)[|low|] == high[MinIndex(high)]
  {
    SortedHalves(low, high);
    ArrangedLastIsMax(low, SortSeq(low));
    if |high| > 0 {
      ArrangedFirstIsMin(high, SortSeq(high));
    }
  }

  /** The median read off the heap tops agrees with any sequence that has those tops in its middle. */
  lemma MedianFromTops(low: seq<int>, high: seq<int>, s: seq<int>)
    requires Balanced(low, high) && |low| > 0 && |s| == |low| + |high|
    requires s[|low| - 1] == low[MaxIndex(low)] && low[MaxIndex(low)] >= 0
    requires |high| > 0 ==> s[|low|] == high[MinIndex(high)] && high[MinIndex(high)] >= 0
    ensures MedianOf(low, high) == TextbookMedian(s)
  {
    if |low| == |high| {
      assert |s| / 2 == |low| && |s| % 2 == 0;
    } else {
      assert |s| / 2 == |low| - 1 && |s| % 2 == 1;
    }
  }

  /**
   * With the heaps balanced and split, the reported median is the textbook median of all
   * values observed (the branch where `high` is larger than `low` is never taken); for
   * non-negative values the truncating division equals the floor.
   */
  lemma MedianIsTextbook(low: seq<int>, high: seq<int>)
    requires MedianInv(low, high) && NonNegative(low, high)
    ensures MedianOf(low, high) == TextbookMedian(SortSeq(low + high))
    ensures |high| <= |low|
  {
    if |low| == 0 {
      assert low + high == [];
    } else {
      TopsInSorted(low, high);
      assert low[MaxIndex(low)] in low;
      assert |high| > 0 ==> high[MinIndex(high)] in high;
      MedianFromTops(low, high, SortSeq(low + high));
    }
  }
}
