/** Merging two sorted ranges, whole or in two halves that a binary split makes independent of each other.

    The sequential merge has a fast loop that stops one element short of the end of a range, a slow loop for the rest
    and a final copy; together they write exactly the merge, whichever range ends first and even when one is empty. The
    parallel merge takes an element of the first range, finds by binary search how many elements of the second range go
    below it, and merges the two lower and the two upper parts on their own; the element itself goes in between. */
module MergeLib {
  import opened SortLib

  // ---------------------------------------------------------------- what a merge computes

  /** Ties take the element of the second range first. */
  function Merge(x: seq<int>, y: seq<int>): seq<int> {
    if x == [] then y
    else if y == [] then x
    else if x[0] < y[0] then [x[0]] + Merge(x[1..], y)
    else [y[0]] + Merge(x, y[1..])
  }

  lemma {:induction false} MergeElements(x: seq<int>, y: seq<int>)
    ensures |Merge(x, y)| == |x| + |y| && multiset(Merge(x, y)) == multiset(x) + multiset(y)
  {
    if x != [] && y != [] {
      if x[0] < y[0] {
        MergeElements(x[1..], y);
        assert x == [x[0]] + x[1..];
      } else {
        MergeElements(x, y[1..]);
        assert y == [y[0]] + y[1..];
      }
    }
  }

  ghost predicate AtLeast(s: seq<int>, v: int) {
    forall i :: 0 <= i < |s| ==> v <= s[i]
  }

  ghost predicate AtMost(s: seq<int>, v: int) {
    forall i :: 0 <= i < |s| ==> s[i] <= v
  }

  lemma BoundsOfPermutation(s: seq<int>, x: seq<int>, y: seq<int>, v: int)
    requires multiset(s) == multiset(x) + multiset(y)
    ensures AtLeast(x, v) && AtLeast(y, v) ==> AtLeast(s, v)
    ensures AtMost(x, v) && AtMost(y, v) ==> AtMost(s, v)
  {
    forall i | 0 <= i < |s|
      ensures s[i] in x || s[i] in y
    {
      assert s[i] in multiset(s);
    }
  }

  lemma SortedCons(v: int, s: seq<int>)
    requires AtLeast(s, v) && Sorted(s)
    ensures Sorted([v] + s)
  {
  }

  lemma SortedTail(s: seq<int>)
    requires Sorted(s) && s != []
    ensures Sorted(s[1..]) && AtLeast(s[1..], s[0]) && AtLeast(s, s[0])
  {
  }

  lemma {:induction false} MergeSorted(x: seq<int>, y: seq<int>)
    requires Sorted(x) && Sorted(y)
    ensures Sorted(Merge(x, y))
  {
    if x != [] && y != [] {
      SortedTail(x);
      SortedTail(y);
      if x[0] < y[0] {
        MergeSorted(x[1..], y);
        MergeElements(x[1..], y);
        BoundsOfPermutation(Merge(x[1..], y), x[1..], y, x[0]);
        SortedCons(x[0], Merge(x[1..], y));
      } else {
        MergeSorted(x, y[1..]);
        MergeElements(x, y[1..]);
        BoundsOfPermutation(Merge(x, y[1..]), x, y[1..], y[0]);
        SortedCons(y[0], Merge(x, y[1..]));
      }
    }
  }

  // ---------------------------------------------------------------- a merge in two independent halves

  /** Position `r` splits `y` at value `v`. */
  ghost predicate SplitsAt(y: seq<int>, r: nat, v: int) {
    r <= |y| && AtMost(y[..r], v) && AtLeast(y[r..], v)
  }

  /** The lower halves merged, the splitting element, the upper halves merged. */
  function MergeHalves(x: seq<int>, y: seq<int>, c: nat, r: nat): seq<int>
    requires c < |x| && r <= |y|
  {
    Merge(x[..c], y[..r]) + [x[c]] + Merge(x[c + 1..], y[r..])
  }

  lemma SortedParts(s: seq<int>, k: nat)
    requires Sorted(s) && k <= |s|
    ensures Sorted(s[..k]) && Sorted(s[k..])
    ensures k < |s| ==> AtMost(s[..k], s[k]) && AtLeast(s[k..], s[k]) && Sorted(s[k + 1..]) && AtLeast(s[k + 1..], s[k])
  {
  }

  /** Two halves, split at the same value, are as good as one merge: sorted, and the same elements. */
  lemma MergeHalvesSorts(x: seq<int>, y: seq<int>, c: nat, r: nat)
    requires Sorted(x) && Sorted(y) && c < |x| && SplitsAt(y, r, x[c])
    ensures Sorted(MergeHalves(x, y, c, r))
    ensures |MergeHalves(x, y, c, r)| == |x| + |y|
    ensures multiset(MergeHalves(x, y, c, r)) == multiset(x) + multiset(y)
  {
    SortedParts(x, c);
    SortedParts(y, r);
    MergeSorted(x[..c], y[..r]);
    MergeSorted(x[c + 1..], y[r..]);
    LowerHalf(x[..c], y[..r], x[c]);
    UpperHalf(x[c + 1..], y[r..], x[c]);
    SortedAround(Merge(x[..c], y[..r]), x[c], Merge(x[c + 1..], y[r..]));
    MergeHalvesElements(x, y, c, r);
  }

  lemma LowerHalf(x: seq<int>, y: seq<int>, v: int)
    requires AtMost(x, v) && AtMost(y, v)
    ensures AtMost(Merge(x, y), v)
  {
    MergeElements(x, y);
    BoundsOfPermutation(Merge(x, y), x, y, v);
  }

  lemma UpperHalf(x: seq<int>, y: seq<int>, v: int)
    requires AtLeast(x, v) && AtLeast(y, v)
    ensures AtLeast(Merge(x, y), v)
  {
    MergeElements(x, y);
    BoundsOfPermutation(Merge(x, y), x, y, v);
  }

  lemma MergeHalvesElements(x: seq<int>, y: seq<int>, c: nat, r: nat)
    requires c < |x| && r <= |y|
    ensures |MergeHalves(x, y, c, r)| == |x| + |y|
    ensures multiset(MergeHalves(x, y, c, r)) == multiset(x) + multiset(y)
  {
    MergeElements(x[..c], y[..r]);
    MergeElements(x[c + 1..], y[r..]);
    assert x == x[..c] + [x[c]] + x[c + 1..];
    assert y == y[..r] + y[r..];
  }

  lemma SortedAround(lo: seq<int>, v: int, hi: seq<int>)
    requires Sorted(lo) && Sorted(hi) && AtMost(lo, v) && AtLeast(hi, v)
    ensures Sorted(lo + [v] + hi)
  {
    var s := lo + [v] + hi;
    forall i, j | 0 <= i < j < |s|
      ensures s[i] <= s[j]
    {
      assert i < |lo| ==> s[i] <= v;
      assert j > |lo| ==> s[j] == hi[j - |lo| - 1] && s[j] >= v;
      assert i > |lo| ==> s[i] == hi[i - |lo| - 1];
    }
  }

  // ---------------------------------------------------------------- the sorted arrangement is unique

  function Insert(v: int, s: seq<int>): (t: seq<int>)
    ensures |t| == |s| + 1
  {
    if s == [] || v <= s[0] then [v] + s else [s[0]] + Insert(v, s[1..])
  }

  /** The sorted arrangement of `s`. */
  function SortOf(s: seq<int>): (t: seq<int>)
    ensures |t| == |s|
  {
    if s == [] then [] else Insert(s[0], SortOf(s[1..]))
  }

  lemma {:induction false} InsertElements(v: int, s: seq<int>)
    ensures multiset(Insert(v, s)) == multiset(s) + multiset{v}
  {
    if s != [] && v > s[0] {
      InsertElements(v, s[1..]);
      assert s == [s[0]] + s[1..];
    }
  }

  lemma {:induction false} InsertSorts(v: int, s: seq<int>)
    requires Sorted(s)
    ensures Sorted(Insert(v, s))
  {
    if s == [] || v <= s[0] {
      SortedCons(v, s);
    } else {
      SortedTail(s);
      InsertSorts(v, s[1..]);
      InsertElements(v, s[1..]);
      BoundsOfPermutation(Insert(v, s[1..]), s[1..], [v], s[0]);
      SortedCons(s[0], Insert(v, s[1..]));
    }
  }

  lemma {:induction false} SortOfSorts(s: seq<int>)
    ensures Sorted(SortOf(s)) && multiset(SortOf(s)) == multiset(s)
  {
    if s != [] {
      SortOfSorts(s[1..]);
      InsertSorts(s[0], SortOf(s[1..]));
      InsertElements(s[0], SortOf(s[1..]));
      assert s == [s[0]] + s[1..];
    }
  }

  lemma FirstIsLeast(x: seq<int>, y: seq<int>)
    requires Sorted(x) && Sorted(y) && multiset(x) == multiset(y) && x != [] && y != []
    ensures x[0] == y[0]
  {
    assert x[0] in multiset(y) && y[0] in multiset(x);
    assert x[0] in y && y[0] in x;
    SortedTail(x);
    SortedTail(y);
  }

  lemma {:induction false} SortedUnique(x: seq<int>, y: seq<int>)
    requires Sorted(x) && Sorted(y) && multiset(x) == multiset(y)
    ensures x == y
  {
    assert |multiset(x)| == |x| && |multiset(y)| == |y|;
    if x != [] {
      FirstIsLeast(x, y);
      SortedTail(x);
      SortedTail(y);
      assert x == [x[0]] + x[1..] && y == [y[0]] + y[1..];
      SameRest(multiset(x[1..]), multiset(y[1..]), x[0]);
      SortedUnique(x[1..], y[1..]);
    }
  }

  lemma SameRest(x: multiset<int>, y: multiset<int>, v: int)
    requires multiset{v} + x == multiset{v} + y
    ensures x == y
  {
    forall e
      ensures x[e] == y[e]
    {
      assert (multiset{v} + x)[e] == (multiset{v} + y)[e];
    }
  }

  // ---------------------------------------------------------------- the methods

  function Write(s: seq<int>, at: nat, v: seq<int>): (t: seq<int>)
    requires at + |v| <= |s|
    ensures |t| == |s|
  {
    s[..at] + v + s[at + |v|..]
  }

  /** Quicksort of a[low..high]: the range becomes its sorted arrangement, the rest stays. */
  method QuickSort(a: array<int>, low: int, high: int, threshold: int)
    requires 0 <= low <= high + 1 <= a.Length && threshold >= 1
    modifies a
    ensures a[..] == Write(old(a[..]), low, SortOf(old(a[low..high + 1])))
  {
    ghost var s := a[..];
    SeqQuick(a, low, high, threshold);
    QuickIsSort(s, a[..], low, high);
    assert s[low..high + 1] == old(a[low..high + 1]);
  }

  lemma QuickIsSort(s: seq<int>, t: seq<int>, low: int, high: int)
    requires 0 <= low <= high + 1 <= |s| && Arranged(s, t, low, high) && SortedRange(t, low, high)
    ensures t == Write(s, low, SortOf(s[low..high + 1]))
  {
    ArrangedSlice(s, t, low, high);
    SortOfSorts(s[low..high + 1]);
    RangeIsSlice(t, low, high);
    SortedUnique(SortOf(s[low..high + 1]), t[low..high + 1]);
    Overwritten(s, t, low, high);
  }

  lemma RangeIsSlice(t: seq<int>, low: int, high: int)
    requires 0 <= low <= high + 1 <= |t| && SortedRange(t, low, high)
    ensures Sorted(t[low..high + 1])
  {
  }

  lemma Overwritten(s: seq<int>, t: seq<int>, low: int, high: int)
    requires 0 <= low <= high + 1 <= |s| && Arranged(s, t, low, high)
    ensures t == Write(s, low, t[low..high + 1])
  {
    assert t == t[..low] + t[low..high + 1] + t[high + 1..];
  }

  /** Writing the merge of the two remaining ranges from `dest` on completes the whole merge `all`. */
  ghost predicate MergeLeft(src: seq<int>, low1: int, high1: int, low2: int, high2: int, d0: seq<int>, d: seq<int>,
                            dest0: int, dest: int, all: seq<int>)
  {
    && 0 <= low1 <= high1 + 1 <= |src| && 0 <= low2 <= high2 + 1 <= |src| && 0 <= dest0 <= dest
    && dest + (high1 + 1 - low1) + (high2 + 1 - low2) == dest0 + |all| <= |d0| && |d| == |d0|
    && d[..dest0] == d0[..dest0] && d[dest0 + |all|..] == d0[dest0 + |all|..]
    && d[dest0..dest] + Merge(src[low1..high1 + 1], src[low2..high2 + 1]) == all
  }

  lemma SliceFirst(s: seq<int>, low: int, high: int)
    requires 0 <= low <= high < |s|
    ensures s[low..high + 1] == [s[low]] + s[low + 1..high + 1] && s[low..high + 1][1..] == s[low + 1..high + 1]
  {
  }

  lemma AppendOne(d: seq<int>, dest0: int, dest: int, v: int, rest: seq<int>, all: seq<int>)
    requires 0 <= dest0 <= dest < |d| && d[dest0..dest] + ([v] + rest) == all
    ensures d[dest := v][dest0..dest + 1] + rest == all
  {
    assert d[dest := v][dest0..dest + 1] == d[dest0..dest] + [v];
  }

  /** One round of either loop. */
  method MergeOne(src: array<int>, low1: int, high1: int, low2: int, high2: int, dst: array<int>,
                  ghost d0: seq<int>, ghost dest0: int, dest: int, ghost all: seq<int>)
    returns (l1: int, l2: int, d: int)
    requires src != dst && low1 <= high1 && low2 <= high2
    requires MergeLeft(src[..], low1, high1, low2, high2, d0, dst[..], dest0, dest, all)
    modifies dst
    ensures MergeLeft(src[..], l1, high1, l2, high2, d0, dst[..], dest0, d, all)
    ensures (l1 == low1 + 1 && l2 == low2) || (l1 == low1 && l2 == low2 + 1)
  {
    l1, l2, d := low1, low2, dest + 1;
    SliceFirst(src[..], low1, high1);
    SliceFirst(src[..], low2, high2);
    ghost var x, y := src[..][low1..high1 + 1], src[..][low2..high2 + 1];
    var a1, a2 := src[low1], src[low2];
    if a1 < a2 {
      AppendOne(dst[..], dest0, dest, a1, Merge(x[1..], y), all);
      dst[dest] := a1;
      l1 := low1 + 1;
    } else {
      AppendOne(dst[..], dest0, dest, a2, Merge(x, y[1..]), all);
      dst[dest] := a2;
      l2 := low2 + 1;
    }
  }

  /** memcpy between two arrays. */
  method Copy(src: array<int>, low: int, high: int, dst: array<int>, dest: int)
    requires src != dst && 0 <= low <= high + 1 <= src.Length && 0 <= dest && dest + (high + 1 - low) <= dst.Length
    modifies dst
    ensures dst[..] == Write(old(dst[..]), dest, src[low..high + 1])
  {
    for i := low to high + 1
      invariant dst[..dest] == old(dst[..dest]) && dst[dest + (i - low)..] == old(dst[dest + (i - low)..])
      invariant dst[dest..dest + (i - low)] == src[low..i]
    {
      dst[dest + (i - low)] := src[i];
    }
    assert dst[..] == dst[..dest] + dst[dest..dest + (high + 1 - low)] + dst[dest + (high + 1 - low)..];
  }

  /** Merge of src[low1..high1] and src[low2..high2] into `dst` from `dest0` on: the fast loop stops one short of the
      end of a range, the slow loop finishes that range, and what is left of the other one is copied. */
  method SeqMerge(src: array<int>, lo1: int, high1: int, lo2: int, high2: int, dst: array<int>, dest0: int)
    requires src != dst
    requires 0 <= lo1 <= high1 + 1 <= src.Length && 0 <= lo2 <= high2 + 1 <= src.Length
    requires 0 <= dest0 && dest0 + (high1 + 1 - lo1) + (high2 + 1 - lo2) <= dst.Length
    modifies dst
    ensures |Merge(src[lo1..high1 + 1], src[lo2..high2 + 1])| == (high1 + 1 - lo1) + (high2 + 1 - lo2)
    ensures dst[..] == Write(old(dst[..]), dest0, Merge(src[lo1..high1 + 1], src[lo2..high2 + 1]))
  {
    ghost var all, s, d0 := Merge(src[lo1..high1 + 1], src[lo2..high2 + 1]), src[..], dst[..];
    MergeElements(src[lo1..high1 + 1], src[lo2..high2 + 1]);
    assert s[lo1..high1 + 1] == src[lo1..high1 + 1] && s[lo2..high2 + 1] == src[lo2..high2 + 1];
    var low1, low2, dest := lo1, lo2, dest0;
    while low1 < high1 && low2 < high2
      invariant src[..] == s && MergeLeft(s, low1, high1, low2, high2, d0, dst[..], dest0, dest, all)
    {
      low1, low2, dest := MergeOne(src, low1, high1, low2, high2, dst, d0, dest0, dest, all);
    }
    while low1 <= high1 && low2 <= high2
      invariant src[..] == s && MergeLeft(s, low1, high1, low2, high2, d0, dst[..], dest0, dest, all)
      decreases high1 - low1 + high2 - low2
    {
      low1, low2, dest := MergeOne(src, low1, high1, low2, high2, dst, d0, dest0, dest, all);
    }
    MergeRest(s, low1, high1, low2, high2, d0, dst[..], dest0, dest, all);
    if low1 > high1 {
      Copy(src, low2, high2, dst, dest);
    } else {
      Copy(src, low1, high1, dst, dest);
    }
  }

  lemma MergeRest(s: seq<int>, low1: int, high1: int, low2: int, high2: int, d0: seq<int>, d: seq<int>,
                  dest0: int, dest: int, all: seq<int>)
    requires MergeLeft(s, low1, high1, low2, high2, d0, d, dest0, dest, all) && (low1 > high1 || low2 > high2)
    ensures var rest := if low1 > high1 then s[low2..high2 + 1] else s[low1..high1 + 1];
            dest + |rest| <= |d| && Write(d, dest, rest) == Write(d0, dest0, all)
  {
    var rest := if low1 > high1 then s[low2..high2 + 1] else s[low1..high1 + 1];
    assert Merge(s[low1..high1 + 1], s[low2..high2 + 1]) == rest;
    assert d[..dest] == d[..dest0] + d[dest0..dest];
  }

  lemma SubSlice(s: seq<int>, lo: nat, hi: nat, i: nat, j: nat)
    requires lo <= hi <= |s| && i <= j <= hi - lo
    ensures s[lo..hi][i..j] == s[lo + i..lo + j]
  {
    var x, y := s[lo..hi][i..j], s[lo + i..lo + j];
    assert |x| == |y|;
    forall k | 0 <= k < |x|
      ensures x[k] == y[k]
    {
      assert x[k] == s[lo..hi][i + k];
    }
  }

  /** Binary search: how many elements of `y` go below the value. */
  function SplitCount(val: int, y: seq<int>): (r: nat)
    requires y != []
    ensures r <= |y|
  {
    if |y| == 1 then
      if y[0] > val then 0 else 1
    else
      var mid := |y| / 2;
      if val <= y[mid] then SplitCount(val, y[..mid]) else mid + SplitCount(val, y[mid..])
  }

  lemma {:induction false} SplitCountSplits(val: int, y: seq<int>)
    requires y != [] && Sorted(y)
    ensures SplitsAt(y, SplitCount(val, y), val)
  {
    if |y| > 1 {
      var mid := |y| / 2;
      SortedParts(y, mid);
      if val <= y[mid] {
        SplitCountSplits(val, y[..mid]);
        SplitsLeft(val, y, mid, SplitCount(val, y[..mid]));
      } else {
        SplitCountSplits(val, y[mid..]);
        SplitsRight(val, y, mid, SplitCount(val, y[mid..]));
      }
    }
  }

  lemma SplitsLeft(val: int, y: seq<int>, mid: nat, r: nat)
    requires mid < |y| && SplitsAt(y[..mid], r, val) && val <= y[mid] && AtLeast(y[mid..], y[mid])
    ensures SplitsAt(y, r, val)
  {
    assert y[..r] == y[..mid][..r];
    var z := y[r..];
    forall i | 0 <= i < |z|
      ensures val <= z[i]
    {
      if r + i < mid {
        assert z[i] == y[..mid][r..][i];
      } else {
        assert z[i] == y[mid..][r + i - mid];
      }
    }
  }

  lemma SplitsRight(val: int, y: seq<int>, mid: nat, r: nat)
    requires mid < |y| && SplitsAt(y[mid..], r, val) && y[mid] <= val && AtMost(y[..mid], y[mid])
    ensures SplitsAt(y, mid + r, val)
  {
    assert y[mid + r..] == y[mid..][r..];
    var z := y[..mid + r];
    forall i | 0 <= i < |z|
      ensures z[i] <= val
    {
      if i < mid {
        assert z[i] == y[..mid][i];
      } else {
        assert z[i] == y[mid..][..r][i - mid];
      }
    }
  }

  /** Searching s[low..high] completes a search whose answer is `goal`. */
  ghost predicate SearchLeft(val: int, s: seq<int>, low: int, high: int, goal: int) {
    0 <= low <= high < |s| && low + SplitCount(val, s[low..high + 1]) == goal
  }

  lemma SearchStep(val: int, s: seq<int>, low: int, high: int, mid: int, goal: int)
    requires 0 <= low < high < |s| && mid == low + (high - low + 1) / 2 && SearchLeft(val, s, low, high, goal)
    ensures low < mid <= high
    ensures if val <= s[mid] then SearchLeft(val, s, low, mid - 1, goal) else SearchLeft(val, s, mid, high, goal)
  {
    var y := s[low..high + 1];
    SubSlice(s, low, high + 1, 0, mid - low);
    SubSlice(s, low, high + 1, mid - low, high + 1 - low);
    assert |y| / 2 == mid - low && y[mid - low] == s[mid];
    assert y[..mid - low] == s[low..mid] && y[mid - low..] == s[mid..high + 1];
  }

  /** The last position of a[low..high] whose element goes below `val`, low - 1 if there is none. */
  method BinSplit(val: int, a: array<int>, low0: int, high0: int) returns (r: int)
    requires 0 <= low0 <= high0 < a.Length
    ensures r == low0 + SplitCount(val, a[low0..high0 + 1]) - 1
  {
    var low, high := low0, high0;
    ghost var s, goal := a[..], low0 + SplitCount(val, a[low0..high0 + 1]);
    assert s[low0..high0 + 1] == a[low0..high0 + 1];
    while low != high
      invariant low0 <= low <= high <= high0 && SearchLeft(val, s, low, high, goal)
      decreases high - low
    {
      var mid := low + (high - low + 1) / 2;
      SearchStep(val, s, low, high, mid, goal);
      if val <= a[mid] {
        high := mid - 1;
      } else {
        low := mid;
      }
    }
    SearchLast(val, s, low, goal);
    r := if a[low] > val then low - 1 else low;
  }

  lemma SearchLast(val: int, s: seq<int>, low: int, goal: int)
    requires 0 <= low < |s| && SearchLeft(val, s, low, low, goal)
    ensures goal == if s[low] > val then low else low + 1
  {
    assert s[low..low + 1] == [s[low]];
  }
}
