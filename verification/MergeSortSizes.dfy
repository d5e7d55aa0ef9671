/** The sizes for which the merge sort sorts. */
module MergeSortSizes {
  // The constructor rounds quarters and fourths down. Unless the size is divisible by 8 the searches of the split units
  // then stop short of the end of their ranges, or the halves do not meet; below 8 there is nothing to search, and the
  // search does not end. So the task sorts exactly the positive sizes that are divisible by 8.

  import opened SortLib
  import opened MergeLib
  import opened MergeSortUnits
  import opened MergeSortOrder
  import opened MergeSortTao
  import opened MergeSortFootprints
  import opened MergeSortCut
  import opened MergeSortOrders
  import opened MergeSortInTurn
  import opened MergeSortSolo

  // ---------------------------------------------------------------- sizes for which some unit leaves the buffers

  lemma {:induction false} PrefixInside(n: nat, order: seq<nat>, mem: Mem, k: nat)
    requires StaysInside(n, order, mem) && k <= |order|
    ensures StaysInside(n, order[..k], mem)
    decreases |order|
  {
    if k < |order| {
      var last := |order| - 1;
      PrefixInside(n, order[..last], mem, k);
      assert order[..last][..k] == order[..k];
    } else {
      assert order[..k] == order;
    }
  }

  lemma EachInside(n: nat, order: seq<nat>, mem: Mem, k: nat)
    requires StaysInside(n, order, mem) && k < |order|
    ensures order[k] < UNITS && InBounds(JobOf(n, order[k]), RunAll(n, order[..k], mem), n)
  {
    PrefixInside(n, order, mem, k + 1);
    LastInside(n, order[..k + 1], order[..k], mem);
  }

  lemma LastInside(n: nat, order: seq<nat>, before: seq<nat>, mem: Mem)
    requires StaysInside(n, order, mem) && order != [] && before == order[..|order| - 1]
    ensures order[|order| - 1] < UNITS && InBounds(JobOf(n, order[|order| - 1]), RunAll(n, before, mem), n)
  {
  }

  /** Below size 8 the range that unit 4 searches is empty. */
  lemma NothingToSearch(n: nat, mem: Mem)
    requires n < 8
    ensures !InBounds(JobOf(n, 4), mem, n)
  {
    assert SizesOf(n).fourth0 == 0;
  }

  /** One round of the loop of `binsplit`, between `low` and `high`, both included. */
  function Narrow(val: int, y: seq<int>, low: int, high: int): (int, int)
    requires 0 <= low + (high - low + 1) / 2 < |y|
  {
    var mid := low + (high - low + 1) / 2;
    if val <= y[mid] then (low, mid - 1) else (mid, high)
  }

  /** A round keeps what is searched for, so it is the round of `MergeLib.BinSplit`. */
  lemma NarrowSearches(val: int, y: seq<int>, low: int, high: int, goal: int)
    requires 0 <= low < high < |y| && SearchLeft(val, y, low, high, goal)
    ensures var next := Narrow(val, y, low, high); SearchLeft(val, y, next.0, next.1, goal)
  {
    SearchStep(val, y, low, high, low + (high - low + 1) / 2, goal);
  }

  /** In an empty range it does not end: the bounds differ, so the loop goes on, and they stay as they are. */
  lemma EmptySearchStays(val: int, y: seq<int>, low: int)
    requires 0 <= low < |y|
    ensures low != low - 1 && Narrow(val, y, low, low - 1) == (low, low - 1)
  {
  }

  /** What unit 9 has been told: the end of its second range, and after unit 5 the difference between where that range
      starts and where to write. */
  ghost predicate ToldNine(n: nat, mem: Mem, split: bool) {
    var z := SizesOf(n);
    var holds :=
      && |mem.high2| == UNITS && |mem.low2| == UNITS && |mem.dest| == UNITS && mem.high2[9] == n - 1
      && (split ==> mem.low2[9] - mem.dest[9] == z.quarter - z.fourth1 - 1);
    holds
  }

  lemma NineStaysTold(n: nat, mem: Mem, u: nat, split: bool)
    requires u < UNITS && ToldNine(n, mem, split) && InBounds(JobOf(n, u), mem, n)
    ensures ToldNine(n, RunUnit(n, u, mem), split || u == 5)
  {
  }

  lemma {:induction false} NineIsTold(n: nat, order: seq<nat>, mem: Mem)
    requires StaysInside(n, order, mem) && ToldNine(n, mem, false)
    ensures ToldNine(n, RunAll(n, order, mem), 5 in order)
    decreases |order|
  {
    if order != [] {
      var before, u := LastOf(order);
      NineIsTold(n, before, mem);
      LastInside(n, order, before, mem);
      NineToldMore(n, before, u, mem, RunAll(n, before, mem));
    }
  }

  lemma NineToldMore(n: nat, before: seq<nat>, u: nat, mem: Mem, mid: Mem)
    requires mid == RunAll(n, before, mem) && u < UNITS && ToldNine(n, mid, 5 in before)
    requires InBounds(JobOf(n, u), mid, n)
    ensures ToldNine(n, RunAll(n, before + [u], mem), 5 in before + [u])
  {
    RunMore(n, before, u, mem);
    NineStaysTold(n, mid, u, 5 in before);
  }

  /** When the size leaves 6 or 7, the halves of group 1 overlap, and unit 9 writes one element too many. */
  lemma NineTooLong(n: nat, mem: Mem)
    requires n % 8 >= 6 && ToldNine(n, mem, true)
    ensures !InBounds(JobOf(n, 9), mem, n)
  {
    var z := SizesOf(n);
    assert z.quarter == 2 * z.half + 1 && z.fourth1 == z.half + 1;
  }

  /** For these sizes every order of the units leaves the buffers or searches an empty range, whatever the input. */
  lemma LeavesBuffers(n: nat, a: seq<int>, t: seq<int>, order: seq<nat>)
    requires (n < 8 || n % 8 >= 6) && WholeTask(order)
    ensures !StaysInside(n, order, InitMem(n, a, t))
  {
    var mem := InitMem(n, a, t);
    if StaysInside(n, order, mem) {
      if n < 8 {
        assert 4 in order;
        var k :| 0 <= k < |order| && order[k] == 4;
        EachInside(n, order, mem, k);
        NothingToSearch(n, RunAll(n, order[..k], mem));
      } else {
        assert 9 in order;
        var k :| 0 <= k < |order| && order[k] == 9;
        EachInside(n, order, mem, k);
        PrefixInside(n, order, mem, k);
        NineIsTold(n, order[..k], mem);
        assert 5 in Deps(9) && 5 in order[..k];
        NineTooLong(n, RunAll(n, order[..k], mem));
      }
    }
  }

  // ---------------------------------------------------------------- inputs that come out unsorted

  /** An input with quarters of equal elements: for sizes divisible by 4 the second quarter is below the first one, for
      the others the second half is below the first one. */
  function FailingInput(n: nat): seq<int> {
    var q := n / 4;
    if n % 4 == 0 then seq(n, i => if i < q then 1 else if i < 2 * q then 0 else 2)
    else seq(n, i => if i < 2 * q then 1 else 0)
  }

  lemma Descends(s: seq<int>, i: nat)
    requires i + 1 < |s| && s[i] > s[i + 1]
    ensures !Sorted(s)
  {
  }

  /** Sizes not divisible by 4: the last search misses the end of the second half. */
  lemma HalfMissed(q: nat, n: nat, left: seq<int>, right: seq<int>)
    requires 1 <= q && 4 * q < n && |left| == 2 * q && |right| == n - 2 * q && AtLeast(left, 1) && AtMost(right, 0)
    ensures !Sorted(HalvesCut(left, right, q, 2 * q))
  {
    CutMisses(left, right, q, 2 * q);
    Descends(HalvesCut(left, right, q, 2 * q), q + 2 * q);
  }

  /** Sizes that leave 4 after division by 8: the first search misses the end of the second quarter, and nothing puts
      the first half in order later. */
  lemma QuarterMissed(q: nat, i: nat, left: seq<int>, right: seq<int>)
    requires i + 1 < |left| && left[i] > left[i + 1] && q < |left| && 0 < 2 * q <= |right|
    requires AtMost(left, 1) && AtLeast(right, 2)
    ensures !Sorted(HalvesCut(left, right, q, 2 * q))
  {
    CutApart(left, right, q, 2 * q, 2);
    Descends(left + right, i);
  }

  /** The first half then has a descent in the middle, and no element above 1. */
  lemma LeftDescends(x: seq<int>, y: seq<int>, h: nat, w: nat, left: seq<int>)
    requires 1 <= h < |x| && w == 2 * h < |y| && AtLeast(x, 1) && AtMost(x, 1) && AtMost(y, 0)
    requires left == HalvesCut(x, y, h, w)
    ensures h + w + 1 < |left| && left[h + w] > left[h + w + 1] && AtMost(left, 1)
  {
    CutMisses(x, y, h, w);
    AtMostMore(y, 0, 1);
    CutBounds(x, y, h, w, 1);
  }

  lemma AtMostMore(s: seq<int>, v: int, w: int)
    requires AtMost(s, v) && v <= w
    ensures AtMost(s, w)
  {
  }

  /** All elements of a half are between those of its quarters. */
  lemma RightAbove(x: seq<int>, y: seq<int>, h: nat, w: nat, right: seq<int>, v: int)
    requires h < |x| && 0 < w <= |y| && AtLeast(x, v) && AtLeast(y, v) && right == HalvesCut(x, y, h, w)
    ensures AtLeast(right, v)
  {
    CutBounds(x, y, h, w, v);
  }

  lemma FailingIsSorted(n: nat, q: nat, a: seq<int>)
    requires q == n / 4 && n >= 8 && a == FailingInput(n)
    ensures |a| == n && QuartersSorted(n, q, a)
  {
  }

  lemma FailingQuarters(n: nat, q: nat, a: seq<int>)
    requires q == n / 4 && n >= 8 && n % 4 == 0 && a == FailingInput(n) && |a| == n
    ensures AtLeast(a[0..q], 1) && AtMost(a[0..q], 1) && AtMost(a[q..2 * q], 0)
    ensures AtLeast(a[2 * q..3 * q], 2) && AtLeast(a[3 * q..n], 2)
  {
  }

  lemma FailingHalves(n: nat, q: nat, a: seq<int>)
    requires q == n / 4 && n >= 8 && n % 4 != 0 && a == FailingInput(n) && |a| == n
    ensures AtLeast(a[0..q], 1) && AtLeast(a[q..2 * q], 1) && AtMost(a[2 * q..3 * q], 0) && AtMost(a[3 * q..n], 0)
  {
  }

  lemma NestedParts(n: nat, a: seq<int>) returns (q: nat, h: nat, left: seq<int>, right: seq<int>)
    requires n >= 8 && n % 8 < 6 && |a| == n
    ensures q == n / 4 && h == q / 2 && 1 <= h && 2 * h <= q <= 2 * h + 1 && 4 * q <= n
    ensures left == HalvesCut(a[0..q], a[q..2 * q], h, 2 * h) && |left| == 2 * q
    ensures right == HalvesCut(a[2 * q..3 * q], a[3 * q..n], h, 2 * h) && |right| == n - 2 * q
    ensures Nested(n, a) == HalvesCut(left, right, q, 2 * q)
  {
    q, h := n / 4, n / 4 / 2;
    ShortSizes(n, q, h);
    CutLengths(a[0..q], a[q..2 * q], h, 2 * h);
    CutLengths(a[2 * q..3 * q], a[3 * q..n], h, 2 * h);
    left, right := HalvesCut(a[0..q], a[q..2 * q], h, 2 * h), HalvesCut(a[2 * q..3 * q], a[3 * q..n], h, 2 * h);
  }

  lemma NestedFailsHalf(n: nat, a: seq<int>)
    requires n >= 8 && n % 8 < 6 && n % 4 != 0 && a == FailingInput(n) && |a| == n
    ensures !Sorted(Nested(n, a))
  {
    var q, h, left, right := NestedParts(n, a);
    FailingHalves(n, q, a);
    CutBounds(a[0..q], a[q..2 * q], h, 2 * h, 1);
    CutBounds(a[2 * q..3 * q], a[3 * q..n], h, 2 * h, 0);
    HalfMissed(q, n, left, right);
  }

  lemma OddQuarter(n: nat, q: nat, h: nat)
    requires n % 8 == 4 && q == n / 4 && h == q / 2
    ensures n % 4 == 0 && q == 2 * h + 1 && n == 4 * q
  {
  }

  lemma NestedFailsQuarter(n: nat, a: seq<int>)
    requires n >= 8 && n % 8 == 4 && a == FailingInput(n) && |a| == n
    ensures !Sorted(Nested(n, a))
  {
    var q, h, left, right := NestedParts(n, a);
    OddQuarter(n, q, h);
    FailingQuarters(n, q, a);
    QuartersFail(q, h, 2 * h, a[0..q], a[q..2 * q], a[2 * q..3 * q], a[3 * q..n], left, right);
  }

  lemma QuartersFail(q: nat, h: nat, w: nat, x0: seq<int>, y0: seq<int>, x1: seq<int>, y1: seq<int>,
                     left: seq<int>, right: seq<int>)
    requires 1 <= h && w == 2 * h && q == w + 1 && |x0| == |y0| == |x1| == q && |y1| >= q
    requires AtLeast(x0, 1) && AtMost(x0, 1) && AtMost(y0, 0) && AtLeast(x1, 2) && AtLeast(y1, 2)
    requires left == HalvesCut(x0, y0, h, w) && right == HalvesCut(x1, y1, h, w)
    requires |left| == 2 * q && |right| >= 2 * q
    ensures !Sorted(HalvesCut(left, right, q, 2 * q))
  {
    LeftDescends(x0, y0, h, w, left);
    RightAbove(x1, y1, h, w, right, 2);
    QuarterMissed(q, h + w, left, right);
  }

  lemma NestedFails(n: nat, a: seq<int>)
    requires n >= 8 && n % 8 < 6 && n % 8 != 0 && a == FailingInput(n) && |a| == n
    ensures !Sorted(Nested(n, a))
  {
    if n % 4 == 0 {
      NestedFailsQuarter(n, a);
    } else {
      NestedFailsHalf(n, a);
    }
  }

  /** For every size of at least 8 that leaves 1 to 5 after division by 8 a single worker leaves this input unsorted. */
  lemma FailsOn(n: nat, t: seq<int>) returns (schedule: seq<nat>)
    requires n >= 8 && n % 8 < 6 && n % 8 != 0 && |t| == n
    ensures var sys := Execution(n, FailingInput(n), t, 1, schedule);
            |FailingInput(n)| == n && sys.c.workers == [Left] && !Sorted(sys.mem.arr)
  {
    var a, order := FailingInput(n), SoloOrder();
    schedule := SoloRuns(n, a, t);
    ExecutionIsOrder(n, a, t, 1, schedule);
    FailsInOrder(n, a, t, order);
  }

  lemma FailsInOrder(n: nat, a: seq<int>, t: seq<int>, order: seq<nat>)
    requires n >= 8 && n % 8 < 6 && n % 8 != 0 && |t| == n && order == SoloOrder() && a == FailingInput(n)
    ensures !Sorted(RunAll(n, order, InitMem(n, a, t)).arr)
  {
    FailingIsSorted(n, n / 4, a);
    InTurnResult(n, a, t, order);
    NestedFails(n, a);
  }

  // ---------------------------------------------------------------- the sizes

  /** An execution keeps to the buffers, and when a worker has left the array is sorted. */
  ghost predicate Sorts(n: nat, a: seq<int>, t: seq<int>, width: nat, schedule: seq<nat>) {
    var sys := Execution(n, a, t, width, schedule);
    && StaysInside(n, sys.order, InitMem(n, a, t))
    && (Left in sys.c.workers ==> Sorted(sys.mem.arr) && multiset(sys.mem.arr) == multiset(a))
  }

  /** So it is for all inputs of size `n`, any number of workers and any schedule. */
  ghost predicate SortsSize(n: nat) {
    forall a: seq<int>, t: seq<int>, width: nat, schedule: seq<nat> ::
      |a| == n && |t| == n ==> Sorts(n, a, t, width, schedule)
  }

  lemma EighthsSort(n: nat, a: seq<int>, t: seq<int>, width: nat, schedule: seq<nat>)
    requires n >= 8 && n % 8 == 0 && |a| == n && |t| == n
    ensures Sorts(n, a, t, width, schedule)
  {
    var sys := Execution(n, a, t, width, schedule);
    ExecutionInside(n, a, t, width, schedule);
    if Left in sys.c.workers {
      var w: nat :| w < |sys.c.workers| && sys.c.workers[w] == Left;
      LeavingMeansSorted(n, a, t, width, schedule, w);
    }
  }

  /** Other sizes have an input and a schedule that fail. */
  lemma OthersFail(n: nat) returns (schedule: seq<nat>)
    requires n < 8 || n % 8 != 0
    ensures |FailingInput(n)| == n && !Sorts(n, FailingInput(n), FailingInput(n), 1, schedule)
  {
    var a := FailingInput(n);
    if n < 8 || n % 8 >= 6 {
      schedule := SoloRuns(n, a, a);
      var sys := Execution(n, a, a, 1, schedule);
      ExecutionIsOrder(n, a, a, 1, schedule);
      assert sys.c.workers[0] == Left;
      LeavesBuffers(n, a, a, sys.order);
    } else {
      schedule := FailsOn(n, a);
      assert Left in Execution(n, a, a, 1, schedule).c.workers;
    }
  }

  /** The task sorts all inputs of size `n`, with any number of workers in any schedule, exactly if `n` is positive and
      divisible by 8. */
  lemma SizesThatSort(n: nat)
    ensures SortsSize(n) <==> n >= 8 && n % 8 == 0
  {
    if n >= 8 && n % 8 == 0 {
      forall a: seq<int>, t: seq<int>, width: nat, schedule: seq<nat> | |a| == n && |t| == n
        ensures Sorts(n, a, t, width, schedule)
      {
        EighthsSort(n, a, t, width, schedule);
      }
    } else {
      var schedule := OthersFail(n);
      assert !Sorts(n, FailingInput(n), FailingInput(n), 1, schedule);
    }
  }
}
