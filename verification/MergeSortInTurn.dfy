/** The units of the merge sort in the order of a single worker, for every size with which they stay inside their
    buffers.

    When the quarters of the input are sorted already, the units that sort them change nothing. Each group then merges
    what it finds in the way that `MergeSortCut` describes, and the outcome is a nested merge that can be written down.
    This is how inputs are shown to come out unsorted. */
module MergeSortInTurn {
  import opened SortLib
  import opened MergeLib
  import opened MergeSortUnits
  import opened MergeSortOrder
  import opened MergeSortCut
  import opened MergeSortOrders
  import opened MergeSortSolo

  /** The memory before the units of an order and after each of them. */
  ghost predicate IsPath(n: nat, order: seq<nat>, path: seq<Mem>) {
    |path| == |order| + 1 && forall k :: 0 <= k < |order| ==> StepAt(n, order, path, k)
  }

  ghost predicate StepAt(n: nat, order: seq<nat>, path: seq<Mem>, k: nat)
    requires k < |order| && |path| == |order| + 1
  {
    order[k] < UNITS && path[k + 1] == RunUnit(n, order[k], path[k])
  }

  lemma {:induction false} PathOf(n: nat, order: seq<nat>, mem: Mem) returns (path: seq<Mem>)
    requires forall u :: u in order ==> u < UNITS
    ensures IsPath(n, order, path) && path[0] == mem && path[|order|] == RunAll(n, order, mem)
    decreases |order|
  {
    if order == [] {
      path := [mem];
    } else {
      var before, u := LastOf(order);
      assert u in order && forall x :: x in before ==> x in order;
      var front := PathOf(n, before, mem);
      path := PathMore(n, before, front, order, u);
    }
  }

  lemma PathMore(n: nat, before: seq<nat>, front: seq<Mem>, order: seq<nat>, u: nat) returns (path: seq<Mem>)
    requires IsPath(n, before, front) && order == before + [u] && u < UNITS
    ensures IsPath(n, order, path) && path[0] == front[0] && path[|order|] == RunUnit(n, u, front[|before|])
  {
    path := front + [RunUnit(n, u, front[|before|])];
    forall k | 0 <= k < |order|
      ensures StepAt(n, order, path, k)
    {
      assert k < |before| ==> StepAt(n, before, front, k);
    }
  }

  /** Unit `u` finds its quarter sorted. */
  ghost predicate Stays(n: nat, u: nat, mem: Mem) {
    var holds := u < UNITS && RunUnit(n, u, mem) == mem;
    holds
  }

  lemma StaysAt(n: nat, order: seq<nat>, path: seq<Mem>, k: nat, mem: Mem)
    requires IsPath(n, order, path) && k < |order| && path[k] == mem && Stays(n, order[k], mem)
    ensures path[k + 1] == mem
  {
    assert StepAt(n, order, path, k);
  }

  /** With one or two fourths missing from the searches the other sizes still fit together. */
  lemma ShortSizes(n: nat, q: nat, h: nat)
    requires n >= 8 && n % 8 < 6 && q == n / 4 && h == q / 2
    ensures SizesOf(n) == Sizes(q, h, h, h) && 1 <= h && 2 * h <= q <= 2 * h + 1 && 4 * q <= n
  {
  }

  /** The four ranges that the first units sort. */
  ghost predicate QuartersSorted(n: nat, q: nat, a: seq<int>) {
    && |a| == n && 4 * q <= n
    && Sorted(a[0..q]) && Sorted(a[q..2 * q]) && Sorted(a[2 * q..3 * q]) && Sorted(a[3 * q..n])
  }

  lemma SortedStays(x: seq<int>)
    requires Sorted(x)
    ensures SortOf(x) == x
  {
    SortOfSorts(x);
    SortedUnique(SortOf(x), x);
  }

  lemma StoredBack(a: seq<int>, low: nat, hi: nat)
    requires low <= hi <= |a|
    ensures Store(a, low, a[low..hi]) == a
  {
  }

  lemma QuarterStays(n: nat, u: nat, mem: Mem, low: nat, hi: nat)
    requires u < UNITS && JobOf(n, u) == Quicksort(low, hi - 1) && low <= hi <= |mem.arr| && Sorted(mem.arr[low..hi])
    ensures Stays(n, u, mem)
  {
    SortedStays(mem.arr[low..hi]);
    StoredBack(mem.arr, low, hi);
    assert Slice(mem.arr, low, hi - 1) == mem.arr[low..hi];
  }

  lemma QuarterNumbered(n: nat, q: nat, u: nat) returns (low: nat, hi: nat)
    requires q == n / 4 && u < 4
    ensures low == u * q && hi == (if u == 3 then n else low + q) && low <= hi <= n
    ensures JobOf(n, u) == Quicksort(low, hi - 1)
  {
    low := if u == 0 then 0 else if u == 1 then q else if u == 2 then 2 * q else 3 * q;
    hi := if u == 3 then n else low + q;
  }

  lemma QuartersStay(n: nat, q: nat, mem: Mem, u: nat)
    requires q == n / 4 && QuartersSorted(n, q, mem.arr) && u < 4
    ensures Stays(n, u, mem)
  {
    var low, hi := QuarterNumbered(n, q, u);
    QuarterStays(n, u, mem, low, hi);
  }

  /** The ranges of group `g`: the first from b to p, split at s, the second from p to n, searched up to m. */
  ghost predicate Ranges(n: nat, g: Group, b: nat, s: nat, p: nat, hi: nat, m: nat) {
    var holds :=
      && b < s < p < m <= hi <= n && JobOf(n, SplitUnit(g)) == Partition(g, s, p, m)
      && JobOf(n, LowUnit(g)) == Joining(g, LowUnit(g), b, s - 1)
      && JobOf(n, UpUnit(g)) == Joining(g, UpUnit(g), s + 1, p - 1);
    holds
  }

  lemma ShortRanges(n: nat, q: nat, h: nat)
    requires n >= 8 && n % 8 < 6 && q == n / 4 && h == q / 2
    ensures Ranges(n, 0, 0, h, q, 2 * q, q + 2 * h)
    ensures Ranges(n, 1, 2 * q, 2 * q + h, 3 * q, n, 3 * q + 2 * h)
    ensures Ranges(n, 2, 0, q, 2 * q, n, 4 * q)
  {
    ShortSizes(n, q, h);
  }

  /** The group starts with its parameters as the constructor wrote them. */
  ghost predicate Untold(mem: Mem, g: Group, b: nat, p: nat, hi: nat) {
    var holds :=
      && |mem.high2| == UNITS && |mem.low2| == UNITS && |mem.dest| == UNITS
      && mem.low2[LowUnit(g)] == p && mem.dest[LowUnit(g)] == b && mem.high2[UpUnit(g)] == hi - 1;
    holds
  }

  /** What a group leaves: the two ranges merged in its target, the rest as it was. */
  ghost predicate Leaves(mem: Mem, mem': Mem, g: Group, b: nat, hi: nat, out: seq<int>) {
    var holds :=
      && Lengths(mem, |mem.arr|) && Lengths(mem', |mem'.arr|) && Source(mem', g) == Source(mem, g)
      && |Target(mem', g)| == |Target(mem, g)| && b <= hi <= |Target(mem, g)|
      && Target(mem', g)[b..hi] == out
      && (forall i :: 0 <= i < |Target(mem, g)| && !(b <= i < hi) ==> Target(mem', g)[i] == Target(mem, g)[i])
      && (forall u :: 0 <= u < UNITS && u != LowUnit(g) ==> mem'.high2[u] == mem.high2[u])
      && (forall u :: 0 <= u < UNITS && u != UpUnit(g) ==> mem'.low2[u] == mem.low2[u] && mem'.dest[u] == mem.dest[u]);
    holds
  }

  lemma PlanStarts(n: nat, g: Group, mem: Mem, b: nat, s: nat, p: nat, hi: nat, m: nat, x: seq<int>, y: seq<int>)
    returns (plan: Plan)
    requires Lengths(mem, n) && b < s < p < m <= hi <= n && Untold(mem, g, b, p, hi)
    requires x == Source(mem, g)[b..p] && y == Source(mem, g)[p..hi]
    ensures plan == CutPlan(b, s, p, hi, m, x, y) && Starts(plan, g, mem, x, y, m)
  {
    plan := CutPlan(b, s, p, hi, m, x, y);
  }

  /** The units of group `g` are numbers k to k + 2 of the order, and take the memory from `mem` to `mem'`. */
  ghost predicate GroupOn(n: nat, order: seq<nat>, path: seq<Mem>, k: nat, g: Group, mem: Mem, mem': Mem) {
    var holds :=
      && IsPath(n, order, path) && k + 2 < |order|
      && order[k] == SplitUnit(g) && order[k + 1] == LowUnit(g) && order[k + 2] == UpUnit(g)
      && path[k] == mem && path[k + 3] == mem';
    holds
  }

  lemma SplitAt(n: nat, order: seq<nat>, path: seq<Mem>, k: nat, g: Group, u: nat, plan: Plan, mem: Mem, mem': Mem,
                x: seq<int>, y: seq<int>, m: nat)
    requires IsPath(n, order, path) && k < |order| && order[k] == u && mem == path[k] && mem' == path[k + 1]
    requires u < UNITS && JobOf(n, u) == Partition(g, plan.s, plan.p, m)
    requires Lengths(mem, |mem.arr|) && Starts(plan, g, mem, x, y, m)
    ensures SplitDone(plan, g, mem, mem')
  {
    assert StepAt(n, order, path, k);
    SplitStage(plan, g, mem, mem', x, y, m);
  }

  lemma JoinsAt(n: nat, order: seq<nat>, path: seq<Mem>, k: nat, g: Group, u: nat, low1: int, high1: int,
                mem: Mem, mem': Mem)
    requires IsPath(n, order, path) && k < |order| && order[k] == u && mem == path[k] && mem' == path[k + 1]
    requires u < UNITS && JobOf(n, u) == Joining(g, u, low1, high1)
    ensures Joined(g, mem, mem', u, low1, high1)
  {
    assert StepAt(n, order, path, k);
  }

  lemma LowAt(n: nat, order: seq<nat>, path: seq<Mem>, k: nat, g: Group, u: nat, plan: Plan,
              mem: Mem, mid: Mem, mem': Mem, x: seq<int>, y: seq<int>, m: nat)
    requires IsPath(n, order, path) && k < |order| && order[k] == u && mid == path[k] && mem' == path[k + 1]
    requires u == LowUnit(g) && JobOf(n, u) == Joining(g, u, plan.b, plan.s - 1)
    requires Lengths(mem, |mem.arr|) && Starts(plan, g, mem, x, y, m) && SplitDone(plan, g, mem, mid)
    ensures LowDone(plan, g, mem, mem')
  {
    JoinsAt(n, order, path, k, g, u, plan.b, plan.s - 1, mid, mem');
    LowStage(plan, g, mem, mid, mem', x, y, m);
  }

  lemma UpAt(n: nat, order: seq<nat>, path: seq<Mem>, k: nat, g: Group, u: nat, plan: Plan,
             mem: Mem, mid: Mem, mem': Mem, x: seq<int>, y: seq<int>, m: nat)
    requires IsPath(n, order, path) && k < |order| && order[k] == u && mid == path[k] && mem' == path[k + 1]
    requires u == UpUnit(g) && JobOf(n, u) == Joining(g, u, plan.s + 1, plan.p - 1)
    requires Lengths(mem, |mem.arr|) && Starts(plan, g, mem, x, y, m) && LowDone(plan, g, mem, mid)
    ensures BothDone(plan, g, mem, mem')
  {
    JoinsAt(n, order, path, k, g, u, plan.s + 1, plan.p - 1, mid, mem');
    UpStage(plan, g, mem, mid, mem', x, y, m, plan.s + plan.r + 1);
  }

  lemma GroupDoes(n: nat, order: seq<nat>, path: seq<Mem>, k: nat, g: Group, plan: Plan, mem: Mem, mem': Mem,
                  x: seq<int>, y: seq<int>, m: nat)
    requires GroupOn(n, order, path, k, g, mem, mem') && Ranges(n, g, plan.b, plan.s, plan.p, plan.n, m)
    requires Lengths(mem, |mem.arr|) && Starts(plan, g, mem, x, y, m)
    ensures GroupDone(plan, g, mem, mem')
  {
    var m1, m2 := path[k + 1], path[k + 2];
    SplitAt(n, order, path, k, g, SplitUnit(g), plan, mem, m1, x, y, m);
    LowAt(n, order, path, k + 1, g, LowUnit(g), plan, mem, m1, m2, x, y, m);
    UpAt(n, order, path, k + 2, g, UpUnit(g), plan, mem, m2, mem', x, y, m);
    StageDone(plan, g, mem, mem');
  }

  /** The three units of a group, one after the other. */
  lemma GroupAt(n: nat, order: seq<nat>, path: seq<Mem>, k: nat, g: Group, mem: Mem, mem': Mem,
                b: nat, s: nat, p: nat, hi: nat, m: nat, x: seq<int>, y: seq<int>, c: nat, w: nat)
    requires GroupOn(n, order, path, k, g, mem, mem') && Lengths(mem, n)
    requires Ranges(n, g, b, s, p, hi, m) && Untold(mem, g, b, p, hi)
    requires x == Source(mem, g)[b..p] && y == Source(mem, g)[p..hi] && c == s - b && w == m - p
    ensures Leaves(mem, mem', g, b, hi, HalvesCut(x, y, c, w))
  {
    var plan := PlanStarts(n, g, mem, b, s, p, hi, m, x, y);
    GroupDoes(n, order, path, k, g, plan, mem, mem', x, y, m);
    DoneLeaves(plan, g, mem, mem', b, s, p, hi, m, x, y, c, w);
  }

  lemma DoneLeaves(plan: Plan, g: Group, mem: Mem, mem': Mem, b: nat, s: nat, p: nat, hi: nat, m: nat,
                   x: seq<int>, y: seq<int>, c: nat, w: nat)
    requires b < s < p < m <= hi && |x| == p - b && |y| == hi - p && plan == CutPlan(b, s, p, hi, m, x, y)
    requires Lengths(mem, |mem.arr|) && GroupDone(plan, g, mem, mem') && c == s - b && w == m - p
    ensures Leaves(mem, mem', g, b, hi, HalvesCut(x, y, c, w))
  {
    CutPlanSound(b, s, p, hi, m, x, y);
  }

  lemma StartUntold(n: nat, q: nat, a: seq<int>, t: seq<int>)
    requires q == n / 4
    ensures var mem := InitMem(n, a, t);
            Untold(mem, 0, 0, q, 2 * q) && Untold(mem, 1, 2 * q, 3 * q, n) && Untold(mem, 2, 0, 2 * q, n)
  {
  }

  /** What a group leaves alone: the parameters of other groups, and the rest of its target. */
  lemma OthersUntold(mem: Mem, mem': Mem, g: Group, b: nat, hi: nat, out: seq<int>,
                     g': Group, b': nat, p': nat, hi': nat)
    requires Leaves(mem, mem', g, b, hi, out) && g != g' && Untold(mem, g', b', p', hi')
    ensures Untold(mem', g', b', p', hi')
  {
  }

  /** The merge of halves of halves, with each search over two fourths only. */
  function Nested(n: nat, a: seq<int>): seq<int>
    requires |a| == n && n >= 8
  {
    var q := n / 4;
    var h := q / 2;
    var left := HalvesCut(a[0..q], a[q..2 * q], h, 2 * h);
    var right := HalvesCut(a[2 * q..3 * q], a[3 * q..n], h, 2 * h);
    CutLengths(a[0..q], a[q..2 * q], h, 2 * h);
    CutLengths(a[2 * q..3 * q], a[3 * q..n], h, 2 * h);
    HalvesCut(left, right, q, 2 * q)
  }

  lemma CutLengths(x: seq<int>, y: seq<int>, c: nat, k: nat)
    requires c < |x| && 0 < k <= |y|
    ensures |HalvesCut(x, y, c, k)| == |x| + |y|
  {
    CutBounds(x, y, c, k, 0);
  }

  lemma FirstGroup(n: nat, q: nat, h: nat, order: seq<nat>, path: seq<Mem>, mem: Mem, mem': Mem,
                   x: seq<int>, y: seq<int>, w: nat)
    requires 1 <= h && w == 2 * h <= q && 4 * q <= n && Ranges(n, 0, 0, h, q, 2 * q, q + w)
    requires GroupOn(n, order, path, 7, 0, mem, mem') && Lengths(mem, n) && Untold(mem, 0, 0, q, 2 * q)
    requires x == mem.arr[0..q] && y == mem.arr[q..2 * q]
    ensures Leaves(mem, mem', 0, 0, 2 * q, HalvesCut(x, y, h, w))
  {
    GroupAt(n, order, path, 7, 0, mem, mem', 0, h, q, 2 * q, q + w, x, y, h, w);
  }

  lemma SecondGroup(n: nat, q: nat, h: nat, order: seq<nat>, path: seq<Mem>, mem: Mem, mem': Mem,
                    x: seq<int>, y: seq<int>, w: nat)
    requires 1 <= h && w == 2 * h <= q && 4 * q <= n && Ranges(n, 1, 2 * q, 2 * q + h, 3 * q, n, 3 * q + w)
    requires GroupOn(n, order, path, 2, 1, mem, mem') && Lengths(mem, n) && Untold(mem, 1, 2 * q, 3 * q, n)
    requires x == mem.arr[2 * q..3 * q] && y == mem.arr[3 * q..n]
    ensures Leaves(mem, mem', 1, 2 * q, n, HalvesCut(x, y, h, w))
  {
    GroupAt(n, order, path, 2, 1, mem, mem', 2 * q, 2 * q + h, 3 * q, n, 3 * q + w, x, y, h, w);
  }

  lemma ThirdGroup(n: nat, q: nat, order: seq<nat>, path: seq<Mem>, mem: Mem, mem': Mem,
                   x: seq<int>, y: seq<int>, w: nat)
    requires 1 <= q && w == 2 * q && 4 * q <= n && Ranges(n, 2, 0, q, w, n, w + w)
    requires GroupOn(n, order, path, 10, 2, mem, mem') && Lengths(mem, n) && Untold(mem, 2, 0, w, n)
    requires x == mem.tmp[0..w] && y == mem.tmp[w..n]
    ensures Leaves(mem, mem', 2, 0, n, HalvesCut(x, y, q, w))
  {
    GroupAt(n, order, path, 10, 2, mem, mem', 0, q, w, n, w + w, x, y, q, w);
  }

  /** Two of the units that sort quarters, which change nothing. */
  lemma TwoStay(n: nat, q: nat, order: seq<nat>, path: seq<Mem>, mem: Mem, k: nat)
    requires k + 1 < |order| && order[k] < 4 && order[k + 1] < 4 && IsPath(n, order, path) && path[k] == mem
    requires q == n / 4 && QuartersSorted(n, q, mem.arr)
    ensures path[k + 2] == mem
  {
    QuartersStay(n, q, mem, order[k]);
    StaysAt(n, order, path, k, mem);
    QuartersStay(n, q, mem, order[k + 1]);
    StaysAt(n, order, path, k + 1, mem);
  }

  lemma GroupsOn(n: nat, order: seq<nat>, path: seq<Mem>)
    requires order == SoloOrder() && IsPath(n, order, path)
    ensures order[0] < 4 && order[1] < 4 && order[5] < 4 && order[6] < 4
    ensures GroupOn(n, order, path, 2, 1, path[2], path[5]) && GroupOn(n, order, path, 7, 0, path[7], path[10])
    ensures GroupOn(n, order, path, 10, 2, path[10], path[13])
  {
  }

  lemma AfterSecond(n: nat, q: nat, mem: Mem, mem': Mem, right: seq<int>)
    requires Leaves(mem, mem', 1, 2 * q, n, right) && Lengths(mem, n) && 2 * q <= n
    ensures Lengths(mem', n) && mem'.arr == mem.arr && mem'.tmp[2 * q..n] == right
  {
  }

  lemma AfterFirst(n: nat, q: nat, mem: Mem, mem': Mem, left: seq<int>, right: seq<int>)
    requires Leaves(mem, mem', 0, 0, 2 * q, left) && Lengths(mem, n) && 2 * q <= n && mem.tmp[2 * q..n] == right
    ensures Lengths(mem', n) && mem'.tmp[0..2 * q] == left && mem'.tmp[2 * q..n] == right
  {
  }

  lemma AfterThird(n: nat, mem: Mem, mem': Mem, out: seq<int>)
    requires Leaves(mem, mem', 2, 0, n, out) && Lengths(mem, n)
    ensures mem'.arr == out
  {
    assert mem'.arr[0..n] == mem'.arr;
  }

  lemma SecondMade(n: nat, q: nat, h: nat, order: seq<nat>, path: seq<Mem>, m0: Mem, m1: Mem, right: seq<int>)
    requires n >= 8 && n % 8 < 6 && q == n / 4 && h == q / 2 && 1 <= h && 2 * h <= q && 4 * q <= n && Lengths(m0, n)
    requires GroupOn(n, order, path, 2, 1, m0, m1) && Untold(m0, 1, 2 * q, 3 * q, n)
    requires right == HalvesCut(m0.arr[2 * q..3 * q], m0.arr[3 * q..n], h, 2 * h)
    ensures Leaves(m0, m1, 1, 2 * q, n, right)
  {
    ShortRanges(n, q, h);
    SecondGroup(n, q, h, order, path, m0, m1, m0.arr[2 * q..3 * q], m0.arr[3 * q..n], 2 * h);
  }

  lemma FirstMade(n: nat, q: nat, h: nat, order: seq<nat>, path: seq<Mem>, m0: Mem, m1: Mem, m2: Mem,
                  left: seq<int>, right: seq<int>)
    requires n >= 8 && n % 8 < 6 && q == n / 4 && h == q / 2 && 1 <= h && 2 * h <= q && 4 * q <= n && Lengths(m0, n)
    requires Leaves(m0, m1, 1, 2 * q, n, right) && GroupOn(n, order, path, 7, 0, m1, m2)
    requires Untold(m0, 0, 0, q, 2 * q) && left == HalvesCut(m0.arr[0..q], m0.arr[q..2 * q], h, 2 * h)
    ensures Leaves(m1, m2, 0, 0, 2 * q, left)
  {
    ShortRanges(n, q, h);
    AfterSecond(n, q, m0, m1, right);
    OthersUntold(m0, m1, 1, 2 * q, n, right, 0, 0, q, 2 * q);
    FirstGroup(n, q, h, order, path, m1, m2, m0.arr[0..q], m0.arr[q..2 * q], 2 * h);
  }

  /** Group 2 merges them. */
  lemma WholeMade(n: nat, q: nat, order: seq<nat>, path: seq<Mem>, m0: Mem, m1: Mem, m2: Mem, m3: Mem,
                  left: seq<int>, right: seq<int>)
    requires 1 <= q && 4 * q <= n && Ranges(n, 2, 0, q, 2 * q, n, 4 * q) && Lengths(m0, n)
    requires GroupOn(n, order, path, 10, 2, m2, m3) && Untold(m0, 2, 0, 2 * q, n)
    requires Leaves(m0, m1, 1, 2 * q, n, right) && Leaves(m1, m2, 0, 0, 2 * q, left)
    requires |left| == 2 * q && |right| == n - 2 * q
    ensures m3.arr == HalvesCut(left, right, q, 2 * q)
  {
    OthersUntold(m0, m1, 1, 2 * q, n, right, 2, 0, 2 * q, n);
    OthersUntold(m1, m2, 0, 0, 2 * q, left, 2, 0, 2 * q, n);
    AfterSecond(n, q, m0, m1, right);
    AfterFirst(n, q, m1, m2, left, right);
    ThirdGroup(n, q, order, path, m2, m3, left, right, 2 * q);
    AfterThird(n, m2, m3, HalvesCut(left, right, q, 2 * q));
  }

  /** The units that sort quarters leave the memory before groups 1 and 0 alone. */
  lemma FourStay(n: nat, q: nat, order: seq<nat>, path: seq<Mem>, mem: Mem, right: seq<int>)
    requires order == SoloOrder() && IsPath(n, order, path) && path[0] == mem && q == n / 4 && Lengths(mem, n)
    requires QuartersSorted(n, q, mem.arr) && Leaves(mem, path[5], 1, 2 * q, n, right)
    ensures path[7] == path[5]
  {
    GroupsOn(n, order, path);
    AfterSecond(n, q, mem, path[5], right);
    TwoStay(n, q, order, path, path[5], 5);
  }

  lemma StartOfPath(n: nat, q: nat, a: seq<int>, t: seq<int>, order: seq<nat>) returns (path: seq<Mem>)
    requires |a| == n && |t| == n && q == n / 4 && QuartersSorted(n, q, a) && order == SoloOrder()
    ensures var mem := InitMem(n, a, t);
            && IsPath(n, order, path) && path[0] == mem && path[2] == mem && path[13] == RunAll(n, order, mem)
            && Lengths(mem, n)
  {
    SoloUnits(order);
    path := PathOf(n, order, InitMem(n, a, t));
    GroupsOn(n, order, path);
    TwoStay(n, q, order, path, InitMem(n, a, t), 0);
  }

  lemma SoloUnits(order: seq<nat>)
    requires order == SoloOrder()
    ensures |order| == 13 && forall u :: u in order ==> u < UNITS
  {
  }

  /** With sorted quarters a single worker leaves the nested merge. */
  lemma InTurnResult(n: nat, a: seq<int>, t: seq<int>, order: seq<nat>)
    requires n >= 8 && n % 8 < 6 && |a| == n && |t| == n && QuartersSorted(n, n / 4, a) && order == SoloOrder()
    ensures RunAll(n, order, InitMem(n, a, t)).arr == Nested(n, a)
  {
    var q, h, mem := n / 4, n / 4 / 2, InitMem(n, a, t);
    ShortSizes(n, q, h);
    var path := StartOfPath(n, q, a, t, order);
    StartUntold(n, q, a, t);
    ShortRanges(n, q, h);
    CutLengths(a[0..q], a[q..2 * q], h, 2 * h);
    CutLengths(a[2 * q..3 * q], a[3 * q..n], h, 2 * h);
    var left, right := HalvesCut(a[0..q], a[q..2 * q], h, 2 * h), HalvesCut(a[2 * q..3 * q], a[3 * q..n], h, 2 * h);
    PathResult(n, q, h, order, path, mem, left, right);
  }

  lemma PathResult(n: nat, q: nat, h: nat, order: seq<nat>, path: seq<Mem>, mem: Mem, left: seq<int>, right: seq<int>)
    requires n >= 8 && n % 8 < 6 && q == n / 4 && h == q / 2 && 1 <= h && 2 * h <= q && 4 * q <= n
    requires order == SoloOrder() && IsPath(n, order, path) && path[0] == mem && path[2] == mem && Lengths(mem, n)
    requires QuartersSorted(n, q, mem.arr) && Ranges(n, 2, 0, q, 2 * q, n, 4 * q)
    requires Untold(mem, 0, 0, q, 2 * q) && Untold(mem, 1, 2 * q, 3 * q, n) && Untold(mem, 2, 0, 2 * q, n)
    requires left == HalvesCut(mem.arr[0..q], mem.arr[q..2 * q], h, 2 * h) && |left| == 2 * q
    requires right == HalvesCut(mem.arr[2 * q..3 * q], mem.arr[3 * q..n], h, 2 * h) && |right| == n - 2 * q
    ensures path[13].arr == HalvesCut(left, right, q, 2 * q)
  {
    GroupsOn(n, order, path);
    SecondMade(n, q, h, order, path, mem, path[5], right);
    FourStay(n, q, order, path, mem, right);
    FirstMade(n, q, h, order, path, mem, path[5], path[10], left, right);
    WholeMade(n, q, order, path, mem, path[5], path[10], path[13], left, right);
  }
}
