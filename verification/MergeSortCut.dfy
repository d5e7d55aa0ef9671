/** What a group of the merge sort makes of its two ranges when the search of its split unit stops short.

    For sizes that are not divisible by 8 the two fourths that a split searches are not the whole second range. The
    three units of a group still fit together, in the plan of `MergeSortOrder` with another split, and the outcome is
    the same nested merge; but elements behind the end of the search end up in the upper half whatever they are. */
module MergeSortCut {
  import opened MergeLib
  import opened MergeSortUnits
  import opened MergeSortOrder

  // ---------------------------------------------------------------- a search that stops short

  /** The halves merged after a search through the first `k` elements of `y` only. */
  function HalvesCut(x: seq<int>, y: seq<int>, c: nat, k: nat): seq<int>
    requires c < |x| && 0 < k <= |y|
  {
    MergeHalves(x, y, c, SplitCount(x[c], y[..k]))
  }

  lemma {:induction false} CountAll(val: int, y: seq<int>)
    requires y != [] && AtMost(y, val - 1)
    ensures SplitCount(val, y) == |y|
  {
    if |y| > 1 {
      CountAll(val, y[|y| / 2..]);
    }
  }

  lemma {:induction false} CountNone(val: int, y: seq<int>)
    requires y != [] && AtLeast(y, val + 1)
    ensures SplitCount(val, y) == 0
  {
    if |y| > 1 {
      CountNone(val, y[..|y| / 2]);
    }
  }

  /** Smaller elements behind the end of the search stay behind the splitting element. */
  lemma CutMisses(x: seq<int>, y: seq<int>, c: nat, k: nat)
    requires c < |x| && 0 < k < |y| && AtLeast(x, 1) && AtMost(y, 0)
    ensures var out := HalvesCut(x, y, c, k); |out| == |x| + |y| && out[c + k] >= 1 && out[c + k + 1] <= 0
  {
    CountAll(x[c], y[..k]);
    var lower, upper := Merge(x[..c], y[..k]), Merge(x[c + 1..], y[k..]);
    MergeElements(x[..c], y[..k]);
    MergeElements(x[c + 1..], y[k..]);
    assert upper[0] == y[k];
    assert HalvesCut(x, y, c, k) == lower + [x[c]] + upper;
  }

  lemma {:induction false} MergeApart(x: seq<int>, y: seq<int>, v: int)
    requires AtMost(x, v - 1) && AtLeast(y, v)
    ensures Merge(x, y) == x + y
  {
    if x != [] && y != [] {
      MergeApart(x[1..], y, v);
      assert x == [x[0]] + x[1..];
    }
  }

  /** Ranges that are in order already stay as they are, sorted or not. */
  lemma CutApart(x: seq<int>, y: seq<int>, c: nat, k: nat, v: int)
    requires c < |x| && 0 < k <= |y| && AtMost(x, v - 1) && AtLeast(y, v)
    ensures HalvesCut(x, y, c, k) == x + y
  {
    CountNone(x[c], y[..k]);
    assert y[..0] == [] && y[0..] == y;
    assert Merge(x[..c], y[..0]) == x[..c];
    MergeApart(x[c + 1..], y, v);
    assert x == x[..c] + [x[c]] + x[c + 1..];
  }

  lemma CutBounds(x: seq<int>, y: seq<int>, c: nat, k: nat, v: int)
    requires c < |x| && 0 < k <= |y|
    ensures var out := HalvesCut(x, y, c, k);
            && |out| == |x| + |y| && (AtLeast(x, v) && AtLeast(y, v) ==> AtLeast(out, v))
            && (AtMost(x, v) && AtMost(y, v) ==> AtMost(out, v))
  {
    var r := SplitCount(x[c], y[..k]);
    MergeHalvesElements(x, y, c, r);
    var out := MergeHalves(x, y, c, r);
    BoundsOfPermutation(out, x, y, v);
  }

  // ---------------------------------------------------------------- the three units of a group, one after the other

  /** The plan of a group whose split searches positions p to m. */
  function CutPlan(b: nat, s: nat, p: nat, n: nat, m: nat, x: seq<int>, y: seq<int>): Plan
    requires b < s < p < m <= n && |x| == p - b && |y| == n - p
  {
    var r := SplitCount(x[s - b], y[..m - p]);
    Plan(b, s, p, n, r, x[s - b], Merge(x[..s - b], y[..r]), Merge(x[s - b + 1..], y[r..]))
  }

  lemma CutPlanSound(b: nat, s: nat, p: nat, n: nat, m: nat, x: seq<int>, y: seq<int>)
    requires b < s < p < m <= n && |x| == p - b && |y| == n - p
    ensures var plan := CutPlan(b, s, p, n, m, x, y); Sound(plan) && Outcome(plan) == HalvesCut(x, y, s - b, m - p)
  {
    var plan := CutPlan(b, s, p, n, m, x, y);
    MergeElements(x[..s - b], y[..plan.r]);
    MergeElements(x[s - b + 1..], y[plan.r..]);
  }

  /** What a merge unit has done. */
  ghost predicate Joined(g: Group, mem: Mem, mem': Mem, u: nat, low1: int, high1: int) {
    var holds := u < UNITS && mem' == MergeGroup(g, mem, u, low1, high1);
    holds
  }

  /** Where the group starts: the parameters that the constructor wrote, and the two ranges in the source. */
  ghost predicate Starts(plan: Plan, g: nat, mem: Mem, x: seq<int>, y: seq<int>, m: nat)
    requires g < 3 && |mem.high2| == UNITS && |mem.low2| == UNITS && |mem.dest| == UNITS
  {
    var holds :=
      && plan.b < plan.s < plan.p < m <= plan.n && |x| == plan.p - plan.b && |y| == plan.n - plan.p
      && plan == CutPlan(plan.b, plan.s, plan.p, plan.n, m, x, y)
      && Holds(Source(mem, g), plan.b, plan.p, plan.n, x, y) && Params(plan, g, mem, false)
      && plan.n <= |Target(mem, g)|;
    holds
  }

  /** Nothing outside the range of the group and the parameters of its merges has changed. */
  ghost predicate OutsideKept(plan: Plan, g: nat, mem: Mem, mem': Mem)
    requires g < 3 && |mem.high2| == UNITS && |mem.low2| == UNITS && |mem.dest| == UNITS
  {
    var holds :=
      && |mem'.high2| == UNITS && |mem'.low2| == UNITS && |mem'.dest| == UNITS
      && Source(mem', g) == Source(mem, g) && |Target(mem', g)| == |Target(mem, g)|
      && (forall i :: 0 <= i < |Target(mem, g)| && !(plan.b <= i < plan.n) ==> Target(mem', g)[i] == Target(mem, g)[i])
      && (forall u :: 0 <= u < UNITS && u != LowUnit(g) ==> mem'.high2[u] == mem.high2[u])
      && (forall u :: 0 <= u < UNITS && u != UpUnit(g) ==> mem'.low2[u] == mem.low2[u] && mem'.dest[u] == mem.dest[u]);
    holds
  }

  lemma AdvancedKeeps(plan: Plan, g: nat, mem: Mem, mem': Mem, at: nat, w: seq<int>, split: bool, low: bool, up: bool)
    requires g < 3 && Lengths(mem, |mem.arr|) && Advanced(plan, g, mem, mem', at, w, split, low, up)
    ensures OutsideKept(plan, g, mem, mem')
  {
  }

  lemma KeptTwice(plan: Plan, g: nat, mem: Mem, mid: Mem, mem': Mem)
    requires g < 3 && |mem.high2| == UNITS && |mem.low2| == UNITS && |mem.dest| == UNITS
    requires OutsideKept(plan, g, mem, mid) && OutsideKept(plan, g, mid, mem')
    ensures OutsideKept(plan, g, mem, mem')
  {
  }

  /** How far the group is: the split alone, with the lower merge, with both merges. */
  ghost predicate SplitDone(plan: Plan, g: nat, mem: Mem, mem': Mem)
    requires g < 3 && |mem.high2| == UNITS && |mem.low2| == UNITS && |mem.dest| == UNITS
  {
    var holds :=
      Lengths(mem', |mem'.arr|) && OutsideKept(plan, g, mem, mem') && Progress(plan, g, mem', true, false, false);
    holds
  }

  ghost predicate LowDone(plan: Plan, g: nat, mem: Mem, mem': Mem)
    requires g < 3 && |mem.high2| == UNITS && |mem.low2| == UNITS && |mem.dest| == UNITS
  {
    var holds :=
      Lengths(mem', |mem'.arr|) && OutsideKept(plan, g, mem, mem') && Progress(plan, g, mem', true, true, false);
    holds
  }

  ghost predicate BothDone(plan: Plan, g: nat, mem: Mem, mem': Mem)
    requires g < 3 && |mem.high2| == UNITS && |mem.low2| == UNITS && |mem.dest| == UNITS
  {
    var holds :=
      Lengths(mem', |mem'.arr|) && OutsideKept(plan, g, mem, mem') && Progress(plan, g, mem', true, true, true);
    holds
  }

  lemma StartProgress(plan: Plan, g: nat, mem: Mem, x: seq<int>, y: seq<int>, m: nat)
    requires g < 3 && Lengths(mem, |mem.arr|) && Starts(plan, g, mem, x, y, m)
    ensures Progress(plan, g, mem, false, false, false)
  {
    CutPlanSound(plan.b, plan.s, plan.p, plan.n, m, x, y);
  }

  lemma CutSearches(plan: Plan, src: seq<int>, x: seq<int>, y: seq<int>, m: nat)
    requires plan.b < plan.s < plan.p < m <= plan.n && |x| == plan.p - plan.b && |y| == plan.n - plan.p
    requires plan == CutPlan(plan.b, plan.s, plan.p, plan.n, m, x, y) && Holds(src, plan.b, plan.p, plan.n, x, y)
    ensures m <= |src| && src[plan.s] == plan.v && SplitCount(plan.v, src[plan.p..m]) == plan.r
  {
    FirstMiddle(src, plan.b, plan.s, plan.p, plan.n, x, y);
    SubSlice(src, plan.p, plan.n, 0, m - plan.p);
  }

  lemma CutHands(plan: Plan, g: nat, mem: Mem, mem': Mem, x: seq<int>, y: seq<int>, m: nat, at: nat, split2: int)
    requires g < 3 && Lengths(mem, |mem.arr|) && Starts(plan, g, mem, x, y, m)
    requires mem' == SplitGroup(g, mem, plan.s, plan.p, m) && at == plan.s + plan.r && split2 == plan.p + plan.r - 1
    ensures Handed(plan, g, mem, mem')
  {
    CutSearches(plan, Source(mem, g), x, y, m);
    SplitIsHanding(g, mem, mem', plan.s, plan.p, m, plan.v, plan.r, at, split2);
    HandedBy(plan, g, mem, mem', at, split2);
  }

  lemma HandedKeeps(plan: Plan, g: nat, mem: Mem, mem': Mem)
    requires g < 3 && Lengths(mem, |mem.arr|) && Sound(plan) && Handed(plan, g, mem, mem')
    ensures OutsideKept(plan, g, mem, mem')
  {
  }

  lemma SplitStage(plan: Plan, g: nat, mem: Mem, mem': Mem, x: seq<int>, y: seq<int>, m: nat)
    requires g < 3 && Lengths(mem, |mem.arr|) && Starts(plan, g, mem, x, y, m)
    requires mem' == SplitGroup(g, mem, plan.s, plan.p, m)
    ensures SplitDone(plan, g, mem, mem')
  {
    StartProgress(plan, g, mem, x, y, m);
    CutHands(plan, g, mem, mem', x, y, m, plan.s + plan.r, plan.p + plan.r - 1);
    HandedKeeps(plan, g, mem, mem');
    SplitStored(plan, g, mem, mem');
  }

  lemma LowStage(plan: Plan, g: nat, mem: Mem, mid: Mem, mem': Mem, x: seq<int>, y: seq<int>, m: nat)
    requires g < 3 && Lengths(mem, |mem.arr|) && Starts(plan, g, mem, x, y, m) && SplitDone(plan, g, mem, mid)
    requires Joined(g, mid, mem', LowUnit(g), plan.b, plan.s - 1)
    ensures LowDone(plan, g, mem, mem')
  {
    LowStep(plan, g, mid, mem', x, y, false);
    AdvancedKeeps(plan, g, mid, mem', plan.b, plan.lower, true, true, false);
    KeptTwice(plan, g, mem, mid, mem');
  }

  lemma UpMerges(plan: Plan, g: nat, mem: Mem, mid: Mem, mem': Mem, x: seq<int>, y: seq<int>, m: nat, at: nat)
    requires g < 3 && Lengths(mem, |mem.arr|) && Starts(plan, g, mem, x, y, m) && LowDone(plan, g, mem, mid)
    requires Joined(g, mid, mem', UpUnit(g), plan.s + 1, plan.p - 1) && at == plan.s + plan.r + 1
    ensures Advanced(plan, g, mid, mem', at, plan.upper, true, true, true)
  {
    UpStep(plan, g, mid, mem', x, y, true, at);
  }

  lemma UpStage(plan: Plan, g: nat, mem: Mem, mid: Mem, mem': Mem, x: seq<int>, y: seq<int>, m: nat, at: nat)
    requires g < 3 && Lengths(mem, |mem.arr|) && Starts(plan, g, mem, x, y, m) && LowDone(plan, g, mem, mid)
    requires Joined(g, mid, mem', UpUnit(g), plan.s + 1, plan.p - 1) && at == plan.s + plan.r + 1
    ensures BothDone(plan, g, mem, mem')
  {
    UpMerges(plan, g, mem, mid, mem', x, y, m, at);
    AdvancedKeeps(plan, g, mid, mem', at, plan.upper, true, true, true);
    KeptTwice(plan, g, mem, mid, mem');
  }

  /** After its three units the target of the group holds the outcome between b and n. */
  ghost predicate GroupDone(plan: Plan, g: nat, mem: Mem, mem': Mem)
    requires g < 3 && |mem.high2| == UNITS && |mem.low2| == UNITS && |mem.dest| == UNITS
  {
    var holds :=
      && Lengths(mem', |mem'.arr|) && OutsideKept(plan, g, mem, mem')
      && plan.b <= plan.n <= |Target(mem', g)| && Target(mem', g)[plan.b..plan.n] == Outcome(plan);
    holds
  }

  lemma StageDone(plan: Plan, g: nat, mem: Mem, mem': Mem)
    requires g < 3 && Lengths(mem, |mem.arr|) && BothDone(plan, g, mem, mem')
    ensures GroupDone(plan, g, mem, mem')
  {
    GroupFinished(plan, g, mem');
  }
}
