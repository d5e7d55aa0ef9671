/** Any order of the 13 units that respects the dependences ends with the same sorted array, and two units that may run
    at the same time never touch what the other one writes.

    The three merges of the task are three groups: one split unit and two merge units each, which read one buffer and
    write the other. The plan of a group says what its source holds when the split starts, where the split falls, what
    the two merges will be told and what the target will hold in the end; the progress of a group says which of these
    things have come about, given which of its units have run. */
module MergeSortOrder {
  import opened SortLib
  import opened MergeLib
  import opened MergeSortUnits

  /** The units that must have run before unit `u`. */
  function Deps(u: nat): set<nat> {
    if u == 4 then {0, 1}
    else if u == 5 then {2, 3}
    else if u == 6 || u == 7 then {4}
    else if u == 8 || u == 9 then {5}
    else if u == 10 then {6, 7, 8, 9}
    else if u == 11 || u == 12 then {10}
    else {}
  }

  ghost predicate Closed(ran: set<nat>) {
    forall u :: u in ran ==> u < UNITS && Deps(u) <= ran
  }

  // ---------------------------------------------------------------- storing into a range

  lemma StoreGives(s: seq<int>, at: nat, v: seq<int>)
    requires at + |v| <= |s|
    ensures Store(s, at, v)[at..at + |v|] == v
  {
  }

  lemma StoreKeeps(s: seq<int>, at: nat, v: seq<int>, lo: nat, hi: nat)
    requires at + |v| <= |s| && lo <= hi <= |s| && (hi <= at || at + |v| <= lo)
    ensures Store(s, at, v)[lo..hi] == s[lo..hi]
  {
  }

  // ---------------------------------------------------------------- one group in its target range

  /** The parts of the target range that the units of a group have written so far: the splitting element at k, the
      lower merge before it, the upper merge behind it. */
  ghost predicate Slots(d: seq<int>, b: nat, k: nat, n: nat, v: int, lower: seq<int>, upper: seq<int>,
                        split: bool, low: bool, up: bool)
  {
    var holds :=
      && b <= k < n <= |d| && b + |lower| == k && k + 1 + |upper| == n
      && (split ==> d[k] == v)
      && (low ==> d[b..k] == lower)
      && (up ==> d[k + 1..n] == upper);
    holds
  }

  lemma SlotsWrite(d: seq<int>, b: nat, k: nat, n: nat, v: int, lower: seq<int>, upper: seq<int>,
                   split: bool, low: bool, up: bool)
    requires Slots(d, b, k, n, v, lower, upper, split, low, up)
    ensures Slots(Store(d, k, [v]), b, k, n, v, lower, upper, true, low, up)
    ensures Slots(Store(d, b, lower), b, k, n, v, lower, upper, split, true, up)
    ensures Slots(Store(d, k + 1, upper), b, k, n, v, lower, upper, split, low, true)
  {
    StoreKeeps(d, k, [v], b, k);
    StoreKeeps(d, k, [v], k + 1, n);
    StoreGives(d, b, lower);
    StoreKeeps(d, b, lower, k + 1, n);
    StoreGives(d, k + 1, upper);
    StoreKeeps(d, k + 1, upper, b, k);
  }

  lemma SlotsElsewhere(d: seq<int>, b: nat, k: nat, n: nat, v: int, lower: seq<int>, upper: seq<int>,
                       split: bool, low: bool, up: bool, at: nat, w: seq<int>)
    requires Slots(d, b, k, n, v, lower, upper, split, low, up)
    requires at + |w| <= |d| && (at + |w| <= b || n <= at)
    ensures Slots(Store(d, at, w), b, k, n, v, lower, upper, split, low, up)
  {
    StoreKeeps(d, at, w, b, k);
    StoreKeeps(d, at, w, k + 1, n);
  }

  lemma SlotsFull(d: seq<int>, b: nat, k: nat, n: nat, v: int, lower: seq<int>, upper: seq<int>)
    requires Slots(d, b, k, n, v, lower, upper, true, true, true)
    ensures d[b..n] == lower + [v] + upper
  {
    assert d[b..n] == d[b..k] + [d[k]] + d[k + 1..n];
  }

  // ---------------------------------------------------------------- the effect of a group's units, on its two ranges

  /** The source buffer holds the two ranges: `x` from b to p, `y` from p to n. */
  ghost predicate Holds(src: seq<int>, b: nat, p: nat, n: nat, x: seq<int>, y: seq<int>) {
    var holds := b < p < n <= |src| && src[b..p] == x && src[p..n] == y;
    holds
  }

  ghost predicate Lengths(mem: Mem, n: nat) {
    var holds :=
      && |mem.arr| == n && |mem.tmp| == n
      && |mem.high2| == UNITS && |mem.low2| == UNITS && |mem.dest| == UNITS;
    holds
  }

  lemma FirstMiddle(src: seq<int>, b: nat, s: nat, p: nat, n: nat, x: seq<int>, y: seq<int>)
    requires Holds(src, b, p, n, x, y) && b < s < p
    ensures src[s] == x[s - b]
  {
    assert src[s] == src[b..p][s - b];
  }

  /** The slices that the two merges read are the parts of the two ranges. */
  lemma LowSlices(src: seq<int>, b: nat, s: nat, p: nat, n: nat, r: nat, x: seq<int>, y: seq<int>)
    requires Holds(src, b, p, n, x, y) && b < s < p && r <= n - p
    ensures Slice(src, b, s - 1) == x[..s - b] && Slice(src, p, p + r - 1) == y[..r]
  {
    SubSlice(src, b, p, 0, s - b);
    SubSlice(src, p, n, 0, r);
  }

  lemma UpSlices(src: seq<int>, b: nat, s: nat, p: nat, n: nat, r: nat, x: seq<int>, y: seq<int>)
    requires Holds(src, b, p, n, x, y) && b < s < p && r <= n - p
    ensures Slice(src, s + 1, p - 1) == x[s - b + 1..] && Slice(src, p + r, n - 1) == y[r..]
  {
    SubSlice(src, b, p, s - b + 1, p - b);
    SubSlice(src, p, n, r, n - p);
  }

  // ---------------------------------------------------------------- what one group is to do, and how far it is

  /** The first range goes from b to p and is split at s, the second from p to n; r of its elements go below `v`. */
  datatype Plan = Plan(b: nat, s: nat, p: nat, n: nat, r: nat, v: int, lower: seq<int>, upper: seq<int>)

  ghost predicate Sound(plan: Plan) {
    var holds :=
      && plan.b < plan.s < plan.p < plan.n && plan.r <= plan.n - plan.p
      && |plan.lower| == plan.s + plan.r - plan.b && |plan.upper| == plan.n - plan.s - plan.r - 1;
    holds
  }

  ghost predicate Params(plan: Plan, g: nat, mem: Mem, split: bool)
    requires g < 3 && |mem.high2| == UNITS && |mem.low2| == UNITS && |mem.dest| == UNITS
  {
    var holds :=
      && mem.low2[LowUnit(g)] == plan.p && mem.dest[LowUnit(g)] == plan.b && mem.high2[UpUnit(g)] == plan.n - 1
      && (split ==> mem.high2[LowUnit(g)] == plan.p + plan.r - 1 && mem.low2[UpUnit(g)] == plan.p + plan.r &&
                    mem.dest[UpUnit(g)] == plan.s + plan.r + 1);
    holds
  }

  ghost predicate Progress(plan: Plan, g: nat, mem: Mem, split: bool, low: bool, up: bool)
    requires g < 3 && |mem.high2| == UNITS && |mem.low2| == UNITS && |mem.dest| == UNITS
  {
    var holds :=
      && Sound(plan) && Params(plan, g, mem, split)
      && Slots(Target(mem, g), plan.b, plan.s + plan.r, plan.n, plan.v, plan.lower, plan.upper, split, low, up);
    holds
  }

  /** Between the two memories only the target of group `g`, inside its own range, and the parameters of its merges
      have changed. */
  ghost predicate Updated(g: nat, mem: Mem, mem': Mem, at: nat, w: seq<int>)
    requires g < 3 && |mem.high2| == UNITS && |mem.low2| == UNITS && |mem.dest| == UNITS
  {
    var holds :=
      && |mem'.high2| == UNITS && |mem'.low2| == UNITS && |mem'.dest| == UNITS
      && Source(mem', g) == Source(mem, g) && Target(mem', g) == Store(Target(mem, g), at, w)
      && (forall u :: 0 <= u < UNITS && u != LowUnit(g) ==> mem'.high2[u] == mem.high2[u])
      && (forall u :: 0 <= u < UNITS && u != UpUnit(g) ==> mem'.low2[u] == mem.low2[u] && mem'.dest[u] == mem.dest[u]);
    holds
  }

  lemma HandingUpdates(g: nat, mem: Mem, at: nat, v: int, split2: int)
    requires g < 3 && Lengths(mem, |mem.arr|)
    ensures var mem' := Handing(g, SetTarget(mem, g, Store(Target(mem, g), at, [v])), split2, at + 1);
            && Updated(g, mem, mem', at, [v]) && Lengths(mem', |mem.arr|)
            && mem'.high2[LowUnit(g)] == split2 && mem'.low2[UpUnit(g)] == split2 + 1 && mem'.dest[UpUnit(g)] == at + 1
  {
  }

  lemma SplitStored(plan: Plan, g: nat, mem: Mem, mem': Mem)
    requires g < 3 && Lengths(mem, |mem.arr|) && Progress(plan, g, mem, false, false, false)
    requires Updated(g, mem, mem', plan.s + plan.r, [plan.v]) && mem'.high2[LowUnit(g)] == plan.p + plan.r - 1
    requires mem'.low2[UpUnit(g)] == plan.p + plan.r && mem'.dest[UpUnit(g)] == plan.s + plan.r + 1
    ensures Progress(plan, g, mem', true, false, false)
  {
    SlotsWrite(Target(mem, g), plan.b, plan.s + plan.r, plan.n, plan.v, plan.lower, plan.upper, false, false, false);
  }

  lemma SplitReads(plan: Plan, g: nat, mem: Mem, x: seq<int>, y: seq<int>)
    requires Sound(plan) && Holds(Source(mem, g), plan.b, plan.p, plan.n, x, y) && plan.v == x[plan.s - plan.b]
    ensures Source(mem, g)[plan.s] == plan.v && Source(mem, g)[plan.p..plan.n] == y
  {
    FirstMiddle(Source(mem, g), plan.b, plan.s, plan.p, plan.n, x, y);
  }

  /** A unit of group `g` has stored `w` at its place in the target, and the group is that much further. */
  ghost predicate Advanced(plan: Plan, g: nat, mem: Mem, mem': Mem, at: nat, w: seq<int>,
                           split: bool, low: bool, up: bool)
    requires g < 3 && |mem.high2| == UNITS && |mem.low2| == UNITS && |mem.dest| == UNITS
  {
    var holds :=
      && Updated(g, mem, mem', at, w) && Lengths(mem', |mem.arr|) && plan.b <= at && at + |w| <= plan.n
      && Progress(plan, g, mem', split, low, up);
    holds
  }

  /** What the split unit has changed: one element of the target, and what it hands over. */
  ghost predicate Handed(plan: Plan, g: nat, mem: Mem, mem': Mem)
    requires g < 3 && |mem.high2| == UNITS && |mem.low2| == UNITS && |mem.dest| == UNITS
  {
    var holds :=
      && Lengths(mem', |mem.arr|) && Updated(g, mem, mem', plan.s + plan.r, [plan.v])
      && mem'.high2[LowUnit(g)] == plan.p + plan.r - 1 && mem'.low2[UpUnit(g)] == plan.p + plan.r
      && mem'.dest[UpUnit(g)] == plan.s + plan.r + 1;
    holds
  }

  /** The splitting element is stored, and these parameters are handed over. */
  ghost predicate Splitting(g: nat, mem: Mem, mem': Mem, v: int, at: nat, split2: int)
    requires g < 3 && |mem.high2| == UNITS && |mem.low2| == UNITS && |mem.dest| == UNITS
  {
    var holds := mem' == Handing(g, SetTarget(mem, g, Store(Target(mem, g), at, [v])), split2, at + 1);
    holds
  }

  lemma SplitIsHanding(g: nat, mem: Mem, mem': Mem, s: nat, p: nat, m: nat, v: int, r: nat, at: nat, split2: int)
    requires g < 3 && Lengths(mem, |mem.arr|) && s < p < m <= |Source(mem, g)| && v == Source(mem, g)[s]
    requires r == SplitCount(v, Source(mem, g)[p..m]) && at == s + r && split2 == p + r - 1
    requires mem' == SplitGroup(g, mem, s, p, m)
    ensures Splitting(g, mem, mem', v, at, split2)
  {
  }

  lemma HandedBy(plan: Plan, g: nat, mem: Mem, mem': Mem, at: nat, split2: int)
    requires g < 3 && Lengths(mem, |mem.arr|) && at == plan.s + plan.r && split2 == plan.p + plan.r - 1
    requires Splitting(g, mem, mem', plan.v, at, split2)
    ensures Handed(plan, g, mem, mem')
  {
    HandingUpdates(g, mem, at, plan.v, split2);
  }

  lemma SplitStep(plan: Plan, g: nat, mem: Mem, mem': Mem, x: seq<int>, y: seq<int>, low: bool, up: bool)
    returns (at: nat, w: seq<int>)
    requires g < 3 && Lengths(mem, |mem.arr|) && Progress(plan, g, mem, false, false, false)
    requires Holds(Source(mem, g), plan.b, plan.p, plan.n, x, y)
    requires plan.v == x[plan.s - plan.b] && plan.r == SplitCount(plan.v, y)
    requires mem' == SplitGroup(g, mem, plan.s, plan.p, plan.n)
    requires !low && !up
    ensures Advanced(plan, g, mem, mem', at, w, true, low, up)
  {
    at, w := plan.s + plan.r, [plan.v];
    var split2 := plan.p + plan.r - 1;
    SplitReads(plan, g, mem, x, y);
    SplitIsHanding(g, mem, mem', plan.s, plan.p, plan.n, plan.v, plan.r, at, split2);
    HandedBy(plan, g, mem, mem', at, split2);
    SplitStored(plan, g, mem, mem');
  }

  lemma PlaceUpdates(g: nat, mem: Mem, at: nat, v: seq<int>, w: seq<int>)
    requires g < 3 && Lengths(mem, |mem.arr|)
    ensures Updated(g, mem, Place(g, mem, at, v, w), at, Merge(v, w)) && Lengths(Place(g, mem, at, v, w), |mem.arr|)
    ensures Place(g, mem, at, v, w).high2 == mem.high2 && Place(g, mem, at, v, w).low2 == mem.low2
    ensures Place(g, mem, at, v, w).dest == mem.dest
  {
  }

  lemma LowReads(plan: Plan, g: nat, mem: Mem, x: seq<int>, y: seq<int>)
    requires g < 3 && Lengths(mem, |mem.arr|) && Sound(plan) && Params(plan, g, mem, true)
    requires Holds(Source(mem, g), plan.b, plan.p, plan.n, x, y)
    ensures mem.dest[LowUnit(g)] == plan.b && Slice(Source(mem, g), plan.b, plan.s - 1) == x[..plan.s - plan.b]
    ensures Slice(Source(mem, g), mem.low2[LowUnit(g)], mem.high2[LowUnit(g)]) == y[..plan.r]
  {
    LowSlices(Source(mem, g), plan.b, plan.s, plan.p, plan.n, plan.r, x, y);
  }

  lemma UpReads(plan: Plan, g: nat, mem: Mem, x: seq<int>, y: seq<int>)
    requires g < 3 && Lengths(mem, |mem.arr|) && Sound(plan) && Params(plan, g, mem, true)
    requires Holds(Source(mem, g), plan.b, plan.p, plan.n, x, y)
    ensures mem.dest[UpUnit(g)] == plan.s + plan.r + 1
    ensures Slice(Source(mem, g), plan.s + 1, plan.p - 1) == x[plan.s - plan.b + 1..]
    ensures Slice(Source(mem, g), mem.low2[UpUnit(g)], mem.high2[UpUnit(g)]) == y[plan.r..]
  {
    UpSlices(Source(mem, g), plan.b, plan.s, plan.p, plan.n, plan.r, x, y);
  }

  lemma LowStored(plan: Plan, g: nat, mem: Mem, mem': Mem, up: bool)
    requires g < 3 && Lengths(mem, |mem.arr|) && Progress(plan, g, mem, true, false, up)
    requires Updated(g, mem, mem', plan.b, plan.lower)
    requires mem'.high2 == mem.high2 && mem'.low2 == mem.low2 && mem'.dest == mem.dest
    ensures Progress(plan, g, mem', true, true, up)
  {
    SlotsWrite(Target(mem, g), plan.b, plan.s + plan.r, plan.n, plan.v, plan.lower, plan.upper, true, false, up);
  }

  lemma UpStored(plan: Plan, g: nat, mem: Mem, mem': Mem, low: bool)
    requires g < 3 && Lengths(mem, |mem.arr|) && Progress(plan, g, mem, true, low, false)
    requires Updated(g, mem, mem', plan.s + plan.r + 1, plan.upper)
    requires mem'.high2 == mem.high2 && mem'.low2 == mem.low2 && mem'.dest == mem.dest
    ensures Progress(plan, g, mem', true, low, true)
  {
    SlotsWrite(Target(mem, g), plan.b, plan.s + plan.r, plan.n, plan.v, plan.lower, plan.upper, true, low, false);
  }

  lemma LowStep(plan: Plan, g: nat, mem: Mem, mem': Mem, x: seq<int>, y: seq<int>, up: bool)
    requires g < 3 && Lengths(mem, |mem.arr|) && Progress(plan, g, mem, true, false, up)
    requires Holds(Source(mem, g), plan.b, plan.p, plan.n, x, y)
    requires plan.lower == Merge(x[..plan.s - plan.b], y[..plan.r])
    requires mem' == MergeGroup(g, mem, LowUnit(g), plan.b, plan.s - 1)
    ensures Advanced(plan, g, mem, mem', plan.b, plan.lower, true, true, up)
  {
    LowReads(plan, g, mem, x, y);
    PlaceUpdates(g, mem, plan.b, x[..plan.s - plan.b], y[..plan.r]);
    LowStored(plan, g, mem, mem', up);
  }

  lemma UpPlaced(plan: Plan, g: nat, mem: Mem, mem': Mem, low: bool, at: nat, v: seq<int>, w: seq<int>)
    requires g < 3 && Lengths(mem, |mem.arr|) && Progress(plan, g, mem, true, low, false)
    requires at == plan.s + plan.r + 1 && plan.upper == Merge(v, w) && mem' == Place(g, mem, at, v, w)
    ensures Advanced(plan, g, mem, mem', at, plan.upper, true, low, true)
  {
    PlaceUpdates(g, mem, at, v, w);
    UpStored(plan, g, mem, mem', low);
  }

  lemma GroupPlaces(g: nat, mem: Mem, u: nat, low1: int, high1: int, at: int, v: seq<int>, w: seq<int>)
    requires u < UNITS && |mem.high2| == UNITS && |mem.low2| == UNITS && |mem.dest| == UNITS && at == mem.dest[u]
    requires v == Slice(Source(mem, g), low1, high1) && w == Slice(Source(mem, g), mem.low2[u], mem.high2[u])
    ensures MergeGroup(g, mem, u, low1, high1) == Place(g, mem, at, v, w)
  {
  }

  lemma UpIsPlaced(plan: Plan, g: nat, mem: Mem, x: seq<int>, y: seq<int>, at: nat, v: seq<int>, w: seq<int>)
    requires g < 3 && Lengths(mem, |mem.arr|) && Sound(plan) && Params(plan, g, mem, true)
    requires Holds(Source(mem, g), plan.b, plan.p, plan.n, x, y)
    requires at == plan.s + plan.r + 1 && v == x[plan.s - plan.b + 1..] && w == y[plan.r..]
    ensures MergeGroup(g, mem, UpUnit(g), plan.s + 1, plan.p - 1) == Place(g, mem, at, v, w)
  {
    UpReads(plan, g, mem, x, y);
    GroupPlaces(g, mem, UpUnit(g), plan.s + 1, plan.p - 1, at, v, w);
  }

  lemma UpStep(plan: Plan, g: nat, mem: Mem, mem': Mem, x: seq<int>, y: seq<int>, low: bool, at: nat)
    requires g < 3 && Lengths(mem, |mem.arr|) && Progress(plan, g, mem, true, low, false)
    requires Holds(Source(mem, g), plan.b, plan.p, plan.n, x, y) && at == plan.s + plan.r + 1
    requires plan.upper == Merge(x[plan.s - plan.b + 1..], y[plan.r..])
    requires mem' == MergeGroup(g, mem, UpUnit(g), plan.s + 1, plan.p - 1)
    ensures Advanced(plan, g, mem, mem', at, plan.upper, true, low, true)
  {
    var v, w := x[plan.s - plan.b + 1..], y[plan.r..];
    UpIsPlaced(plan, g, mem, x, y, at, v, w);
    UpPlaced(plan, g, mem, mem', low, at, v, w);
  }

  /** Work of group `g` does not disturb another group: other buffer, or another range of the same one. */
  lemma OthersKeep(plan: Plan, plan': Plan, g: nat, g': nat, mem: Mem, mem': Mem, at: nat, w: seq<int>,
                   split: bool, low: bool, up: bool)
    requires g < 3 && g' < 3 && g != g' && Lengths(mem, |mem.arr|) && Updated(g, mem, mem', at, w)
    requires plan.b <= at && at + |w| <= plan.n <= |mem.arr| && |mem'.arr| == |mem.arr|
    requires g < 2 && g' < 2 ==> plan.n <= plan'.b || plan'.n <= plan.b
    requires Progress(plan', g', mem, split, low, up)
    ensures Progress(plan', g', mem', split, low, up)
  {
    if g < 2 && g' < 2 {
      SlotsElsewhere(Target(mem, g'), plan'.b, plan'.s + plan'.r, plan'.n, plan'.v, plan'.lower, plan'.upper,
                     split, low, up, at, w);
    }
  }

  // ---------------------------------------------------------------- everything the input determines, computed once

  /** The quarters of the input, raw and sorted, with where they start and how long they are; the two ranges of each
      group, and the plan for merging them. */
  datatype Layout = Layout(size: nat, quarter: nat, start: seq<nat>, raw: seq<seq<int>>, sorted: seq<seq<int>>,
                           first: seq<seq<int>>, second: seq<seq<int>>, plans: seq<Plan>)

  ghost predicate Counts(lay: Layout) {
    var holds :=
      && |lay.start| == 4 && |lay.raw| == 4 && |lay.sorted| == 4
      && |lay.first| == 3 && |lay.second| == 3 && |lay.plans| == 3;
    holds
  }

  /** Where quarters and groups lie: the quarters follow each other, groups 0 and 1 cover two quarters each, group 2
      merges what they leave. */
  ghost predicate Placed(lay: Layout)
    requires Counts(lay)
  {
    var p0, p1, p2 := lay.plans[0], lay.plans[1], lay.plans[2];
    var holds :=
      && p0.b == lay.start[0] == 0 && p0.p == lay.start[1] && p0.n == lay.start[2]
      && p1.b == lay.start[2] && p1.p == lay.start[3] && p1.n == lay.size
      && lay.start[0] + lay.quarter == lay.start[1] && lay.start[1] + lay.quarter == lay.start[2]
      && lay.start[2] + lay.quarter == lay.start[3] && lay.start[3] + lay.quarter == lay.size
      && p2.b == 0 && p2.p == lay.start[2] && p2.n == lay.size
      && Sound(p0) && Sound(p1) && Sound(p2);
    holds
  }

  ghost predicate Sizes(lay: Layout)
    requires Counts(lay)
  {
    forall i :: 0 <= i < 4 ==> |lay.raw[i]| == lay.quarter && |lay.sorted[i]| == lay.quarter
  }

  ghost predicate Shape(lay: Layout) {
    var holds := Counts(lay) && Placed(lay) && Sizes(lay);
    holds
  }

  /** The plan says how the two ranges merge. */
  ghost predicate PlanMeans(plan: Plan, x: seq<int>, y: seq<int>) {
    var holds :=
      && plan.b < plan.s < plan.p < plan.n && |x| == plan.p - plan.b && |y| == plan.n - plan.p
      && plan.v == x[plan.s - plan.b] && plan.r == SplitCount(plan.v, y) && plan.r <= |y|
      && plan.lower == Merge(x[..plan.s - plan.b], y[..plan.r])
      && plan.upper == Merge(x[plan.s - plan.b + 1..], y[plan.r..]);
    holds
  }

  function Outcome(plan: Plan): seq<int> {
    plan.lower + [plan.v] + plan.upper
  }

  /** Groups 0 and 1 merge sorted quarters, group 2 merges what they leave. */
  ghost predicate Chained(lay: Layout)
    requires Counts(lay)
  {
    var holds :=
      && lay.first[0] == lay.sorted[0] && lay.second[0] == lay.sorted[1]
      && lay.first[1] == lay.sorted[2] && lay.second[1] == lay.sorted[3]
      && lay.first[2] == Outcome(lay.plans[0]) && lay.second[2] == Outcome(lay.plans[1]);
    holds
  }

  ghost predicate SortedQuarters(lay: Layout)
    requires Counts(lay)
  {
    forall i :: 0 <= i < 4 ==> lay.sorted[i] == SortOf(lay.raw[i])
  }

  ghost predicate PlansMean(lay: Layout)
    requires Counts(lay)
  {
    forall g :: 0 <= g < 3 ==> PlanMeans(lay.plans[g], lay.first[g], lay.second[g])
  }

  ghost predicate Means(lay: Layout)
    requires Counts(lay)
  {
    var holds := Chained(lay) && SortedQuarters(lay) && PlansMean(lay);
    holds
  }

  /** The plan for merging `x` and `y`, which lie in b..p and p..n. */
  function PlanFor(b: nat, s: nat, p: nat, n: nat, x: seq<int>, y: seq<int>): Plan
    requires b < s < p < n && |x| == p - b && |y| == n - p
  {
    var r := SplitCount(x[s - b], y);
    Plan(b, s, p, n, r, x[s - b], Merge(x[..s - b], y[..r]), Merge(x[s - b + 1..], y[r..]))
  }

  lemma PlanForSound(b: nat, s: nat, p: nat, n: nat, x: seq<int>, y: seq<int>)
    requires b < s < p < n && |x| == p - b && |y| == n - p
    ensures Sound(PlanFor(b, s, p, n, x, y)) && PlanMeans(PlanFor(b, s, p, n, x, y), x, y)
    ensures |Outcome(PlanFor(b, s, p, n, x, y))| == n - b
  {
    var r := SplitCount(x[s - b], y);
    HalvesSizes(x, y, s - b, r);
    PlanForFields(b, s, p, n, x, y, r);
  }

  lemma PlanForFields(b: nat, s: nat, p: nat, n: nat, x: seq<int>, y: seq<int>, r: nat)
    requires b < s < p < n && |x| == p - b && |y| == n - p && r == SplitCount(x[s - b], y)
    ensures PlanFor(b, s, p, n, x, y) ==
            Plan(b, s, p, n, r, x[s - b], Merge(x[..s - b], y[..r]), Merge(x[s - b + 1..], y[r..]))
  {
  }

  lemma HalvesSizes(x: seq<int>, y: seq<int>, c: nat, r: nat)
    requires c < |x| && r <= |y|
    ensures |Merge(x[..c], y[..r])| == c + r && |Merge(x[c + 1..], y[r..])| == |x| - c - 1 + |y| - r
  {
    MergeElements(x[..c], y[..r]);
    MergeElements(x[c + 1..], y[r..]);
  }

  /** Merging sorted ranges to plan gives a sorted range with the same elements. */
  lemma PlanSorts(plan: Plan, x: seq<int>, y: seq<int>)
    requires PlanMeans(plan, x, y) && Sorted(x) && Sorted(y)
    ensures Sorted(Outcome(plan)) && multiset(Outcome(plan)) == multiset(x) + multiset(y)
  {
    SplitCountSplits(plan.v, y);
    MergeHalvesSorts(x, y, plan.s - plan.b, plan.r);
    assert Outcome(plan) == MergeHalves(x, y, plan.s - plan.b, plan.r);
  }

  lemma PlanAt(b: nat, s: nat, p: nat, n: nat, x: seq<int>, y: seq<int>) returns (plan: Plan)
    requires b < s < p < n && |x| == p - b && |y| == n - p
    ensures plan.b == b && plan.s == s && plan.p == p && plan.n == n
    ensures Sound(plan) && PlanMeans(plan, x, y) && |Outcome(plan)| == n - b
  {
    plan := PlanFor(b, s, p, n, x, y);
    PlanForSound(b, s, p, n, x, y);
  }

  /** The layout is that of input `a` of size 8 * e. */
  ghost predicate About(e: nat, a: seq<int>, lay: Layout)
    requires Counts(lay) && |a| == 8 * e
  {
    var holds :=
      && lay.size == 8 * e && lay.quarter == 2 * e
      && (forall i :: 0 <= i < 4 ==> lay.start[i] == Start(e, i) && lay.raw[i] == Quarter(e, a, i))
      && lay.plans[0].s == e && lay.plans[1].s == 5 * e && lay.plans[2].s == 2 * e;
    holds
  }

  lemma LayoutOf(e: nat, a: seq<int>) returns (lay: Layout)
    requires e >= 1 && |a| == 8 * e
    ensures Shape(lay) && Means(lay) && About(e, a, lay)
  {
    var sorted := seq(4, i requires 0 <= i < 4 => SortOf(Quarter(e, a, i)));
    var p0 := PlanAt(0, e, 2 * e, 4 * e, sorted[0], sorted[1]);
    var p1 := PlanAt(4 * e, 5 * e, 6 * e, 8 * e, sorted[2], sorted[3]);
    var p2 := PlanAt(0, 2 * e, 4 * e, 8 * e, Outcome(p0), Outcome(p1));
    lay := Assemble(e, a, sorted, p0, p1, p2);
  }

  function StartsOf(e: nat): seq<nat> {
    [0, 2 * e, 4 * e, 6 * e]
  }

  function RawOf(e: nat, a: seq<int>): seq<seq<int>>
    requires |a| == 8 * e
  {
    [Quarter(e, a, 0), Quarter(e, a, 1), Quarter(e, a, 2), Quarter(e, a, 3)]
  }

  lemma Assemble(e: nat, a: seq<int>, sorted: seq<seq<int>>, p0: Plan, p1: Plan, p2: Plan) returns (lay: Layout)
    requires e >= 1 && |a| == 8 * e && |sorted| == 4
    requires forall i :: 0 <= i < 4 ==> sorted[i] == SortOf(Quarter(e, a, i))
    requires PlanMeans(p0, sorted[0], sorted[1]) && PlanMeans(p1, sorted[2], sorted[3])
    requires PlanMeans(p2, Outcome(p0), Outcome(p1)) && Sound(p0) && Sound(p1) && Sound(p2)
    requires p0.b == 0 && p0.s == e && p0.p == 2 * e && p0.n == 4 * e
    requires p1.b == 4 * e && p1.s == 5 * e && p1.p == 6 * e && p1.n == 8 * e
    requires p2.b == 0 && p2.s == 2 * e && p2.p == 4 * e && p2.n == 8 * e
    ensures Shape(lay) && Means(lay) && About(e, a, lay)
  {
    lay := Layout(8 * e, 2 * e, StartsOf(e), RawOf(e, a), sorted,
                  [sorted[0], sorted[2], Outcome(p0)], [sorted[1], sorted[3], Outcome(p1)], [p0, p1, p2]);
    Assembled(e, a, lay, p0, p1, p2);
  }

  lemma Assembled(e: nat, a: seq<int>, lay: Layout, p0: Plan, p1: Plan, p2: Plan)
    requires e >= 1 && |a| == 8 * e && Counts(lay) && lay.size == 8 * e && lay.quarter == 2 * e
    requires lay.start == [0, 2 * e, 4 * e, 6 * e] && lay.plans == [p0, p1, p2] && Chained(lay)
    requires forall i :: 0 <= i < 4 ==> lay.raw[i] == Quarter(e, a, i) && lay.sorted[i] == SortOf(Quarter(e, a, i))
    requires PlanMeans(p0, lay.first[0], lay.second[0]) && PlanMeans(p1, lay.first[1], lay.second[1])
    requires PlanMeans(p2, lay.first[2], lay.second[2]) && Sound(p0) && Sound(p1) && Sound(p2)
    requires p0.b == 0 && p0.s == e && p0.p == 2 * e && p0.n == 4 * e
    requires p1.b == 4 * e && p1.s == 5 * e && p1.p == 6 * e && p1.n == 8 * e
    requires p2.b == 0 && p2.s == 2 * e && p2.p == 4 * e && p2.n == 8 * e
    ensures Shape(lay) && Means(lay) && About(e, a, lay)
  {
    AllMean(lay, p0, p1, p2);
    SizesAre(e, a, lay);
    PlacedAre(e, lay, p0, p1, p2);
    AboutIs(e, a, lay);
  }

  lemma AboutIs(e: nat, a: seq<int>, lay: Layout)
    requires Counts(lay) && |a| == 8 * e && lay.size == 8 * e && lay.quarter == 2 * e
    requires lay.start == [0, 2 * e, 4 * e, 6 * e] && forall i :: 0 <= i < 4 ==> lay.raw[i] == Quarter(e, a, i)
    requires lay.plans[0].s == e && lay.plans[1].s == 5 * e && lay.plans[2].s == 2 * e
    ensures About(e, a, lay)
  {
  }

  lemma PlacedAre(e: nat, lay: Layout, p0: Plan, p1: Plan, p2: Plan)
    requires Counts(lay) && lay.plans[0] == p0 && lay.plans[1] == p1 && lay.plans[2] == p2
    requires lay.size == 8 * e && lay.quarter == 2 * e
    requires lay.start[0] == 0 && lay.start[1] == 2 * e && lay.start[2] == 4 * e && lay.start[3] == 6 * e
    requires p0.b == 0 && p0.p == 2 * e && p0.n == 4 * e && p1.b == 4 * e && p1.p == 6 * e && p1.n == 8 * e
    requires p2.b == 0 && p2.p == 4 * e && p2.n == 8 * e && Sound(p0) && Sound(p1) && Sound(p2)
    ensures Placed(lay)
  {
  }

  lemma AllMean(lay: Layout, p0: Plan, p1: Plan, p2: Plan)
    requires Counts(lay) && lay.plans == [p0, p1, p2]
    requires PlanMeans(p0, lay.first[0], lay.second[0]) && PlanMeans(p1, lay.first[1], lay.second[1])
    requires PlanMeans(p2, lay.first[2], lay.second[2])
    ensures PlansMean(lay)
  {
    forall g | 0 <= g < 3
      ensures PlanMeans(lay.plans[g], lay.first[g], lay.second[g])
    {
      if g == 0 {
      } else if g == 1 {
      } else {
      }
    }
  }

  lemma SizesAre(e: nat, a: seq<int>, lay: Layout)
    requires Counts(lay) && |a| == 8 * e && lay.quarter == 2 * e
    requires forall i :: 0 <= i < 4 ==> lay.raw[i] == Quarter(e, a, i) && lay.sorted[i] == SortOf(Quarter(e, a, i))
    ensures Sizes(lay) && SortedQuarters(lay)
  {
  }

  lemma HalfSorts(lay: Layout, g: nat, i: nat)
    requires Shape(lay) && Means(lay) && ((g == 0 && i == 0) || (g == 1 && i == 2))
    ensures Sorted(Outcome(lay.plans[g]))
    ensures multiset(Outcome(lay.plans[g])) == multiset(lay.raw[i]) + multiset(lay.raw[i + 1])
  {
    SortOfSorts(lay.raw[i]);
    SortOfSorts(lay.raw[i + 1]);
    assert lay.sorted[i] == SortOf(lay.raw[i]) && lay.sorted[i + 1] == SortOf(lay.raw[i + 1]);
    assert PlanMeans(lay.plans[g], lay.first[g], lay.second[g]);
    PlanSorts(lay.plans[g], lay.first[g], lay.second[g]);
  }

  /** What the last group leaves is the sorted arrangement of the input. */
  lemma OutcomeSorts(e: nat, a: seq<int>, lay: Layout)
    requires |a| == 8 * e && Shape(lay) && Means(lay) && About(e, a, lay)
    ensures Sorted(Outcome(lay.plans[2])) && multiset(Outcome(lay.plans[2])) == multiset(a)
  {
    HalfSorts(lay, 0, 0);
    HalfSorts(lay, 1, 2);
    assert PlanMeans(lay.plans[2], lay.first[2], lay.second[2]);
    PlanSorts(lay.plans[2], lay.first[2], lay.second[2]);
    QuartersJoin(e, a);
    RawAre(e, a, lay);
  }

  lemma RawAre(e: nat, a: seq<int>, lay: Layout)
    requires |a| == 8 * e && Counts(lay) && About(e, a, lay)
    ensures lay.raw[0] == Quarter(e, a, 0) && lay.raw[1] == Quarter(e, a, 1)
    ensures lay.raw[2] == Quarter(e, a, 2) && lay.raw[3] == Quarter(e, a, 3)
  {
  }

  // ---------------------------------------------------------------- the invariant of all units

  ghost predicate QuarterIs(lay: Layout, arr: seq<int>, i: nat, s: seq<int>)
    requires Counts(lay) && i < 4
  {
    lay.start[i] + lay.quarter <= |arr| && arr[lay.start[i]..lay.start[i] + lay.quarter] == s
  }

  /** Until group 2 starts to overwrite `arr`, each quarter is as in the input or sorted. */
  ghost predicate Quarters(lay: Layout, arr: seq<int>, ran: set<nat>)
    requires Counts(lay)
  {
    forall i: nat :: i < 4 ==> QuarterIs(lay, arr, i, Expected(lay, ran, i))
  }

  function Expected(lay: Layout, ran: set<nat>, i: nat): seq<int>
    requires i < |lay.raw| && i < |lay.sorted|
  {
    if i in ran then lay.sorted[i] else lay.raw[i]
  }

  ghost predicate GroupInv(lay: Layout, g: nat, mem: Mem, ran: set<nat>)
    requires g < 3 && |lay.plans| == 3 && |mem.high2| == UNITS && |mem.low2| == UNITS && |mem.dest| == UNITS
  {
    var holds := Progress(lay.plans[g], g, mem, SplitUnit(g) in ran, LowUnit(g) in ran, UpUnit(g) in ran);
    holds
  }

  ghost predicate Inv(lay: Layout, mem: Mem, ran: set<nat>) {
    var holds :=
      && Shape(lay) && Lengths(mem, lay.size) && Closed(ran)
      && (10 !in ran ==> Quarters(lay, mem.arr, ran))
      && GroupInv(lay, 0, mem, ran) && GroupInv(lay, 1, mem, ran) && GroupInv(lay, 2, mem, ran);
    holds
  }

  lemma ParamsInit(e: nat, a: seq<int>, t: seq<int>, lay: Layout)
    requires Shape(lay) && |a| == 8 * e && About(e, a, lay)
    ensures Params(lay.plans[0], 0, InitMem(8 * e, a, t), false) && Params(lay.plans[1], 1, InitMem(8 * e, a, t), false)
    ensures Params(lay.plans[2], 2, InitMem(8 * e, a, t), false)
  {
    InitInEighths(e, a, t);
  }

  lemma InitInv(e: nat, a: seq<int>, t: seq<int>, lay: Layout)
    requires Shape(lay) && |a| == 8 * e && |t| == 8 * e && About(e, a, lay)
    ensures Inv(lay, InitMem(8 * e, a, t), {})
  {
    ParamsInit(e, a, t, lay);
    assert Quarters(lay, a, {});
  }

  // ---------------------------------------------------------------- a group's source is ready when its split may run

  ghost predicate Ready(lay: Layout, g: nat, mem: Mem)
    requires g < 3 && Counts(lay)
  {
    var holds :=
      Holds(Source(mem, g), lay.plans[g].b, lay.plans[g].p, lay.plans[g].n, lay.first[g], lay.second[g]);
    holds
  }

  lemma ArrReady(lay: Layout, g: nat, mem: Mem, ran: set<nat>)
    requires Shape(lay) && Chained(lay) && Lengths(mem, lay.size) && Quarters(lay, mem.arr, ran) && g < 2
    requires if g == 0 then {0, 1} <= ran else {2, 3} <= ran
    ensures Ready(lay, g, mem)
  {
    if g == 0 {
      assert QuarterIs(lay, mem.arr, 0, Expected(lay, ran, 0)) && QuarterIs(lay, mem.arr, 1, Expected(lay, ran, 1));
    } else {
      assert QuarterIs(lay, mem.arr, 2, Expected(lay, ran, 2)) && QuarterIs(lay, mem.arr, 3, Expected(lay, ran, 3));
    }
  }

  lemma GroupFinished(plan: Plan, g: nat, mem: Mem)
    requires g < 3 && Lengths(mem, |mem.arr|) && Progress(plan, g, mem, true, true, true)
    ensures plan.b < plan.n <= |Target(mem, g)| && Target(mem, g)[plan.b..plan.n] == Outcome(plan)
  {
    SlotsFull(Target(mem, g), plan.b, plan.s + plan.r, plan.n, plan.v, plan.lower, plan.upper);
  }

  lemma TmpReady(lay: Layout, mem: Mem, ran: set<nat>)
    requires Shape(lay) && Chained(lay) && Lengths(mem, lay.size)
    requires GroupInv(lay, 0, mem, ran) && GroupInv(lay, 1, mem, ran)
    requires 4 in ran && 5 in ran && 6 in ran && 7 in ran && 8 in ran && 9 in ran
    ensures Ready(lay, 2, mem)
  {
    GroupFinished(lay.plans[0], 0, mem);
    GroupFinished(lay.plans[1], 1, mem);
  }

  lemma BothHalvesRan(ran: set<nat>)
    requires Closed(ran) && Deps(10) <= ran
    ensures 4 in ran && 5 in ran && 6 in ran && 7 in ran && 8 in ran && 9 in ran
  {
    assert 6 in ran && 7 in ran && 8 in ran && 9 in ran;
    assert Deps(6) == {4} && Deps(8) == {5};
  }

  lemma SourceReady(lay: Layout, g: nat, mem: Mem, ran: set<nat>)
    requires Inv(lay, mem, ran) && Chained(lay) && g < 3 && Deps(SplitUnit(g)) <= ran && (g < 2 ==> 10 !in ran)
    ensures Ready(lay, g, mem)
  {
    if g == 0 {
      ArrReady(lay, 0, mem, ran);
    } else if g == 1 {
      ArrReady(lay, 1, mem, ran);
    } else {
      BothHalvesRan(ran);
      TmpReady(lay, mem, ran);
    }
  }
}
