/** Each unit keeps the invariant; when all have run, `arr` is the sorted arrangement of the input.

    A unit that may run finds its inputs where the plan of its group says: a quarter still holds its part of the input,
    a split finds both ranges sorted, and a merge finds the parameters that the split of its group has handed to it.
    Running it advances its own group by one step and leaves the other groups alone, because they work in the other
    buffer or in another range of the same one. The plans are functions of the input, so any order of the units arrives
    at the same contents. */
module MergeSortSteps {
  import opened SortLib
  import opened MergeLib
  import opened MergeSortUnits
  import opened MergeSortOrder

  /** The units that wait, directly or not, for a unit that has not run have not run either. */
  lemma NotYet(ran: set<nat>)
    requires Closed(ran)
    ensures 10 in ran ==> {0, 1, 2, 3, 4, 5, 6, 7, 8, 9} <= ran
    ensures 4 in ran ==> {0, 1} <= ran
    ensures 5 in ran ==> {2, 3} <= ran
    ensures 6 in ran || 7 in ran ==> 4 in ran
    ensures 8 in ran || 9 in ran ==> 5 in ran
    ensures 11 in ran || 12 in ran ==> 10 in ran
  {
    assert Deps(4) == {0, 1} && Deps(5) == {2, 3} && Deps(6) == {4} && Deps(7) == {4} && Deps(8) == {5}
        && Deps(9) == {5};
    assert Deps(10) == {6, 7, 8, 9} && Deps(11) == {10} && Deps(12) == {10};
    if 10 in ran {
      assert 6 in Deps(10) && 7 in Deps(10) && 8 in Deps(10) && 9 in Deps(10);
      assert 4 in Deps(6) && 5 in Deps(8);
      assert 0 in Deps(4) && 1 in Deps(4) && 2 in Deps(5) && 3 in Deps(5);
    }
    assert 4 in Deps(6) && 4 in Deps(7) && 5 in Deps(8) && 5 in Deps(9) && 10 in Deps(11) && 10 in Deps(12);
  }

  lemma QuarterComesFirst(ran: set<nat>, i: nat)
    requires Closed(ran) && i < 4 && i !in ran
    ensures 10 !in ran && 11 !in ran && 12 !in ran
  {
    NotYet(ran);
  }

  lemma SplitComesFirst(ran: set<nat>, g: nat)
    requires Closed(ran) && g < 3 && SplitUnit(g) !in ran
    ensures LowUnit(g) !in ran && UpUnit(g) !in ran
  {
    NotYet(ran);
  }

  lemma HalvesComeFirst(ran: set<nat>, g: nat, u: nat)
    requires Closed(ran) && g < 2 && InGroup(u, g) && u !in ran
    ensures 10 !in ran
  {
    NotYet(ran);
  }

  ghost predicate InGroup(u: nat, g: nat)
    requires g < 3
  {
    u == SplitUnit(g) || u == LowUnit(g) || u == UpUnit(g)
  }

  /** A unit may run: it has not, and the ones it waits for have. */
  ghost predicate Runnable(ran: set<nat>, u: nat) {
    var holds := u < UNITS && u !in ran && Deps(u) <= ran;
    holds
  }

  lemma ClosedAdd(ran: set<nat>, u: nat)
    requires Closed(ran) && u < UNITS && Deps(u) <= ran
    ensures Closed(ran + {u})
  {
  }

  // ---------------------------------------------------------------- sorting a quarter

  lemma StoredApart(s: seq<int>, at: nat, v: seq<int>, at': nat, n: nat)
    requires at + |v| <= |s| && at' + n <= |s| && |v| == n && (at + n <= at' || at' + n <= at)
    ensures Store(s, at, v)[at'..at' + n] == s[at'..at' + n]
  {
  }

  lemma StartsApart(lay: Layout, i: nat, j: nat)
    requires Shape(lay) && i < 4 && j < 4 && i != j
    ensures lay.start[i] + lay.quarter <= lay.start[j] || lay.start[j] + lay.quarter <= lay.start[i]
    ensures lay.start[i] + lay.quarter <= lay.size && lay.start[j] + lay.quarter <= lay.size
  {
  }

  lemma QuarterStored(lay: Layout, arr: seq<int>, arr': seq<int>, ran: set<nat>, i: nat, j: nat)
    requires Shape(lay) && |arr| == lay.size && i < 4 && j < 4 && i !in ran && Quarters(lay, arr, ran)
    requires arr' == Store(arr, lay.start[i], lay.sorted[i])
    ensures QuarterIs(lay, arr', j, Expected(lay, ran + {i}, j))
  {
    assert QuarterIs(lay, arr, j, Expected(lay, ran, j));
    assert QuarterIs(lay, arr, i, Expected(lay, ran, i));
    if i == j {
      StoreGives(arr, lay.start[i], lay.sorted[i]);
    } else {
      StartsApart(lay, i, j);
      StoredApart(arr, lay.start[i], lay.sorted[i], lay.start[j], lay.quarter);
    }
  }

  lemma QuartersKept(lay: Layout, arr: seq<int>, arr': seq<int>, ran: set<nat>, i: nat)
    requires Shape(lay) && |arr| == lay.size && i < 4 && i !in ran && Quarters(lay, arr, ran)
    requires arr' == Store(arr, lay.start[i], lay.sorted[i])
    ensures Quarters(lay, arr', ran + {i})
  {
    forall j: nat | j < 4
      ensures QuarterIs(lay, arr', j, Expected(lay, ran + {i}, j))
    {
      QuarterStored(lay, arr, arr', ran, i, j);
    }
  }

  /** Sorting a quarter does not touch `tmp`, nor anything a group has been told. */
  lemma QuarterGroup(lay: Layout, g: nat, mem: Mem, arr': seq<int>, ran: set<nat>, i: nat)
    requires |lay.plans| == 3 && g < 3 && i < 4 && Lengths(mem, |mem.arr|) && GroupInv(lay, g, mem, ran)
    requires |arr'| == |mem.arr| && (g == 2 ==> 10 !in ran && 11 !in ran && 12 !in ran)
    ensures Lengths(mem.(arr := arr'), |mem.arr|) && GroupInv(lay, g, mem.(arr := arr'), ran + {i})
  {
  }

  lemma RunQuarter(lay: Layout, mem: Mem, arr': seq<int>, ran: set<nat>, i: nat)
    requires Inv(lay, mem, ran) && i < 4 && i !in ran && arr' == Store(mem.arr, lay.start[i], lay.sorted[i])
    ensures Inv(lay, mem.(arr := arr'), ran + {i})
  {
    QuarterComesFirst(ran, i);
    ClosedAdd(ran, i);
    QuartersKept(lay, mem.arr, arr', ran, i);
    QuarterGroup(lay, 0, mem, arr', ran, i);
    QuarterGroup(lay, 1, mem, arr', ran, i);
    QuarterGroup(lay, 2, mem, arr', ran, i);
  }

  lemma SortIsAt(e: nat, i: nat, mem: Mem, at: nat, raw: seq<int>, sorted: seq<int>)
    requires i < 4 && at == Start(e, i) && e >= 1 && at + 2 * e <= |mem.arr| && mem.arr[at..at + 2 * e] == raw
    requires sorted == SortOf(raw)
    ensures RunUnit(8 * e, i, mem) == mem.(arr := Store(mem.arr, at, sorted))
  {
    QuartersInEighths(e, i);
    assert Slice(mem.arr, at, at + 2 * e - 1) == raw;
  }

  lemma QuarterStillRaw(lay: Layout, mem: Mem, ran: set<nat>, i: nat)
    requires Inv(lay, mem, ran) && i < 4 && i !in ran
    ensures Counts(lay) && QuarterIs(lay, mem.arr, i, lay.raw[i])
  {
    QuarterComesFirst(ran, i);
    assert QuarterIs(lay, mem.arr, i, Expected(lay, ran, i));
  }

  /** The quarter that the unit sorts still holds its part of the input. */
  lemma SortIs(e: nat, a: seq<int>, lay: Layout, mem: Mem, i: nat)
    requires Counts(lay) && SortedQuarters(lay) && |a| == 8 * e && About(e, a, lay) && i < 4 && e >= 1
    requires QuarterIs(lay, mem.arr, i, lay.raw[i])
    ensures RunUnit(8 * e, i, mem) == mem.(arr := Store(mem.arr, lay.start[i], lay.sorted[i]))
  {
    StartIs(e, a, lay, i);
    SortIsAt(e, i, mem, lay.start[i], lay.raw[i], lay.sorted[i]);
  }

  lemma StartIs(e: nat, a: seq<int>, lay: Layout, i: nat)
    requires Counts(lay) && |a| == 8 * e && About(e, a, lay) && i < 4
    ensures lay.start[i] == Start(e, i) && lay.quarter == 2 * e && lay.size == 8 * e
  {
  }

  // ---------------------------------------------------------------- the units of a group

  ghost predicate Meaning(lay: Layout) {
    var holds := Shape(lay) && Means(lay);
    holds
  }

  /** The layout is that of a task with input `a` of size 8 * e. */
  ghost predicate Task(e: nat, a: seq<int>, lay: Layout) {
    var holds := e >= 1 && |a| == 8 * e && Meaning(lay) && About(e, a, lay);
    holds
  }

  lemma GroupsApart(lay: Layout, g: nat, g': nat)
    requires Shape(lay) && g < 3 && g' < 3 && g != g'
    ensures lay.plans[g].n <= lay.size
    ensures g < 2 && g' < 2 ==> lay.plans[g].n <= lay.plans[g'].b || lay.plans[g'].n <= lay.plans[g].b
  {
  }

  lemma OtherGroup(lay: Layout, g: nat, g': nat, mem: Mem, mem': Mem, ran: set<nat>, u: nat, at: nat, w: seq<int>)
    requires Shape(lay) && Lengths(mem, lay.size) && Lengths(mem', lay.size) && g < 3 && g' < 3 && g != g'
    requires GroupInv(lay, g', mem, ran) && InGroup(u, g)
    requires Updated(g, mem, mem', at, w) && lay.plans[g].b <= at && at + |w| <= lay.plans[g].n
    ensures GroupInv(lay, g', mem', ran + {u})
  {
    GroupsApart(lay, g, g');
    OthersKeep(lay.plans[g], lay.plans[g'], g, g', mem, mem', at, w,
               SplitUnit(g') in ran, LowUnit(g') in ran, UpUnit(g') in ran);
  }

  /** A step that advances its own group keeps the whole invariant. */
  lemma GroupStep(lay: Layout, g: nat, mem: Mem, mem': Mem, ran: set<nat>, u: nat, at: nat, w: seq<int>)
    requires Inv(lay, mem, ran) && g < 3 && InGroup(u, g) && Runnable(ran, u)
    requires Lengths(mem', lay.size) && Updated(g, mem, mem', at, w)
    requires lay.plans[g].b <= at && at + |w| <= lay.plans[g].n && GroupInv(lay, g, mem', ran + {u})
    ensures Inv(lay, mem', ran + {u})
  {
    ClosedAdd(ran, u);
    QuartersOfGroupStep(lay, g, mem, mem', ran, u, at, w);
    if g == 0 {
      OtherGroup(lay, g, 1, mem, mem', ran, u, at, w);
      OtherGroup(lay, g, 2, mem, mem', ran, u, at, w);
    } else if g == 1 {
      OtherGroup(lay, g, 0, mem, mem', ran, u, at, w);
      OtherGroup(lay, g, 2, mem, mem', ran, u, at, w);
    } else {
      OtherGroup(lay, g, 0, mem, mem', ran, u, at, w);
      OtherGroup(lay, g, 1, mem, mem', ran, u, at, w);
    }
  }

  lemma QuartersOfGroupStep(lay: Layout, g: nat, mem: Mem, mem': Mem, ran: set<nat>, u: nat, at: nat, w: seq<int>)
    requires Inv(lay, mem, ran) && g < 3 && InGroup(u, g) && Runnable(ran, u)
    requires Updated(g, mem, mem', at, w)
    ensures 10 !in ran + {u} ==> Quarters(lay, mem'.arr, ran + {u})
  {
    if 10 !in ran + {u} {
      forall i: nat | i < 4
        ensures QuarterIs(lay, mem'.arr, i, Expected(lay, ran + {u}, i))
      {
        assert QuarterIs(lay, mem.arr, i, Expected(lay, ran, i));
      }
    }
  }

  /** The inputs of group `g` are in place and its plan is about them. */
  ghost predicate Set(lay: Layout, g: nat, mem: Mem, plan: Plan)
    requires g < 3 && Counts(lay)
  {
    var holds :=
      plan == lay.plans[g] && Sound(plan) && PlanMeans(plan, lay.first[g], lay.second[g]) && Ready(lay, g, mem);
    holds
  }

  lemma GroupAdvanced(lay: Layout, g: nat, mem: Mem, ran: set<nat>, u: nat, split: bool, low: bool, up: bool)
    requires g < 3 && |lay.plans| == 3 && Lengths(mem, |mem.arr|) && InGroup(u, g)
    requires split == (SplitUnit(g) in ran || u == SplitUnit(g)) && low == (LowUnit(g) in ran || u == LowUnit(g))
    requires up == (UpUnit(g) in ran || u == UpUnit(g))
    requires Progress(lay.plans[g], g, mem, split, low, up)
    ensures GroupInv(lay, g, mem, ran + {u})
  {
  }

  /** A unit that advances its own group keeps the whole invariant. */
  lemma RunGroup(lay: Layout, g: nat, plan: Plan, mem: Mem, mem': Mem, ran: set<nat>, u: nat, at: nat, w: seq<int>,
                 split: bool, low: bool, up: bool)
    requires g < |lay.plans| == 3 && plan == lay.plans[g]
    requires Inv(lay, mem, ran) && InGroup(u, g) && Runnable(ran, u)
    requires split == (SplitUnit(g) in ran || u == SplitUnit(g)) && low == (LowUnit(g) in ran || u == LowUnit(g))
    requires up == (UpUnit(g) in ran || u == UpUnit(g))
    requires Advanced(plan, g, mem, mem', at, w, split, low, up)
    ensures Inv(lay, mem', ran + {u})
  {
    GroupAdvanced(lay, g, mem', ran, u, split, low, up);
    GroupStep(lay, g, mem, mem', ran, u, at, w);
  }

  lemma DepsOfMerges(g: nat, ran: set<nat>)
    requires g < 3 && Closed(ran) && (Deps(LowUnit(g)) <= ran || Deps(UpUnit(g)) <= ran)
    ensures SplitUnit(g) in ran && Deps(SplitUnit(g)) <= ran
  {
    assert SplitUnit(g) in Deps(LowUnit(g)) && SplitUnit(g) in Deps(UpUnit(g));
  }

  /** Running a unit of group `g` finds its inputs in place. */
  lemma GroupReady(lay: Layout, g: nat, mem: Mem, ran: set<nat>, u: nat)
    requires Inv(lay, mem, ran) && Meaning(lay) && g < 3 && InGroup(u, g) && Runnable(ran, u)
    ensures Counts(lay) && Set(lay, g, mem, lay.plans[g]) && (u != SplitUnit(g) ==> SplitUnit(g) in ran)
  {
    if u != SplitUnit(g) {
      DepsOfMerges(g, ran);
    }
    if g < 2 {
      HalvesComeFirst(ran, g, u);
    }
    SourceReady(lay, g, mem, ran);
    PlanOfGroup(lay, g);
  }

  lemma GroupSoFar(lay: Layout, g: nat, mem: Mem, ran: set<nat>)
    requires Inv(lay, mem, ran) && g < 3
    ensures Lengths(mem, |mem.arr|) && lay.size == |mem.arr|
    ensures Progress(lay.plans[g], g, mem, SplitUnit(g) in ran, LowUnit(g) in ran, UpUnit(g) in ran)
  {
  }

  lemma PlanOfGroup(lay: Layout, g: nat)
    requires Shape(lay) && Means(lay) && g < 3
    ensures Sound(lay.plans[g]) && PlanMeans(lay.plans[g], lay.first[g], lay.second[g])
  {
    SoundOf(lay, g);
    MeansOf(lay, g);
  }

  lemma SoundOf(lay: Layout, g: nat)
    requires Counts(lay) && Placed(lay) && g < 3
    ensures Sound(lay.plans[g])
  {
    if g == 0 {
    } else if g == 1 {
    } else {
    }
  }

  lemma MeansOf(lay: Layout, g: nat)
    requires Counts(lay) && PlansMean(lay) && g < 3
    ensures PlanMeans(lay.plans[g], lay.first[g], lay.second[g])
  {
  }

  // ---------------------------------------------------------------- units by number

  /** The plan is that of group `g` in a task of size 8 * e. */
  ghost predicate Numbered(e: nat, g: nat, plan: Plan) {
    var holds := plan.b == Base(e, g) && plan.s == Pivot(e, g) && plan.p == Border(e, g) && plan.n == Bound(e, g);
    holds
  }

  lemma PlanNumbers(e: nat, a: seq<int>, lay: Layout, g: nat)
    requires Task(e, a, lay) && g < 3
    ensures |lay.plans| == 3 && e >= 1 && Numbered(e, g, lay.plans[g])
  {
    NumberedAs(e, lay, g, lay.plans[g]);
  }

  lemma NumberedAs(e: nat, lay: Layout, g: nat, plan: Plan)
    requires Counts(lay) && Placed(lay) && lay.size == 8 * e && lay.quarter == 2 * e && g < 3 && plan == lay.plans[g]
    requires lay.plans[0].s == e && lay.plans[1].s == 5 * e && lay.plans[2].s == 2 * e
    ensures Numbered(e, g, plan)
  {
  }

  lemma SplitJob(e: nat, g: nat, u: nat, plan: Plan, mem: Mem)
    requires Numbered(e, g, plan) && g < 3 && u == SplitUnit(g)
    ensures JobOf(8 * e, u) == Partition(g, plan.s, plan.p, plan.n)
    ensures RunUnit(8 * e, u, mem) == SplitGroup(g, mem, plan.s, plan.p, plan.n)
  {
    SplitInEighths(e, g, u, plan.s, plan.p, plan.n, mem);
  }

  lemma LowJob(e: nat, g: nat, u: nat, plan: Plan, mem: Mem)
    requires Numbered(e, g, plan) && g < 3 && u == LowUnit(g)
    ensures JobOf(8 * e, u) == Joining(g, u, plan.b, plan.s - 1)
    ensures RunUnit(8 * e, u, mem) == MergeGroup(g, mem, u, plan.b, plan.s - 1)
  {
    LowInEighths(e, g, u, plan.b, plan.s - 1, mem);
  }

  lemma UpJob(e: nat, g: nat, u: nat, plan: Plan, mem: Mem)
    requires Numbered(e, g, plan) && g < 3 && u == UpUnit(g)
    ensures JobOf(8 * e, u) == Joining(g, u, plan.s + 1, plan.p - 1)
    ensures RunUnit(8 * e, u, mem) == MergeGroup(g, mem, u, plan.s + 1, plan.p - 1)
  {
    UpInEighths(e, g, u, plan.s + 1, plan.p - 1, mem);
  }

  lemma RunSort(e: nat, a: seq<int>, lay: Layout, mem: Mem, ran: set<nat>, u: nat)
    requires Inv(lay, mem, ran) && Task(e, a, lay) && u < 4 && u !in ran
    ensures Inv(lay, RunUnit(8 * e, u, mem), ran + {u})
  {
    PlanNumbers(e, a, lay, 0);
    QuarterStillRaw(lay, mem, ran, u);
    SortIs(e, a, lay, mem, u);
    RunQuarter(lay, mem, Store(mem.arr, lay.start[u], lay.sorted[u]), ran, u);
  }

  lemma SplitAdvances(lay: Layout, g: nat, u: nat, mem: Mem, mem': Mem, plan: Plan, low: bool, up: bool)
    returns (at: nat, w: seq<int>)
    requires !low && !up && g < 3 && u < UNITS && u == SplitUnit(g) && Counts(lay) && Set(lay, g, mem, plan)
    requires Lengths(mem, |mem.arr|)
    requires Progress(plan, g, mem, false, false, false) && mem' == SplitGroup(g, mem, plan.s, plan.p, plan.n)
    ensures Advanced(plan, g, mem, mem', at, w, true, low, up)
  {
    at, w := SplitStep(plan, g, mem, mem', lay.first[g], lay.second[g], low, up);
  }

  lemma SplitBefore(lay: Layout, g: nat, mem: Mem, ran: set<nat>, plan: Plan)
    requires Inv(lay, mem, ran) && Meaning(lay) && g < |lay.plans| == 3 && Runnable(ran, SplitUnit(g))
    requires plan == lay.plans[g]
    ensures Counts(lay) && Set(lay, g, mem, plan) && Lengths(mem, |mem.arr|)
    ensures Progress(plan, g, mem, false, false, false)
    ensures LowUnit(g) !in ran && UpUnit(g) !in ran
  {
    GroupReady(lay, g, mem, ran, SplitUnit(g));
    GroupSoFar(lay, g, mem, ran);
    SplitComesFirst(ran, g);
  }

  lemma RunSplit(lay: Layout, g: nat, u: nat, mem: Mem, mem': Mem, ran: set<nat>, plan: Plan)
    requires g < 3 && u == SplitUnit(g) && Runnable(ran, u) && u < UNITS
    requires mem' == SplitGroup(g, mem, plan.s, plan.p, plan.n)
    requires Inv(lay, mem, ran) && |lay.plans| == 3 && Meaning(lay) && plan == lay.plans[g]
    ensures Inv(lay, mem', ran + {u})
  {
    SplitBefore(lay, g, mem, ran, plan);
    var at, w := SplitAdvances(lay, g, u, mem, mem', plan, LowUnit(g) in ran, UpUnit(g) in ran);
    RunGroup(lay, g, plan, mem, mem', ran, u, at, w, true, LowUnit(g) in ran, UpUnit(g) in ran);
  }

  lemma RunSplitUnit(e: nat, a: seq<int>, lay: Layout, g: nat, u: nat, mem: Mem, mem': Mem, ran: set<nat>)
    requires Inv(lay, mem, ran) && Task(e, a, lay) && g < 3 && u == SplitUnit(g) && Runnable(ran, u)
    requires u < UNITS && mem' == RunUnit(8 * e, u, mem)
    ensures Inv(lay, mem', ran + {u})
  {
    PlanNumbers(e, a, lay, g);
    var plan := lay.plans[g];
    SplitJob(e, g, u, plan, mem);
    RunSplit(lay, g, u, mem, mem', ran, plan);
  }

  lemma LowAdvances(lay: Layout, g: nat, u: nat, mem: Mem, mem': Mem, plan: Plan, up: bool)
    requires g < 3 && u < UNITS && u == LowUnit(g) && Counts(lay) && Set(lay, g, mem, plan) && Lengths(mem, |mem.arr|)
    requires Progress(plan, g, mem, true, false, up) && mem' == MergeGroup(g, mem, u, plan.b, plan.s - 1)
    ensures Advanced(plan, g, mem, mem', plan.b, plan.lower, true, true, up)
  {
    LowStep(plan, g, mem, mem', lay.first[g], lay.second[g], up);
  }

  lemma LowBefore(lay: Layout, g: nat, mem: Mem, ran: set<nat>, plan: Plan)
    requires Inv(lay, mem, ran) && Meaning(lay) && g < |lay.plans| == 3 && Runnable(ran, LowUnit(g))
    requires plan == lay.plans[g]
    ensures Counts(lay) && Set(lay, g, mem, plan) && Lengths(mem, |mem.arr|)
    ensures Progress(plan, g, mem, true, false, UpUnit(g) in ran)
    ensures SplitUnit(g) in ran
  {
    GroupReady(lay, g, mem, ran, LowUnit(g));
    GroupSoFar(lay, g, mem, ran);
  }

  lemma RunLow(lay: Layout, g: nat, u: nat, mem: Mem, mem': Mem, ran: set<nat>, plan: Plan)
    requires g < 3 && u == LowUnit(g) && Runnable(ran, u) && u < UNITS
    requires mem' == MergeGroup(g, mem, u, plan.b, plan.s - 1)
    requires Inv(lay, mem, ran) && |lay.plans| == 3 && Meaning(lay) && plan == lay.plans[g]
    ensures Inv(lay, mem', ran + {u})
  {
    LowBefore(lay, g, mem, ran, plan);
    LowAdvances(lay, g, u, mem, mem', plan, UpUnit(g) in ran);
    RunGroup(lay, g, plan, mem, mem', ran, u, plan.b, plan.lower, true, true, UpUnit(g) in ran);
  }

  lemma RunLowUnit(e: nat, a: seq<int>, lay: Layout, g: nat, u: nat, mem: Mem, mem': Mem, ran: set<nat>)
    requires Inv(lay, mem, ran) && Task(e, a, lay) && g < 3 && u == LowUnit(g) && Runnable(ran, u)
    requires u < UNITS && mem' == RunUnit(8 * e, u, mem)
    ensures Inv(lay, mem', ran + {u})
  {
    PlanNumbers(e, a, lay, g);
    var plan := lay.plans[g];
    LowJob(e, g, u, plan, mem);
    RunLow(lay, g, u, mem, mem', ran, plan);
  }

  lemma UpAdvances(lay: Layout, g: nat, u: nat, mem: Mem, mem': Mem, plan: Plan, low: bool, at: nat)
    requires g < 3 && u < UNITS && u == UpUnit(g) && Counts(lay) && Set(lay, g, mem, plan) && Lengths(mem, |mem.arr|)
    requires at == plan.s + plan.r + 1 && Progress(plan, g, mem, true, low, false)
    requires mem' == MergeGroup(g, mem, u, plan.s + 1, plan.p - 1)
    ensures Advanced(plan, g, mem, mem', at, plan.upper, true, low, true)
  {
    UpStep(plan, g, mem, mem', lay.first[g], lay.second[g], low, at);
  }

  lemma UpBefore(lay: Layout, g: nat, mem: Mem, ran: set<nat>, plan: Plan)
    requires Inv(lay, mem, ran) && Meaning(lay) && g < |lay.plans| == 3 && Runnable(ran, UpUnit(g))
    requires plan == lay.plans[g]
    ensures Counts(lay) && Set(lay, g, mem, plan) && Lengths(mem, |mem.arr|)
    ensures Progress(plan, g, mem, true, LowUnit(g) in ran, false)
    ensures SplitUnit(g) in ran
  {
    GroupReady(lay, g, mem, ran, UpUnit(g));
    GroupSoFar(lay, g, mem, ran);
  }

  lemma RunUp(lay: Layout, g: nat, u: nat, mem: Mem, mem': Mem, ran: set<nat>, plan: Plan)
    requires g < 3 && u == UpUnit(g) && Runnable(ran, u) && u < UNITS
    requires mem' == MergeGroup(g, mem, u, plan.s + 1, plan.p - 1)
    requires Inv(lay, mem, ran) && |lay.plans| == 3 && Meaning(lay) && plan == lay.plans[g]
    ensures Inv(lay, mem', ran + {u})
  {
    UpBefore(lay, g, mem, ran, plan);
    var at := plan.s + plan.r + 1;
    UpAdvances(lay, g, u, mem, mem', plan, LowUnit(g) in ran, at);
    RunGroup(lay, g, plan, mem, mem', ran, u, at, plan.upper, true, LowUnit(g) in ran, true);
  }

  lemma RunUpUnit(e: nat, a: seq<int>, lay: Layout, g: nat, u: nat, mem: Mem, mem': Mem, ran: set<nat>)
    requires Inv(lay, mem, ran) && Task(e, a, lay) && g < 3 && u == UpUnit(g) && Runnable(ran, u)
    requires u < UNITS && mem' == RunUnit(8 * e, u, mem)
    ensures Inv(lay, mem', ran + {u})
  {
    PlanNumbers(e, a, lay, g);
    var plan := lay.plans[g];
    UpJob(e, g, u, plan, mem);
    RunUp(lay, g, u, mem, mem', ran, plan);
  }

  /** Any unit whose dependences have run keeps the invariant. */
  lemma RunKeepsInv(e: nat, a: seq<int>, lay: Layout, mem: Mem, ran: set<nat>, u: nat)
    requires Inv(lay, mem, ran) && Task(e, a, lay) && Runnable(ran, u)
    ensures Inv(lay, RunUnit(8 * e, u, mem), ran + {u})
  {
    if u < 4 {
      RunSort(e, a, lay, mem, ran, u);
    } else if u == 4 {
      RunSplitUnit(e, a, lay, 0, u, mem, RunUnit(8 * e, u, mem), ran);
    } else if u == 5 {
      RunSplitUnit(e, a, lay, 1, u, mem, RunUnit(8 * e, u, mem), ran);
    } else if u == 6 {
      RunLowUnit(e, a, lay, 0, u, mem, RunUnit(8 * e, u, mem), ran);
    } else if u == 7 {
      RunUpUnit(e, a, lay, 0, u, mem, RunUnit(8 * e, u, mem), ran);
    } else if u == 8 {
      RunLowUnit(e, a, lay, 1, u, mem, RunUnit(8 * e, u, mem), ran);
    } else if u == 9 {
      RunUpUnit(e, a, lay, 1, u, mem, RunUnit(8 * e, u, mem), ran);
    } else if u == 10 {
      RunSplitUnit(e, a, lay, 2, u, mem, RunUnit(8 * e, u, mem), ran);
    } else if u == 11 {
      RunLowUnit(e, a, lay, 2, u, mem, RunUnit(8 * e, u, mem), ran);
    } else {
      RunUpUnit(e, a, lay, 2, u, mem, RunUnit(8 * e, u, mem), ran);
    }
  }

  // ---------------------------------------------------------------- all units

  ghost predicate AllUnits(ran: set<nat>) {
    forall u: nat :: u < UNITS ==> u in ran
  }

  /** When all units have run, `arr` is sorted and holds the elements of the input. */
  lemma AllRunSorts(e: nat, a: seq<int>, lay: Layout, mem: Mem, ran: set<nat>)
    requires Inv(lay, mem, ran) && Task(e, a, lay) && AllUnits(ran)
    ensures Sorted(mem.arr) && multiset(mem.arr) == multiset(a)
  {
    LastGroupDone(lay, mem, ran);
    OutcomeSorts(e, a, lay);
  }

  lemma LastGroupDone(lay: Layout, mem: Mem, ran: set<nat>)
    requires Inv(lay, mem, ran) && AllUnits(ran)
    ensures mem.arr == Outcome(lay.plans[2])
  {
    GroupFinished(lay.plans[2], 2, mem);
    assert mem.arr[0..lay.size] == mem.arr;
  }
}
