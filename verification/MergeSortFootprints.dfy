/** Units that may run at the same time do not disturb each other: neither writes what the other reads or writes, so
    running them together is the same as running them in either order.

    `Reads` and `Writes` give the footprint of a unit, which depends on the parameters it has been handed. That they
    are right is proved twice over: a unit changes nothing outside what it writes, and two memories that agree on what
    it reads agree afterwards on what it has written. Disjointness then makes two units commute. */
module MergeSortFootprints {
  import opened MergeLib
  import opened MergeSortUnits
  import opened MergeSortOrder
  import opened MergeSortSteps

  /** An element of one of the two buffers, or one of the three parameters of a merge unit. */
  datatype Loc = Arr(i: int) | Tmp(i: int) | High2(u: int) | Low2(u: int) | Dest(u: int)

  function Get(mem: Mem, l: Loc): int {
    match l
    case Arr(i) => if 0 <= i < |mem.arr| then mem.arr[i] else 0
    case Tmp(i) => if 0 <= i < |mem.tmp| then mem.tmp[i] else 0
    case High2(u) => if 0 <= u < |mem.high2| then mem.high2[u] else 0
    case Low2(u) => if 0 <= u < |mem.low2| then mem.low2[u] else 0
    case Dest(u) => if 0 <= u < |mem.dest| then mem.dest[u] else 0
  }

  ghost predicate Sized(mem: Mem, n: nat) {
    var holds :=
      && |mem.arr| == n && |mem.tmp| == n
      && |mem.high2| == UNITS && |mem.low2| == UNITS && |mem.dest| == UNITS;
    holds
  }

  /** Position of `l` in the source or target buffer of group `g`, if it is there. */
  ghost predicate InSource(l: Loc, g: nat, lo: int, hi: int) {
    if g == 2 then l.Tmp? && lo <= l.i < hi else l.Arr? && lo <= l.i < hi
  }

  ghost predicate InTarget(l: Loc, g: nat, lo: int, hi: int) {
    if g == 2 then l.Arr? && lo <= l.i < hi else l.Tmp? && lo <= l.i < hi
  }

  /** The number of elements from `low` to `high`, both included. */
  function Width(low: int, high: int): int {
    high - low + 1
  }

  ghost predicate Reads(job: Job, mem: Mem, l: Loc) {
    match job
    case Quicksort(low, high) => l.Arr? && low <= l.i <= high
    case Partition(g, s, p, n) => InSource(l, g, s, s + 1) || InSource(l, g, p, n)
    case Joining(g, u, low1, high1) =>
      || l == High2(u) || l == Low2(u) || l == Dest(u)
      || InSource(l, g, low1, high1 + 1)
      || InSource(l, g, Get(mem, Low2(u)), Get(mem, High2(u)) + 1)
  }

  ghost predicate Writes(job: Job, mem: Mem, l: Loc) {
    match job
    case Quicksort(low, high) => l.Arr? && low <= l.i <= high
    case Partition(g, s, p, n) =>
      || l == High2(LowUnit(g)) || l == Low2(UpUnit(g)) || l == Dest(UpUnit(g))
      || (s < p < n <= |Source(mem, g)| &&
          var at := s + SplitCount(Source(mem, g)[s], Source(mem, g)[p..n]); InTarget(l, g, at, at + 1))
    case Joining(g, u, low1, high1) =>
      var at := Get(mem, Dest(u));
      InTarget(l, g, at, at + Width(low1, high1) + Width(Get(mem, Low2(u)), Get(mem, High2(u))))
  }

  /** The ranges that the unit works on lie inside buffers of size `n`, and a split has something to search. */
  ghost predicate InBounds(job: Job, mem: Mem, n: nat) {
    var holds :=
      && Sized(mem, n)
      && match job
         case Quicksort(low, high) => 0 <= low <= high + 1 <= n
         case Partition(g, s, p, m) =>
           s < p < m <= n && 0 <= s + SplitCount(Source(mem, g)[s], Source(mem, g)[p..m]) < n
         case Joining(g, u, low1, high1) =>
           u < UNITS &&
           var at, low2, high2 := mem.dest[u], mem.low2[u], mem.high2[u];
           && 0 <= low1 <= high1 + 1 <= n && 0 <= low2 <= high2 + 1 <= n
           && 0 <= at && at + Width(low1, high1) + Width(low2, high2) <= n;
    holds
  }

  ghost predicate Agree(job: Job, mem: Mem, mem': Mem) {
    forall l :: Reads(job, mem, l) ==> Get(mem', l) == Get(mem, l)
  }

  // ---------------------------------------------------------------- frame: nothing else changes

  lemma StoreFrame(s: seq<int>, at: int, v: seq<int>, i: int)
    requires 0 <= i < |s| && (i < at || at + |v| <= i)
    ensures Store(s, at, v)[i] == s[i]
  {
  }

  lemma StoredAt(s: seq<int>, at: int, v: seq<int>, i: int)
    requires 0 <= at <= i < at + |v| <= |s|
    ensures Store(s, at, v)[i] == v[i - at]
  {
  }

  lemma SortLength(s: seq<int>)
    ensures |SortOf(s)| == |s|
  {
    SortOfSorts(s);
    assert |multiset(SortOf(s))| == |multiset(s)|;
  }

  lemma QuicksortFrame(low: int, high: int, mem: Mem, n: nat, l: Loc)
    requires Sized(mem, n) && 0 <= low <= high + 1 <= n && !(l.Arr? && low <= l.i <= high)
    ensures Get(SortRange(mem, low, high), l) == Get(mem, l) && Sized(SortRange(mem, low, high), n)
  {
    var raw := Slice(mem.arr, low, high);
    SortLength(raw);
    if l.Arr? && 0 <= l.i < n {
      StoreFrame(mem.arr, low, SortOf(raw), l.i);
    }
  }

  /** Storing `w` in the target of group `g` changes those positions only, to the elements of `w`. */
  lemma TargetFrame(g: Group, mem: Mem, n: nat, at: int, w: seq<int>, mem': Mem, l: Loc)
    requires Sized(mem, n) && mem' == SetTarget(mem, g, Store(Target(mem, g), at, w))
    ensures Sized(mem', n) && (!InTarget(l, g, at, at + |w|) ==> Get(mem', l) == Get(mem, l))
    ensures 0 <= at && at + |w| <= n && InTarget(l, g, at, at + |w|) ==> Get(mem', l) == w[l.i - at]
  {
    if (l.Arr? || l.Tmp?) && 0 <= l.i < n {
      if at <= l.i < at + |w| && 0 <= at && at + |w| <= n {
        StoredAt(Target(mem, g), at, w, l.i);
      } else if l.i < at || at + |w| <= l.i {
        StoreFrame(Target(mem, g), at, w, l.i);
      }
    }
  }

  lemma MergeLength(v: seq<int>, w: seq<int>)
    ensures |Merge(v, w)| == |v| + |w|
  {
    MergeElements(v, w);
    assert |multiset(Merge(v, w))| == |multiset(v)| + |multiset(w)|;
  }

  /** What unit `u` of group `g` stores, and where. */
  ghost predicate Joins(g: Group, u: nat, mem: Mem, low1: int, high1: int, at: int, v: seq<int>, w: seq<int>)
    requires u < UNITS && |mem.high2| == UNITS && |mem.low2| == UNITS && |mem.dest| == UNITS
  {
    var src := Source(mem, g);
    var holds :=
      at == mem.dest[u] && v == Slice(src, low1, high1) && w == Slice(src, mem.low2[u], mem.high2[u]);
    holds
  }

  lemma JoiningStores(g: Group, u: nat, mem: Mem, n: nat, low1: int, high1: int, at: int, v: seq<int>, w: seq<int>,
                      l: Loc)
    requires Sized(mem, n) && u < UNITS && Joins(g, u, mem, low1, high1, at, v, w)
    ensures var mem' := MergeGroup(g, mem, u, low1, high1);
            && Sized(mem', n) && (!InTarget(l, g, at, at + |v| + |w|) ==> Get(mem', l) == Get(mem, l))
            && (0 <= at && at + |v| + |w| <= n && InTarget(l, g, at, at + |v| + |w|) ==>
                  |Merge(v, w)| == |v| + |w| && Get(mem', l) == Merge(v, w)[l.i - at])
  {
    MergeLength(v, w);
    TargetFrame(g, mem, n, at, Merge(v, w), MergeGroup(g, mem, u, low1, high1), l);
  }

  lemma PartitionFrame(g: Group, mem: Mem, n: nat, s: nat, p: nat, m: nat, mid: Mem, mem': Mem, at: int, l: Loc)
    requires Sized(mem, n) && s < p < m <= n && at == s + SplitCount(Source(mem, g)[s], Source(mem, g)[p..m])
    requires mem' == SplitGroup(g, mem, s, p, m)
    requires mid == SetTarget(mem, g, Store(Target(mem, g), at, [Source(mem, g)[s]]))
    ensures Sized(mem', n)
    ensures l != High2(LowUnit(g)) && l != Low2(UpUnit(g)) && l != Dest(UpUnit(g)) ==> Get(mem', l) == Get(mid, l)
    ensures Get(mem', High2(LowUnit(g))) == p + (at - s) - 1 && Get(mem', Low2(UpUnit(g))) == p + (at - s)
    ensures Get(mem', Dest(UpUnit(g))) == at + 1
  {
  }

  /** Frame: a unit leaves everything outside what it writes as it was. */
  lemma UnitFrame(job: Job, mem: Mem, n: nat, l: Loc)
    requires InBounds(job, mem, n) && !Writes(job, mem, l)
    ensures Get(Do(job, mem), l) == Get(mem, l) && Sized(Do(job, mem), n)
  {
    match job
    case Quicksort(low, high) =>
      QuicksortFrame(low, high, mem, n, l);
    case Partition(g, s, p, m) =>
      var at := s + SplitCount(Source(mem, g)[s], Source(mem, g)[p..m]);
      var mid := SetTarget(mem, g, Store(Target(mem, g), at, [Source(mem, g)[s]]));
      TargetFrame(g, mem, n, at, [Source(mem, g)[s]], mid, l);
      PartitionFrame(g, mem, n, s, p, m, mid, Do(job, mem), at, l);
    case Joining(g, u, low1, high1) =>
      var v, w := Slice(Source(mem, g), low1, high1), Slice(Source(mem, g), mem.low2[u], mem.high2[u]);
      JoiningStores(g, u, mem, n, low1, high1, mem.dest[u], v, w, l);
  }

  // ---------------------------------------------------------------- locality: what is written depends on what is read

  lemma SlicesAgree(s: seq<int>, t: seq<int>, low: int, high: int)
    requires |s| == |t| && 0 <= low <= high + 1 <= |s| && forall i :: low <= i <= high ==> t[i] == s[i]
    ensures Slice(s, low, high) == Slice(t, low, high)
  {
  }

  lemma QuicksortStores(low: int, high: int, mem: Mem, n: nat, raw: seq<int>, l: Loc)
    requires Sized(mem, n) && 0 <= low <= high + 1 <= n && |raw| == high + 1 - low && raw == Slice(mem.arr, low, high)
    requires l.Arr? && low <= l.i <= high
    ensures |SortOf(raw)| == |raw| && Get(SortRange(mem, low, high), l) == SortOf(raw)[l.i - low]
  {
    SortLength(raw);
    StoredAt(mem.arr, low, SortOf(raw), l.i);
  }

  lemma QuicksortLocal(low: int, high: int, mem: Mem, mem2: Mem, n: nat, l: Loc)
    requires Sized(mem, n) && Sized(mem2, n) && 0 <= low <= high + 1 <= n
    requires forall l :: InSource(l, 0, low, high + 1) ==> Get(mem2, l) == Get(mem, l)
    requires l.Arr? && low <= l.i <= high
    ensures Get(SortRange(mem, low, high), l) == Get(SortRange(mem2, low, high), l)
  {
    var raw := Slice(mem.arr, low, high);
    SourceAgrees(0, mem, mem2, n, low, high);
    QuicksortStores(low, high, mem, n, raw, l);
    QuicksortStores(low, high, mem2, n, raw, l);
  }

  /** Memories that agree on a range of the source have the same slice there. */
  lemma SourceAgrees(g: nat, mem: Mem, mem2: Mem, n: nat, low: int, high: int)
    requires Sized(mem, n) && Sized(mem2, n) && 0 <= low <= high + 1 <= n
    requires forall l :: InSource(l, g, low, high + 1) ==> Get(mem2, l) == Get(mem, l)
    ensures Slice(Source(mem, g), low, high) == Slice(Source(mem2, g), low, high)
  {
    forall i | low <= i <= high
      ensures Source(mem2, g)[i] == Source(mem, g)[i]
    {
      var l := if g == 2 then Tmp(i) else Arr(i);
      assert InSource(l, g, low, high + 1);
      assert Get(mem2, l) == Get(mem, l);
    }
    SlicesAgree(Source(mem, g), Source(mem2, g), low, high);
  }

  lemma SplitAgrees(g: nat, mem: Mem, mem2: Mem, n: nat, s: nat, p: nat, m: nat)
    requires Sized(mem, n) && Sized(mem2, n) && s < p < m <= n
    requires forall l :: InSource(l, g, s, s + 1) || InSource(l, g, p, m) ==> Get(mem2, l) == Get(mem, l)
    ensures Source(mem, g)[s] == Source(mem2, g)[s] && Source(mem, g)[p..m] == Source(mem2, g)[p..m]
  {
    SourceAgrees(g, mem, mem2, n, s, s);
    SourceAgrees(g, mem, mem2, n, p, m - 1);
    assert Slice(Source(mem, g), s, s)[0] == Slice(Source(mem2, g), s, s)[0];
  }

  lemma PartitionLocal(g: Group, mem: Mem, mem2: Mem, n: nat, s: nat, p: nat, m: nat, at: nat, l: Loc)
    requires Sized(mem, n) && Sized(mem2, n) && s < p < m <= n && at < n
    requires Source(mem, g)[s] == Source(mem2, g)[s] && Source(mem, g)[p..m] == Source(mem2, g)[p..m]
    requires at == s + SplitCount(Source(mem, g)[s], Source(mem, g)[p..m])
    requires l == High2(LowUnit(g)) || l == Low2(UpUnit(g)) || l == Dest(UpUnit(g)) || InTarget(l, g, at, at + 1)
    ensures Get(SplitGroup(g, mem, s, p, m), l) == Get(SplitGroup(g, mem2, s, p, m), l)
  {
    var w := [Source(mem, g)[s]];
    var mid, mid2 := SetTarget(mem, g, Store(Target(mem, g), at, w)), SetTarget(mem2, g, Store(Target(mem2, g), at, w));
    TargetFrame(g, mem, n, at, w, mid, l);
    TargetFrame(g, mem2, n, at, w, mid2, l);
    PartitionFrame(g, mem, n, s, p, m, mid, SplitGroup(g, mem, s, p, m), at, l);
    PartitionFrame(g, mem2, n, s, p, m, mid2, SplitGroup(g, mem2, s, p, m), at, l);
  }

  lemma JoiningLocal(g: Group, u: nat, mem: Mem, mem2: Mem, n: nat, low1: int, high1: int,
                     at: nat, v: seq<int>, w: seq<int>, l: Loc)
    requires Sized(mem, n) && Sized(mem2, n) && u < UNITS && at + |v| + |w| <= n
    requires Joins(g, u, mem, low1, high1, at, v, w) && Joins(g, u, mem2, low1, high1, at, v, w)
    requires InTarget(l, g, at, at + |v| + |w|)
    ensures Get(MergeGroup(g, mem, u, low1, high1), l) == Get(MergeGroup(g, mem2, u, low1, high1), l)
  {
    JoiningStores(g, u, mem, n, low1, high1, at, v, w, l);
    JoiningStores(g, u, mem2, n, low1, high1, at, v, w, l);
  }

  /** Locality: memories that agree on what a unit reads agree, after it, on what it has written. */
  ghost predicate Local(job: Job, mem: Mem, mem2: Mem, n: nat, l: Loc) {
    var holds :=
      && InBounds(job, mem2, n) && (Writes(job, mem2, l) <==> Writes(job, mem, l))
      && (Writes(job, mem, l) ==> Get(Do(job, mem2), l) == Get(Do(job, mem), l));
    holds
  }

  lemma UnitLocal(job: Job, mem: Mem, mem2: Mem, n: nat, l: Loc)
    requires InBounds(job, mem, n) && Sized(mem2, n) && Agree(job, mem, mem2)
    ensures Local(job, mem, mem2, n, l)
  {
    match job
    case Quicksort(_, _) => QuicksortIsLocal(job, mem, mem2, n, l);
    case Partition(_, _, _, _) => PartitionIsLocal(job, mem, mem2, n, l);
    case Joining(_, _, _, _) => JoiningIsLocal(job, mem, mem2, n, l);
  }

  lemma QuicksortIsLocal(job: Job, mem: Mem, mem2: Mem, n: nat, l: Loc)
    requires job.Quicksort? && InBounds(job, mem, n) && Sized(mem2, n) && Agree(job, mem, mem2)
    ensures Local(job, mem, mem2, n, l)
  {
    if Writes(job, mem, l) {
      QuicksortLocal(job.low, job.high, mem, mem2, n, l);
    }
  }

  lemma PartitionIsLocal(job: Job, mem: Mem, mem2: Mem, n: nat, l: Loc)
    requires job.Partition? && InBounds(job, mem, n) && Sized(mem2, n) && Agree(job, mem, mem2)
    ensures Local(job, mem, mem2, n, l)
  {
    var g, s, p, m := job.g, job.s, job.p, job.n;
    SplitAgrees(g, mem, mem2, n, s, p, m);
    if Writes(job, mem, l) {
      PartitionLocal(g, mem, mem2, n, s, p, m, s + SplitCount(Source(mem, g)[s], Source(mem, g)[p..m]), l);
    }
  }

  lemma JoiningIsLocal(job: Job, mem: Mem, mem2: Mem, n: nat, l: Loc)
    requires job.Joining? && InBounds(job, mem, n) && Sized(mem2, n) && Agree(job, mem, mem2)
    ensures Local(job, mem, mem2, n, l)
  {
    var g, u, low1, high1 := job.g, job.u, job.low1, job.high1;
    assert Reads(job, mem, High2(u)) && Reads(job, mem, Low2(u)) && Reads(job, mem, Dest(u));
    SourceAgrees(g, mem, mem2, n, low1, high1);
    SourceAgrees(g, mem, mem2, n, mem.low2[u], mem.high2[u]);
    if Writes(job, mem, l) {
      var v, w := Slice(Source(mem, g), low1, high1), Slice(Source(mem, g), mem.low2[u], mem.high2[u]);
      JoiningLocal(g, u, mem, mem2, n, low1, high1, mem.dest[u], v, w, l);
    }
  }

  // ---------------------------------------------------------------- which units may run at the same time

  lemma GroupStarted(ran: set<nat>, g: nat, u: nat)
    requires Closed(ran) && g < 3 && InGroup(u, g) && Runnable(ran, u)
    ensures u != SplitUnit(g) ==> SplitUnit(g) in ran
    ensures Deps(SplitUnit(g)) <= ran
  {
    if u != SplitUnit(g) {
      DepsOfMerges(g, ran);
    }
  }

  lemma QuarterTogether(ran: set<nat>, i: nat, g: nat, u: nat)
    requires Closed(ran) && i < 4 && i !in ran && g < 3 && InGroup(u, g) && Runnable(ran, u)
    ensures g < 2 && (g == 0 ==> i >= 2) && (g == 1 ==> i < 2)
  {
    GroupStarted(ran, g, u);
    NotYet(ran);
    if g == 2 {
      BothHalvesRan(ran);
    }
  }

  lemma GroupsTogether(ran: set<nat>, g: nat, u: nat, g': nat, u': nat)
    requires Closed(ran) && g < 3 && g' < 3 && InGroup(u, g) && InGroup(u', g') && u != u'
    requires Runnable(ran, u) && Runnable(ran, u')
    ensures g == g' ==> u != SplitUnit(g) && u' != SplitUnit(g)
    ensures g != g' ==> g < 2 && g' < 2
  {
    GroupStarted(ran, g, u);
    GroupStarted(ran, g', u');
    if g != g' && g == 2 {
      BothHalvesRan(ran);
    } else if g != g' && g' == 2 {
      BothHalvesRan(ran);
    }
  }

  // ---------------------------------------------------------------- footprints in terms of the plan

  /** The parameters of unit `u`, and those that the split unit of group `g` hands over. */
  ghost predicate ParamOf(l: Loc, u: nat) {
    l == High2(u) || l == Low2(u) || l == Dest(u)
  }

  ghost predicate HandedIn(l: Loc, g: Group) {
    l == High2(LowUnit(g)) || l == Low2(UpUnit(g)) || l == Dest(UpUnit(g))
  }

  /** Where in its target a unit stores. */
  function From(plan: Plan, g: Group, u: nat): int {
    if u == SplitUnit(g) then plan.s + plan.r else if u == LowUnit(g) then plan.b else plan.s + plan.r + 1
  }

  function Until(plan: Plan, g: Group, u: nat): int {
    if u == SplitUnit(g) then plan.s + plan.r + 1 else if u == LowUnit(g) then plan.s + plan.r else plan.n
  }

  /** The unit keeps to the ranges of its group: it reads the source between b and n and its own parameters, and writes
      its part of the target and, as a split unit, the parameters it hands over. */
  ghost predicate Inside(job: Job, plan: Plan, g: Group, u: nat, mem: Mem) {
    var holds :=
      && (forall l :: Reads(job, mem, l) ==> InSource(l, g, plan.b, plan.n) || (u != SplitUnit(g) && ParamOf(l, u)))
      && (forall l :: Writes(job, mem, l) ==>
            InTarget(l, g, From(plan, g, u), Until(plan, g, u)) || (u == SplitUnit(g) && HandedIn(l, g)));
    holds
  }

  lemma SplitFinds(lay: Layout, g: nat, mem: Mem, plan: Plan)
    requires g < 3 && Counts(lay) && Set(lay, g, mem, plan)
    ensures Sound(plan) && plan.n <= |Source(mem, g)|
    ensures SplitCount(Source(mem, g)[plan.s], Source(mem, g)[plan.p..plan.n]) == plan.r
  {
    SplitReads(plan, g, mem, lay.first[g], lay.second[g]);
  }

  lemma SplitInside(job: Job, g: nat, u: nat, mem: Mem, plan: Plan, n: nat)
    requires g < 3 && u < UNITS && u == SplitUnit(g) && job == Partition(g, plan.s, plan.p, plan.n)
    requires Sized(mem, n) && plan.n <= n && Sound(plan)
    requires SplitCount(Source(mem, g)[plan.s], Source(mem, g)[plan.p..plan.n]) == plan.r
    ensures InBounds(job, mem, n) && Inside(job, plan, g, u, mem)
  {
  }

  lemma LowInside(job: Job, g: nat, u: nat, mem: Mem, plan: Plan, n: nat)
    requires g < 3 && u < UNITS && u == LowUnit(g) && job == Joining(g, u, plan.b, plan.s - 1)
    requires Sized(mem, n) && plan.n <= n && Sound(plan) && Params(plan, g, mem, true)
    ensures InBounds(job, mem, n) && Inside(job, plan, g, u, mem)
  {
  }

  lemma UpInside(job: Job, g: nat, u: nat, mem: Mem, plan: Plan, n: nat)
    requires g < 3 && u < UNITS && u == UpUnit(g) && job == Joining(g, u, plan.s + 1, plan.p - 1)
    requires Sized(mem, n) && plan.n <= n && Sound(plan) && Params(plan, g, mem, true)
    ensures InBounds(job, mem, n) && Inside(job, plan, g, u, mem)
  {
  }

  lemma PlanInBounds(lay: Layout, g: nat, mem: Mem, ran: set<nat>, n: nat)
    requires Inv(lay, mem, ran) && g < 3 && n == lay.size
    ensures Sized(mem, n) && Counts(lay) && Sound(lay.plans[g]) && lay.plans[g].n <= n
    ensures Params(lay.plans[g], g, mem, SplitUnit(g) in ran)
  {
    GroupSoFar(lay, g, mem, ran);
    SoundOf(lay, g);
    GroupsApart(lay, g, if g == 0 then 1 else 0);
  }

  lemma GroupInside(e: nat, a: seq<int>, lay: Layout, g: nat, mem: Mem, ran: set<nat>, u: nat, plan: Plan)
    requires Inv(lay, mem, ran) && Task(e, a, lay) && g < |lay.plans| == 3 && InGroup(u, g) && Runnable(ran, u)
    requires plan == lay.plans[g]
    ensures u < UNITS && InBounds(JobOf(8 * e, u), mem, 8 * e) && Inside(JobOf(8 * e, u), plan, g, u, mem)
  {
    PlanNumbers(e, a, lay, g);
    StartIs(e, a, lay, 0);
    PlanInBounds(lay, g, mem, ran, 8 * e);
    GroupReady(lay, g, mem, ran, u);
    GroupStarted(ran, g, u);
    if u == SplitUnit(g) {
      SplitFinds(lay, g, mem, plan);
      SplitJob(e, g, u, plan, mem);
      SplitInside(JobOf(8 * e, u), g, u, mem, plan, 8 * e);
    } else if u == LowUnit(g) {
      LowJob(e, g, u, plan, mem);
      LowInside(JobOf(8 * e, u), g, u, mem, plan, 8 * e);
    } else {
      UpJob(e, g, u, plan, mem);
      UpInside(JobOf(8 * e, u), g, u, mem, plan, 8 * e);
    }
  }

  lemma QuarterInside(e: nat, a: seq<int>, lay: Layout, mem: Mem, ran: set<nat>, u: nat)
    requires Inv(lay, mem, ran) && Task(e, a, lay) && u < 4
    ensures InBounds(JobOf(8 * e, u), mem, 8 * e)
  {
    QuartersInEighths(e, u);
    StartIs(e, a, lay, u);
    PlanInBounds(lay, 0, mem, ran, 8 * e);
  }

  // ---------------------------------------------------------------- disjointness

  /** What the first unit writes, the second one neither reads nor writes. */
  ghost predicate Undisturbed(job: Job, other: Job, mem: Mem) {
    forall l :: Writes(job, mem, l) ==> !Reads(other, mem, l) && !Writes(other, mem, l)
  }

  /** The locations of a group: what its units read and what they write. */
  ghost predicate Readable(l: Loc, g: Group, plan: Plan, u: nat) {
    InSource(l, g, plan.b, plan.n) || ParamOf(l, u)
  }

  ghost predicate Writable(l: Loc, g: Group, plan: Plan) {
    InTarget(l, g, plan.b, plan.n) || HandedIn(l, g)
  }

  lemma InsideAt(job: Job, plan: Plan, g: Group, u: nat, mem: Mem, l: Loc)
    requires Inside(job, plan, g, u, mem) && Sound(plan)
    ensures Reads(job, mem, l) ==> Readable(l, g, plan, u)
    ensures Writes(job, mem, l) ==> Writable(l, g, plan)
  {
  }

  /** Different groups that run at the same time work on different halves of the same buffers. */
  lemma GroupsApartAt(l: Loc, g: Group, plan: Plan, g': Group, u': nat, plan': Plan)
    requires g < 2 && g' < 2 && g != g' && InGroup(u', g') && (plan.n <= plan'.b || plan'.n <= plan.b)
    requires Writable(l, g, plan)
    ensures !Readable(l, g', plan', u') && !Writable(l, g', plan')
  {
  }

  lemma GroupsUndisturbed(job: Job, g: nat, u: nat, plan: Plan, job': Job, g': nat, u': nat, plan': Plan, mem: Mem)
    requires g < 2 && g' < 2 && g != g' && InGroup(u', g')
    requires Sound(plan) && Sound(plan') && (plan.n <= plan'.b || plan'.n <= plan.b)
    requires Inside(job, plan, g, u, mem) && Inside(job', plan', g', u', mem)
    ensures Undisturbed(job, job', mem)
  {
    forall l | Writes(job, mem, l)
      ensures !Reads(job', mem, l) && !Writes(job', mem, l)
    {
      InsideAt(job, plan, g, u, mem, l);
      InsideAt(job', plan', g', u', mem, l);
      GroupsApartAt(l, g, plan, g', u', plan');
    }
  }

  /** The two merges of a group write on different sides of the splitting element. */
  lemma MergesUndisturbed(job: Job, job': Job, g: nat, u: nat, u': nat, plan: Plan, mem: Mem)
    requires g < 3 && InGroup(u, g) && InGroup(u', g) && u != u'
    requires u != SplitUnit(g) && u' != SplitUnit(g) && Sound(plan)
    requires Inside(job, plan, g, u, mem) && Inside(job', plan, g, u', mem)
    ensures Undisturbed(job, job', mem)
  {
  }

  lemma QuartersUndisturbed(e: nat, i: nat, j: nat, mem: Mem)
    requires i < 4 && j < 4 && i != j
    ensures Undisturbed(JobOf(8 * e, i), JobOf(8 * e, j), mem)
  {
    QuartersInEighths(e, i);
    QuartersInEighths(e, j);
  }

  lemma QuarterGroupUndisturbed(e: nat, i: nat, low: int, g: nat, u: nat, job: Job, plan: Plan, mem: Mem)
    requires i < 4 && low == Start(e, i) && g < 2 && InGroup(u, g) && Sound(plan)
    requires Numbered(e, g, plan) && Inside(job, plan, g, u, mem)
    requires (g == 0 ==> i >= 2) && (g == 1 ==> i < 2)
    ensures var sort := Quicksort(low, low + 2 * e - 1); Undisturbed(sort, job, mem) && Undisturbed(job, sort, mem)
  {
  }

  function GroupNumber(u: nat): (g: Group)
    requires 4 <= u < UNITS
    ensures InGroup(u, g)
  {
    GroupOf(u)
  }

  /** A unit that may run finds its ranges inside the buffers. */
  lemma BoundsHold(e: nat, a: seq<int>, lay: Layout, mem: Mem, ran: set<nat>, u: nat)
    requires Inv(lay, mem, ran) && Task(e, a, lay) && Runnable(ran, u)
    ensures u < UNITS && InBounds(JobOf(8 * e, u), mem, 8 * e)
  {
    if u < 4 {
      QuarterInside(e, a, lay, mem, ran, u);
    } else {
      var g := GroupNumber(u);
      PlanInBounds(lay, g, mem, ran, lay.size);
      GroupInside(e, a, lay, g, mem, ran, u, lay.plans[g]);
    }
  }

  /** Units that may run at the same time have disjoint footprints. */
  lemma FootprintsDisjoint(e: nat, a: seq<int>, lay: Layout, mem: Mem, ran: set<nat>, u: nat, v: nat)
    requires Inv(lay, mem, ran) && Task(e, a, lay) && Runnable(ran, u) && Runnable(ran, v) && u != v
    ensures u < UNITS && v < UNITS && Undisturbed(JobOf(8 * e, u), JobOf(8 * e, v), mem)
    ensures InBounds(JobOf(8 * e, u), mem, 8 * e)
  {
    if u < 4 && v < 4 {
      QuarterInside(e, a, lay, mem, ran, u);
      QuartersUndisturbed(e, u, v, mem);
    } else if u < 4 {
      QuarterInside(e, a, lay, mem, ran, u);
      QuarterAndGroup(e, a, lay, mem, ran, u, v);
    } else if v < 4 {
      QuarterAndGroup(e, a, lay, mem, ran, v, u);
    } else {
      TwoInGroups(e, a, lay, mem, ran, u, v);
    }
  }

  lemma QuarterAndGroup(e: nat, a: seq<int>, lay: Layout, mem: Mem, ran: set<nat>, i: nat, u: nat)
    requires Inv(lay, mem, ran) && Task(e, a, lay) && i < 4 <= u && Runnable(ran, i) && Runnable(ran, u)
    ensures u < UNITS && InBounds(JobOf(8 * e, u), mem, 8 * e)
    ensures Undisturbed(JobOf(8 * e, i), JobOf(8 * e, u), mem) && Undisturbed(JobOf(8 * e, u), JobOf(8 * e, i), mem)
  {
    var g := GroupNumber(u);
    PlanNumbers(e, a, lay, g);
    PlanInBounds(lay, g, mem, ran, lay.size);
    GroupInside(e, a, lay, g, mem, ran, u, lay.plans[g]);
    QuarterTogether(ran, i, g, u);
    QuarterAndJob(e, i, g, u, JobOf(8 * e, u), lay.plans[g], mem);
  }

  lemma QuarterAndJob(e: nat, i: nat, g: nat, u: nat, job: Job, plan: Plan, mem: Mem)
    requires i < 4 && g < 2 && InGroup(u, g) && Sound(plan) && Numbered(e, g, plan) && Inside(job, plan, g, u, mem)
    requires (g == 0 ==> i >= 2) && (g == 1 ==> i < 2)
    ensures Undisturbed(JobOf(8 * e, i), job, mem) && Undisturbed(job, JobOf(8 * e, i), mem)
  {
    QuartersInEighths(e, i);
    QuarterGroupUndisturbed(e, i, Start(e, i), g, u, job, plan, mem);
  }

  lemma TwoInGroups(e: nat, a: seq<int>, lay: Layout, mem: Mem, ran: set<nat>, u: nat, v: nat)
    requires Inv(lay, mem, ran) && Task(e, a, lay) && Runnable(ran, u) && Runnable(ran, v) && u != v && 4 <= u && 4 <= v
    ensures u < UNITS && v < UNITS && Undisturbed(JobOf(8 * e, u), JobOf(8 * e, v), mem)
    ensures InBounds(JobOf(8 * e, u), mem, 8 * e)
  {
    var g, g' := GroupNumber(u), GroupNumber(v);
    GroupsTogether(ran, g, u, g', v);
    PlanInBounds(lay, g, mem, ran, lay.size);
    PlanInBounds(lay, g', mem, ran, lay.size);
    GroupInside(e, a, lay, g, mem, ran, u, lay.plans[g]);
    GroupInside(e, a, lay, g', mem, ran, v, lay.plans[g']);
    if g == g' {
      MergesUndisturbed(JobOf(8 * e, u), JobOf(8 * e, v), g, u, v, lay.plans[g], mem);
    } else {
      GroupsApart(lay, g, g');
      GroupsUndisturbed(JobOf(8 * e, u), g, u, lay.plans[g], JobOf(8 * e, v), g', v, lay.plans[g'], mem);
    }
  }

  // ---------------------------------------------------------------- either order gives the same

  lemma SameMem(m: Mem, m': Mem, n: nat)
    requires Sized(m, n) && Sized(m', n) && forall l :: Get(m, l) == Get(m', l)
    ensures m == m'
  {
    forall i | 0 <= i < n ensures m.arr[i] == m'.arr[i] && m.tmp[i] == m'.tmp[i] {
      assert Get(m, Arr(i)) == Get(m', Arr(i)) && Get(m, Tmp(i)) == Get(m', Tmp(i));
    }
    forall u | 0 <= u < UNITS
      ensures m.high2[u] == m'.high2[u] && m.low2[u] == m'.low2[u] && m.dest[u] == m'.dest[u]
    {
      assert Get(m, High2(u)) == Get(m', High2(u)) && Get(m, Low2(u)) == Get(m', Low2(u))
          && Get(m, Dest(u)) == Get(m', Dest(u));
    }
    assert m.arr == m'.arr && m.tmp == m'.tmp && m.high2 == m'.high2 && m.low2 == m'.low2 && m.dest == m'.dest;
  }

  /** After another unit, a unit finds what it reads, writes where it would have written, and the same values. */
  lemma StillTheSame(job: Job, other: Job, mem: Mem, mid: Mem, n: nat, l: Loc)
    requires InBounds(job, mem, n) && InBounds(other, mem, n) && Undisturbed(other, job, mem) && mid == Do(other, mem)
    ensures Writes(job, mem, l) ==> Get(Do(job, mid), l) == Get(Do(job, mem), l)
    ensures !Writes(job, mem, l) ==> Get(Do(job, mid), l) == Get(mid, l)
    ensures Sized(Do(job, mid), n)
  {
    forall x | Reads(job, mem, x)
      ensures Get(mid, x) == Get(mem, x)
    {
      UnitFrame(other, mem, n, x);
    }
    UnitFrame(other, mem, n, Arr(-1));
    UnitLocal(job, mem, mid, n, l);
    if !Writes(job, mem, l) {
      UnitFrame(job, mid, n, l);
    }
    UnitFrame(job, mid, n, Arr(-1));
  }

  /** Two units that may run at the same time commute. */
  lemma RunsCommute(e: nat, a: seq<int>, lay: Layout, mem: Mem, ran: set<nat>, u: nat, v: nat)
    requires Inv(lay, mem, ran) && Task(e, a, lay) && Runnable(ran, u) && Runnable(ran, v) && u != v && u < UNITS
    requires v < UNITS
    ensures RunUnit(8 * e, u, RunUnit(8 * e, v, mem)) == RunUnit(8 * e, v, RunUnit(8 * e, u, mem))
  {
    FootprintsDisjoint(e, a, lay, mem, ran, u, v);
    FootprintsDisjoint(e, a, lay, mem, ran, v, u);
    Commute(JobOf(8 * e, u), JobOf(8 * e, v), mem, 8 * e);
  }

  lemma Commute(job: Job, job': Job, mem: Mem, n: nat)
    requires InBounds(job, mem, n) && InBounds(job', mem, n)
    requires Undisturbed(job, job', mem) && Undisturbed(job', job, mem)
    ensures Do(job, Do(job', mem)) == Do(job', Do(job, mem))
  {
    var first, second := Do(job, mem), Do(job', mem);
    forall l
      ensures Get(Do(job, second), l) == Get(Do(job', first), l)
    {
      CommuteAt(job, job', mem, first, second, n, l);
    }
    StillTheSame(job, job', mem, second, n, Arr(-1));
    StillTheSame(job', job, mem, first, n, Arr(-1));
    SameMem(Do(job, second), Do(job', first), n);
  }

  lemma CommuteAt(job: Job, job': Job, mem: Mem, first: Mem, second: Mem, n: nat, l: Loc)
    requires InBounds(job, mem, n) && InBounds(job', mem, n) && first == Do(job, mem) && second == Do(job', mem)
    requires Undisturbed(job, job', mem) && Undisturbed(job', job, mem)
    ensures Get(Do(job, second), l) == Get(Do(job', first), l)
  {
    StillTheSame(job, job', mem, second, n, l);
    StillTheSame(job', job, mem, first, n, l);
    if !Writes(job, mem, l) {
      UnitFrame(job, mem, n, l);
    }
    if !Writes(job', mem, l) {
      UnitFrame(job', mem, n, l);
    }
  }
}
