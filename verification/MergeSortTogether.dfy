/** Workers of the merge sort that have a unit at the same time: no data race, whatever the schedule. */
module MergeSortTogether {
  import opened MergeSortUnits
  import opened MergeSortOrder
  import opened MergeSortSteps
  import opened MergeSortTao
  import opened MergeSortFootprints

  /** Every run: two workers that both have a unit have different ones, neither writes what the other reads or writes,
      and both orders of running them leave the same memory. */
  lemma NoRaces(n: nat, a: seq<int>, t: seq<int>, width: nat, schedule: seq<nat>, sys: System, w: nat, x: nat)
    requires n >= 8 && n % 8 == 0 && |a| == |t| == n && sys == Execution(n, a, t, width, schedule)
    requires w < |sys.c.workers| && x < |sys.c.workers| && w != x
    requires sys.c.workers[w].Holding? && sys.c.workers[x].Holding?
    ensures var u, v := sys.c.workers[w].u, sys.c.workers[x].u;
            && u != v && u < UNITS && v < UNITS
            && Undisturbed(JobOf(n, u), JobOf(n, v), sys.mem) && Undisturbed(JobOf(n, v), JobOf(n, u), sys.mem)
            && RunUnit(n, u, RunUnit(n, v, sys.mem)) == RunUnit(n, v, RunUnit(n, u, sys.mem))
  {
    var e := n / 8;
    var lay := LayoutOf(e, a);
    ExecutionOk(e, a, t, lay, width, schedule);
    HeldApart(sys.c, w, x);
    RunnableRaces(e, a, lay, sys.mem, sys.c.ran, sys.c.workers[w].u, sys.c.workers[x].u);
  }

  lemma RunnableRaces(e: nat, a: seq<int>, lay: Layout, mem: Mem, ran: set<nat>, u: nat, v: nat)
    requires Inv(lay, mem, ran) && Task(e, a, lay) && Runnable(ran, u) && Runnable(ran, v) && u != v
    ensures u < UNITS && v < UNITS
    ensures Undisturbed(JobOf(8 * e, u), JobOf(8 * e, v), mem) && Undisturbed(JobOf(8 * e, v), JobOf(8 * e, u), mem)
    ensures RunUnit(8 * e, u, RunUnit(8 * e, v, mem)) == RunUnit(8 * e, v, RunUnit(8 * e, u, mem))
  {
    FootprintsDisjoint(e, a, lay, mem, ran, u, v);
    FootprintsDisjoint(e, a, lay, mem, ran, v, u);
    RunsCommute(e, a, lay, mem, ran, u, v);
  }
}
