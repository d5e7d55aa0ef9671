/** Units of the merge sort in any order that their dependences allow. */
module MergeSortOrders {
  // Whatever the schedule, the memory of an execution is what its units make of it in the order they ran in. So
  // statements about all such orders are statements about all executions.

  import opened MergeSortUnits
  import opened MergeSortOrder
  import opened MergeSortSteps
  import opened MergeSortTao
  import opened MergeSortFootprints

  // ---------------------------------------------------------------- units in some order

  /** The memory after the units have run in this order, the newest one last. */
  function RunAll(n: nat, order: seq<nat>, mem: Mem): Mem {
    if order == [] then mem
    else
      var last := |order| - 1;
      var before := RunAll(n, order[..last], mem);
      if order[last] < UNITS then RunUnit(n, order[last], before) else before
  }

  /** Every unit finds its ranges inside buffers of size `n`, and each search has something to search. */
  ghost predicate StaysInside(n: nat, order: seq<nat>, mem: Mem) {
    order == [] ||
    var last := |order| - 1;
    && StaysInside(n, order[..last], mem) && order[last] < UNITS
    && InBounds(JobOf(n, order[last]), RunAll(n, order[..last], mem), n)
  }

  /** All units, each once and behind those it waits for. */
  ghost predicate WholeTask(order: seq<nat>) {
    OnceInOrder(order) && forall u: nat :: u in order <==> u < UNITS
  }

  lemma RunMore(n: nat, order: seq<nat>, u: nat, mem: Mem)
    requires u < UNITS
    ensures RunAll(n, order + [u], mem) == RunUnit(n, u, RunAll(n, order, mem))
  {
    assert (order + [u])[..|order + [u]| - 1] == order;
  }

  /** What any number of workers do to the memory, in any schedule, is what the units do in the order they ran in; when
      a worker has left, that is the whole task. */
  lemma {:induction false} ExecutionIsOrder(n: nat, a: seq<int>, t: seq<int>, width: nat, schedule: seq<nat>)
    ensures var sys := Execution(n, a, t, width, schedule);
            && sys.mem == RunAll(n, sys.order, InitMem(n, a, t)) && OnceInOrder(sys.order)
            && ((exists w :: 0 <= w < |sys.c.workers| && sys.c.workers[w] == Left) ==> WholeTask(sys.order))
    decreases |schedule|
  {
    var sys := Execution(n, a, t, width, schedule);
    RunsOnceInOrder(n, a, t, width, schedule);
    if w: nat :| w < |sys.c.workers| && sys.c.workers[w] == Left {
      LeavingMeansAll(n, a, t, width, schedule, w);
    }
    if schedule != [] {
      var last := |schedule| - 1;
      var before := Execution(n, a, t, width, schedule[..last]);
      ExecutionIsOrder(n, a, t, width, schedule[..last]);
      OrderStep(n, a, t, before, schedule[last]);
    }
  }

  lemma OrderStep(n: nat, a: seq<int>, t: seq<int>, sys: System, w: nat)
    requires sys.mem == RunAll(n, sys.order, InitMem(n, a, t))
    ensures var sys' := Next(n, sys, w); sys'.mem == RunAll(n, sys'.order, InitMem(n, a, t))
  {
    var sys' := Next(n, sys, w);
    if sys'.order != sys.order {
      assert sys'.order[..|sys'.order| - 1] == sys.order;
    }
  }

  // ---------------------------------------------------------------- sizes divisible by 8

  ghost function Ran(order: seq<nat>): set<nat> {
    set u | u in order
  }

  /** An order of units, each of which exists. */
  ghost predicate Ordered(order: seq<nat>) {
    var holds := OnceInOrder(order) && forall u :: u in order ==> u < UNITS;
    holds
  }

  lemma LastOf(order: seq<nat>) returns (before: seq<nat>, u: nat)
    requires order != []
    ensures order == before + [u] && before == order[..|order| - 1] && u == order[|order| - 1]
  {
    before, u := order[..|order| - 1], order[|order| - 1];
  }

  lemma PrefixOrdered(order: seq<nat>, before: seq<nat>, u: nat)
    requires Ordered(order) && order == before + [u]
    ensures Ordered(before)
  {
    forall i, p | 0 <= i < |before| && p in Deps(before[i])
      ensures p in before[..i]
    {
      assert order[i] == before[i] && order[..i] == before[..i];
    }
    forall i, j | 0 <= i < j < |before|
      ensures before[i] != before[j]
    {
      assert order[i] == before[i] && order[j] == before[j];
    }
    assert forall x :: x in before ==> x in order;
  }

  lemma LastRunnable(order: seq<nat>, before: seq<nat>, u: nat)
    requires Ordered(order) && order == before + [u]
    ensures Runnable(Ran(before), u) && Ran(order) == Ran(before) + {u}
  {
    var last := |before|;
    assert order[last] == u && order[..last] == before;
    assert forall p :: p in Deps(order[last]) ==> p in before;
    forall i | 0 <= i < last
      ensures before[i] != u
    {
      assert order[i] == before[i];
    }
    assert forall x :: x in order <==> x in before || x == u;
  }

  lemma RanNone(order: seq<nat>)
    requires order == []
    ensures Ran(order) == {}
  {
  }

  lemma StaysOneMore(n: nat, order: seq<nat>, before: seq<nat>, u: nat, mem: Mem, mid: Mem)
    requires order == before + [u] && StaysInside(n, before, mem) && mid == RunAll(n, before, mem)
    requires u < UNITS && InBounds(JobOf(n, u), mid, n)
    ensures StaysInside(n, order, mem) && RunAll(n, order, mem) == RunUnit(n, u, mid)
  {
    assert order[..|order| - 1] == before;
  }

  lemma OneMore(e: nat, a: seq<int>, lay: Layout, mem: Mem, ran: set<nat>, u: nat)
    requires Inv(lay, mem, ran) && Task(e, a, lay) && Runnable(ran, u)
    ensures Inv(lay, RunUnit(8 * e, u, mem), ran + {u}) && InBounds(JobOf(8 * e, u), mem, 8 * e)
  {
    BoundsHold(e, a, lay, mem, ran, u);
    RunKeepsInv(e, a, lay, mem, ran, u);
  }

  /** The invariant holds after these units, which all stayed inside. */
  ghost predicate Kept(e: nat, lay: Layout, order: seq<nat>, mem: Mem) {
    var holds := StaysInside(8 * e, order, mem) && Inv(lay, RunAll(8 * e, order, mem), Ran(order));
    holds
  }

  lemma OrderStepKeeps(e: nat, a: seq<int>, lay: Layout, order: seq<nat>, before: seq<nat>, u: nat, mem: Mem)
    requires Task(e, a, lay) && Ordered(order) && order == before + [u] && Kept(e, lay, before, mem)
    ensures Kept(e, lay, order, mem)
  {
    LastRunnable(order, before, u);
    var mid := RunAll(8 * e, before, mem);
    OneMore(e, a, lay, mid, Ran(before), u);
    StaysOneMore(8 * e, order, before, u, mem, mid);
  }

  lemma {:induction false} OrderKeepsInv(e: nat, a: seq<int>, lay: Layout, order: seq<nat>, mem: Mem)
    requires Task(e, a, lay) && Ordered(order) && Inv(lay, mem, {})
    ensures Kept(e, lay, order, mem)
    decreases |order|
  {
    if order == [] {
      RanNone(order);
    } else {
      var before, u := LastOf(order);
      PrefixOrdered(order, before, u);
      OrderKeepsInv(e, a, lay, before, mem);
      OrderStepKeeps(e, a, lay, order, before, u, mem);
    }
  }

  /** With a size divisible by 8 every execution keeps to the buffers. */
  lemma ExecutionInside(n: nat, a: seq<int>, t: seq<int>, width: nat, schedule: seq<nat>)
    requires n >= 8 && n % 8 == 0 && |a| == n && |t| == n
    ensures StaysInside(n, Execution(n, a, t, width, schedule).order, InitMem(n, a, t))
  {
    var e := n / 8;
    var lay := LayoutOf(e, a);
    InitInv(e, a, t, lay);
    ExecutionUnits(n, a, t, width, schedule);
    OrderKeepsInv(e, a, lay, Execution(n, a, t, width, schedule).order, InitMem(n, a, t));
  }

  lemma ExecutionUnits(n: nat, a: seq<int>, t: seq<int>, width: nat, schedule: seq<nat>)
    ensures Ordered(Execution(n, a, t, width, schedule).order)
  {
    ExecutionControl(n, a, t, width, schedule);
  }
}
