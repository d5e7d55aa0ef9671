/** The worker loop as a program: a gang of one worker executes the whole task.

    The state machine of MergeSortTao says what each worker does between two atomic actions, for any number of workers
    and any schedule. Here the loop of `execute` is written as code, with its counters, its list of ready units and the
    unit it forwards to itself, and every turn of the loop is shown to be a few steps of that machine. So the results
    about executions apply to it; in addition the loop terminates, since with a single worker the list is never empty
    while units remain. */
module MergeSortAlone {
  import opened SortLib
  import opened MergeSortUnits
  import opened MergeSortOrder
  import opened MergeSortSteps
  import opened MergeSortTao
  import opened MergeSortFootprints
  import opened MergeSortSolo
  import opened MergeSortTask

  ghost predicate Stands(e: nat, a: seq<int>, lay: Layout, sys: System, refs: seq<int>, ready: seq<nat>, pending: int,
                         worker: Worker)
  {
    var holds := Task(e, a, lay) && SystemOk(lay, sys) && At(sys.c, refs, ready, pending, worker);
    holds
  }

  /** The loop test passes. */
  lemma TestPasses(e: nat, a: seq<int>, lay: Layout, sys: System, refs: seq<int>, ready: seq<nat>, pending: int,
                   fwd: Link)
    returns (sys': System)
    requires Stands(e, a, lay, sys, refs, ready, pending, Top(fwd)) && pending > 0
    ensures Stands(e, a, lay, sys', refs, ready, pending, Fetching(fwd)) && sys'.mem == sys.mem
  {
    NextKeeps(e, a, lay, sys, 0);
    sys' := PassedState(8 * e, sys, refs, ready, pending, fwd);
  }

  /** With one worker something is forwarded or in the list. */
  lemma FindsSome(e: nat, a: seq<int>, lay: Layout, sys: System, refs: seq<int>, ready: seq<nat>, pending: int,
                  fwd: Link)
    requires Stands(e, a, lay, sys, refs, ready, pending, Top(fwd)) && pending > 0
    ensures fwd == Null ==> ready != []
  {
    var v := FirstUncounted(sys.c);
    var w := SomethingToDo(sys.c, v);
    assert w == 0;
    assert Useful(sys.c, Top(fwd));
  }

  /** The worker takes a unit: the forwarded one, or the first of the list. */
  lemma Fetches(e: nat, a: seq<int>, lay: Layout, sys: System, refs: seq<int>, ready: seq<nat>, pending: int, fwd: Link,
                u: nat, rest: seq<nat>)
    returns (sys': System)
    requires Stands(e, a, lay, sys, refs, ready, pending, Top(fwd)) && pending > 0 && Takes(ready, fwd, u, rest)
    ensures Stands(e, a, lay, sys', refs, rest, pending, Holding(u)) && sys'.mem == sys.mem
  {
    var mid := TestPasses(e, a, lay, sys, refs, ready, pending, fwd);
    NextKeeps(e, a, lay, mid, 0);
    sys' := TakenState(8 * e, mid, refs, ready, pending, fwd, u, rest);
  }

  lemma Runs(e: nat, a: seq<int>, lay: Layout, sys: System, refs: seq<int>, ready: seq<nat>, pending: int, u: nat)
    returns (sys': System)
    requires Stands(e, a, lay, sys, refs, ready, pending, Holding(u))
    ensures u < UNITS && InBounds(JobOf(8 * e, u), sys.mem, 8 * e)
    ensures Stands(e, a, lay, sys', refs, ready, pending, Ran(u)) && sys'.mem == RunUnit(8 * e, u, sys.mem)
  {
    StepKeeps(sys.c, 0);
    BoundsHold(e, a, lay, sys.mem, sys.c.ran, u);
    NextKeeps(e, a, lay, sys, 0);
    sys' := RanState(8 * e, sys, refs, ready, pending, u);
  }

  lemma CountsDown(e: nat, a: seq<int>, lay: Layout, sys: System, refs: seq<int>, ready: seq<nat>, pending: int, u: nat)
    returns (sys': System)
    requires Stands(e, a, lay, sys, refs, ready, pending, Ran(u))
    ensures Stands(e, a, lay, sys', refs, ready, pending - 1, Releasing(u, Outs(u), Null)) && sys'.mem == sys.mem
  {
    NextKeeps(e, a, lay, sys, 0);
    sys' := CountedState(8 * e, sys, refs, ready, pending, u);
  }

  lemma ReleasesOne(e: nat, a: seq<int>, lay: Layout, sys: System, refs: seq<int>, ready: seq<nat>, pending: int,
                    u: nat, outs: seq<nat>, fwd: Link)
    returns (sys': System)
    requires Stands(e, a, lay, sys, refs, ready, pending, Releasing(u, outs, fwd)) && outs != []
    ensures outs[0] < UNITS == |refs| && sys'.mem == sys.mem
    ensures var next := outs[0];
            Stands(e, a, lay, sys', refs[next := refs[next] - 1],
                   if refs[next] == 1 && fwd != Null then [next] + ready else ready, pending,
                   Releasing(u, outs[1..], if refs[next] == 1 && fwd == Null then To(next) else fwd))
  {
    ReleaseFinds(sys.c, 0, u, outs, fwd);
    NextKeeps(e, a, lay, sys, 0);
    sys' := Next(8 * e, sys, 0);
    ReleasedState(8 * e, sys, sys', refs, ready, pending, u, outs, fwd);
  }

  lemma Finishes(e: nat, a: seq<int>, lay: Layout, sys: System, refs: seq<int>, ready: seq<nat>, pending: int,
                 u: nat, fwd: Link)
    returns (sys': System)
    requires Stands(e, a, lay, sys, refs, ready, pending, Releasing(u, [], fwd))
    ensures Stands(e, a, lay, sys', refs, ready, pending, Top(fwd)) && sys'.mem == sys.mem
  {
    NextKeeps(e, a, lay, sys, 0);
    sys' := FinishedState(8 * e, sys, refs, ready, pending, u, [], fwd);
  }

  lemma Sorts(e: nat, a: seq<int>, lay: Layout, sys: System, refs: seq<int>, ready: seq<nat>, pending: int, fwd: Link)
    requires Stands(e, a, lay, sys, refs, ready, pending, Top(fwd)) && pending <= 0
    ensures Sorted(sys.mem.arr) && multiset(sys.mem.arr) == multiset(a)
  {
    NothingWaits(sys.c, 0);
    AllCounted(sys.c);
    AllRunSorts(e, a, lay, sys.mem, sys.c.ran);
  }

  lemma Begins(e: nat, a: seq<int>, t: seq<int>, sys: System) returns (lay: Layout)
    requires e >= 1 && |a| == |t| == 8 * e && sys == System(Begin(1), InitMem(8 * e, a, t), [])
    ensures Stands(e, a, lay, sys, [0, 0, 0, 0, 2, 2, 1, 1, 1, 1, 4, 1, 1], [3, 2, 1, 0], 13, Top(Null))
  {
    lay := LayoutOf(e, a);
    ExecutionOk(e, a, t, lay, 1, []);
    BeginsAt(sys.c);
  }

  lemma BeginsAt(c: State)
    requires c == Begin(1)
    ensures At(c, [0, 0, 0, 0, 2, 2, 1, 1, 1, 1, 4, 1, 1], [3, 2, 1, 0], 13, Top(Null))
  {
  }

  /** One successor: count it down; the first one that becomes ready is kept, the others go to the front of the list. */
  method WakeOne(unit: nat, refs0: seq<int>, readyq0: seq<nat>, fwd0: Link, outs: seq<nat>,
                 ghost e: nat, ghost a: seq<int>, ghost lay: Layout, ghost pending: int, ghost sys0: System)
    returns (refs: seq<int>, readyq: seq<nat>, fwd: Link, ghost sys: System)
    requires Stands(e, a, lay, sys0, refs0, readyq0, pending, Releasing(unit, outs, fwd0)) && outs != []
    ensures Stands(e, a, lay, sys, refs, readyq, pending, Releasing(unit, outs[1..], fwd)) && sys.mem == sys0.mem
  {
    sys := ReleasesOne(e, a, lay, sys0, refs0, readyq0, pending, unit, outs, fwd0);
    var next := outs[0];
    var before := refs0[next];
    refs, readyq, fwd := refs0[next := before - 1], readyq0, fwd0;
    if before == 1 {
      if fwd == Null {
        fwd := To(next);
      } else {
        readyq := [next] + readyq;
      }
    }
  }

  /** The loop that goes through the successors of a unit. */
  method WakeUp(unit: nat, refs0: seq<int>, readyq0: seq<nat>, ghost e: nat, ghost a: seq<int>, ghost lay: Layout,
                ghost pending: int, ghost sys0: System)
    returns (refs: seq<int>, readyq: seq<nat>, fwd: Link, ghost sys: System)
    requires Stands(e, a, lay, sys0, refs0, readyq0, pending, Releasing(unit, Outs(unit), Null))
    ensures Stands(e, a, lay, sys, refs, readyq, pending, Top(fwd)) && sys.mem == sys0.mem
  {
    refs, readyq, fwd, sys := refs0, readyq0, Null, sys0;
    var outs := Outs(unit);
    while outs != []
      invariant Stands(e, a, lay, sys, refs, readyq, pending, Releasing(unit, outs, fwd)) && sys.mem == sys0.mem
      decreases |outs|
    {
      refs, readyq, fwd, sys := WakeOne(unit, refs, readyq, fwd, outs, e, a, lay, pending, sys);
      outs := outs[1..];
    }
    sys := Finishes(e, a, lay, sys, refs, readyq, pending, unit, fwd);
  }

  /** Take the forwarded unit, or the first one of the list. */
  method Fetch(readyq0: seq<nat>, fwd: Link, ghost refs: seq<int>, ghost pending: int, ghost e: nat, ghost a: seq<int>,
               ghost lay: Layout, ghost sys0: System)
    returns (unit: nat, readyq: seq<nat>, ghost sys: System)
    requires Stands(e, a, lay, sys0, refs, readyq0, pending, Top(fwd)) && pending > 0
    ensures Stands(e, a, lay, sys, refs, readyq, pending, Holding(unit)) && sys.mem == sys0.mem
  {
    FindsSome(e, a, lay, sys0, refs, readyq0, pending, fwd);
    if fwd != Null {
      unit, readyq := fwd.unit, readyq0;
    } else {
      unit, readyq := readyq0[0], readyq0[1..];
    }
    sys := Fetches(e, a, lay, sys0, refs, readyq0, pending, fwd, unit, readyq);
  }

  /** Count the unit and wake its successors. */
  method Finish(unit: nat, refs0: seq<int>, readyq0: seq<nat>, pending0: int, ghost e: nat, ghost a: seq<int>,
                ghost lay: Layout, ghost sys0: System)
    returns (refs: seq<int>, readyq: seq<nat>, pending: int, fwd: Link, ghost sys: System)
    requires Stands(e, a, lay, sys0, refs0, readyq0, pending0, Ran(unit))
    ensures Stands(e, a, lay, sys, refs, readyq, pending, Top(fwd)) && sys.mem == sys0.mem && pending == pending0 - 1
  {
    sys := CountsDown(e, a, lay, sys0, refs0, readyq0, pending0, unit);
    pending := pending0 - 1;
    refs, readyq, fwd, sys := WakeUp(unit, refs0, readyq0, e, a, lay, pending, sys);
  }

  /** One turn of the loop: fetch a unit, execute it, count it, wake its successors. */
  method Turn(task: QuickMerge, refs0: seq<int>, readyq0: seq<nat>, pending0: int, fwd0: Link,
              ghost e: nat, ghost a: seq<int>, ghost lay: Layout, ghost sys0: System)
    returns (refs: seq<int>, readyq: seq<nat>, pending: int, fwd: Link, ghost sys: System)
    requires task.Valid() && task.n == 8 * e && task.Contents() == sys0.mem && pending0 > 0
    requires Stands(e, a, lay, sys0, refs0, readyq0, pending0, Top(fwd0))
    modifies task.arr, task.tmp, task.dow
    ensures task.Valid() && task.Contents() == sys.mem && pending == pending0 - 1
    ensures Stands(e, a, lay, sys, refs, readyq, pending, Top(fwd))
  {
    var unit;
    unit, readyq, sys := Fetch(readyq0, fwd0, refs0, pending0, e, a, lay, sys0);
    sys := Runs(e, a, lay, sys, refs0, readyq, pending0, unit);
    task.ExecuteUnit(unit);
    refs, readyq, pending, fwd, sys := Finish(unit, refs0, readyq, pending0, e, a, lay, sys);
  }

  /** `execute` with nobody else around. */
  method Execute(task: QuickMerge)
    requires task.Valid() && task.Contents() == InitMem(task.n, task.arr[..], task.tmp[..])
    requires task.n >= 8 && task.n % 8 == 0
    modifies task.arr, task.tmp, task.dow
    ensures task.Valid()
    ensures Sorted(task.arr[..]) && multiset(task.arr[..]) == multiset(old(task.arr[..]))
  {
    ghost var e, a, sys := task.n / 8, task.arr[..], System(Begin(1), task.Contents(), []);
    var refs := [0, 0, 0, 0, 2, 2, 1, 1, 1, 1, 4, 1, 1];
    var readyq: seq<nat> := [3, 2, 1, 0];
    var pending := 13;
    var fwd := Null;
    ghost var lay := Begins(e, a, task.tmp[..], sys);
    while pending > 0
      invariant task.Valid() && task.Contents() == sys.mem
      invariant Stands(e, a, lay, sys, refs, readyq, pending, Top(fwd))
      decreases pending
    {
      refs, readyq, pending, fwd, sys := Turn(task, refs, readyq, pending, fwd, e, a, lay, sys);
    }
    Sorts(e, a, lay, sys, refs, readyq, pending, fwd);
  }
}
