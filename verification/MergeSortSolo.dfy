/** A gang of one worker: the order in which it runs the units, for every size.

    The list of ready units, the counters and the forwarded unit of the loop do not depend on the size, so a single
    worker always takes the units in the same order. `Loop` is what the loop holds between two turns. */
module MergeSortSolo {
  import opened MergeSortUnits
  import opened MergeSortTao

  /** The control state of a gang of one, with everything recorded so far. */
  ghost predicate At(c: State, refs: seq<int>, ready: seq<nat>, pending: int, worker: Worker) {
    var holds :=
      c.refs == refs && c.ready == ready && c.pending == pending && c.workers == [worker] && |refs| == UNITS;
    holds
  }

  /** A step that runs no unit. */
  ghost predicate Quiet(n: nat, sys: System, sys': System) {
    var holds := sys' == Next(n, sys, 0) && sys'.mem == sys.mem && sys'.order == sys.order;
    holds
  }

  lemma PassedState(n: nat, sys: System, refs: seq<int>, ready: seq<nat>, pending: int, fwd: Link)
    returns (sys': System)
    requires At(sys.c, refs, ready, pending, Top(fwd)) && pending > 0
    ensures Quiet(n, sys, sys') && At(sys'.c, refs, ready, pending, Fetching(fwd))
  {
    sys' := Next(n, sys, 0);
  }

  /** The unit that a worker takes, and what remains in the list. */
  predicate Takes(ready: seq<nat>, fwd: Link, u: nat, rest: seq<nat>) {
    if fwd == Null then ready != [] && u == ready[0] && rest == ready[1..] else u == fwd.unit && rest == ready
  }

  lemma TakenState(n: nat, sys: System, refs: seq<int>, ready: seq<nat>, pending: int, fwd: Link, u: nat,
                   rest: seq<nat>)
    returns (sys': System)
    requires At(sys.c, refs, ready, pending, Fetching(fwd)) && Takes(ready, fwd, u, rest)
    ensures Quiet(n, sys, sys') && At(sys'.c, refs, rest, pending, Holding(u))
  {
    sys' := Next(n, sys, 0);
  }

  lemma RanState(n: nat, sys: System, refs: seq<int>, ready: seq<nat>, pending: int, u: nat) returns (sys': System)
    requires At(sys.c, refs, ready, pending, Holding(u)) && u < UNITS
    ensures sys' == Next(n, sys, 0) && At(sys'.c, refs, ready, pending, Ran(u))
    ensures sys'.mem == RunUnit(n, u, sys.mem) && sys'.order == sys.order + [u]
  {
    sys' := Next(n, sys, 0);
  }

  lemma CountedState(n: nat, sys: System, refs: seq<int>, ready: seq<nat>, pending: int, u: nat) returns (sys': System)
    requires At(sys.c, refs, ready, pending, Ran(u))
    ensures Quiet(n, sys, sys') && At(sys'.c, refs, ready, pending - 1, Releasing(u, Outs(u), Null))
  {
    sys' := Next(n, sys, 0);
  }

  lemma ReleasedState(n: nat, sys: System, sys': System, refs: seq<int>, ready: seq<nat>, pending: int,
                      u: nat, outs: seq<nat>, fwd: Link)
    requires At(sys.c, refs, ready, pending, Releasing(u, outs, fwd)) && outs != [] && outs[0] < UNITS == |refs|
    requires sys' == Next(n, sys, 0)
    ensures Quiet(n, sys, sys')
    ensures var next := outs[0];
            At(sys'.c, refs[next := refs[next] - 1],
               if refs[next] == 1 && fwd != Null then [next] + ready else ready, pending,
               Releasing(u, outs[1..], if refs[next] == 1 && fwd == Null then To(next) else fwd))
  {
  }

  lemma FinishedState(n: nat, sys: System, refs: seq<int>, ready: seq<nat>, pending: int, u: nat, outs: seq<nat>,
                      fwd: Link)
    returns (sys': System)
    requires At(sys.c, refs, ready, pending, Releasing(u, outs, fwd)) && outs == []
    ensures Quiet(n, sys, sys') && At(sys'.c, refs, ready, pending, Top(fwd))
  {
    sys' := Next(n, sys, 0);
  }

  // ---------------------------------------------------------------- a turn of the loop

  datatype Loop = Loop(refs: seq<int>, ready: seq<nat>, pending: int, fwd: Link)

  ghost predicate InLoop(sys: System, l: Loop, worker: Worker) {
    At(sys.c, l.refs, l.ready, l.pending, worker)
  }

  /** A successor is counted down; the first one that becomes ready is kept, the others are shared. */
  function WokenOne(l: Loop, v: nat): Loop
    requires v < |l.refs|
  {
    Loop(l.refs[v := l.refs[v] - 1],
         if l.refs[v] == 1 && l.fwd != Null then [v] + l.ready else l.ready,
         l.pending,
         if l.refs[v] == 1 && l.fwd == Null then To(v) else l.fwd)
  }

  /** The loop over the successors of a unit. */
  function Woken(l: Loop, outs: seq<nat>): Loop
    decreases |outs|
  {
    if outs == [] || outs[0] >= |l.refs| then l
    else
      Woken(WokenOne(l, outs[0]), outs[1..])
  }

  /** The states that the one worker goes through, one step after the other. */
  ghost predicate IsPath(n: nat, path: seq<System>) {
    forall k :: 0 <= k < |path| - 1 ==> StepAt(n, path, k)
  }

  ghost predicate StepAt(n: nat, path: seq<System>, k: nat)
    requires k + 1 < |path|
  {
    path[k + 1] == Next(n, path[k], 0)
  }

  /** From step `k` to step `k'` nothing has been run. */
  ghost predicate SameOrder(path: seq<System>, k: nat, k': nat) {
    k <= k' < |path| && path[k'].order == path[k].order
  }

  lemma TakesAt(n: nat, path: seq<System>, k: nat, l: Loop, u: nat, rest: seq<nat>)
    requires IsPath(n, path) && k + 2 < |path| && InLoop(path[k], l, Top(l.fwd)) && l.pending > 0
    requires Takes(l.ready, l.fwd, u, rest)
    ensures SameOrder(path, k, k + 2) && At(path[k + 2].c, l.refs, rest, l.pending, Holding(u))
  {
    PassesAt(n, path, k, l);
    assert StepAt(n, path, k + 1);
    var _ := TakenState(n, path[k + 1], l.refs, l.ready, l.pending, l.fwd, u, rest);
  }

  lemma PassesAt(n: nat, path: seq<System>, k: nat, l: Loop)
    requires IsPath(n, path) && k + 1 < |path| && InLoop(path[k], l, Top(l.fwd)) && l.pending > 0
    ensures SameOrder(path, k, k + 1) && InLoop(path[k + 1], l, Fetching(l.fwd))
  {
    assert StepAt(n, path, k);
    var _ := PassedState(n, path[k], l.refs, l.ready, l.pending, l.fwd);
  }

  lemma RunsAt(n: nat, path: seq<System>, k: nat, refs: seq<int>, ready: seq<nat>, pending: int, u: nat)
    requires IsPath(n, path) && k + 1 < |path| && At(path[k].c, refs, ready, pending, Holding(u)) && u < UNITS
    ensures path[k + 1].order == path[k].order + [u] && At(path[k + 1].c, refs, ready, pending, Ran(u))
  {
    assert StepAt(n, path, k);
    var _ := RanState(n, path[k], refs, ready, pending, u);
  }

  lemma CountsAt(n: nat, path: seq<System>, k: nat, refs: seq<int>, ready: seq<nat>, pending: int, u: nat)
    requires IsPath(n, path) && k + 1 < |path| && At(path[k].c, refs, ready, pending, Ran(u))
    ensures SameOrder(path, k, k + 1) && At(path[k + 1].c, refs, ready, pending - 1, Releasing(u, Outs(u), Null))
  {
    assert StepAt(n, path, k);
    var _ := CountedState(n, path[k], refs, ready, pending, u);
  }

  lemma WakesOneAt(n: nat, path: seq<System>, k: nat, l: Loop, u: nat, outs: seq<nat>, l': Loop)
    requires IsPath(n, path) && k + 1 < |path| && InLoop(path[k], l, Releasing(u, outs, l.fwd))
    requires outs != [] && outs[0] < UNITS == |l.refs| && l' == WokenOne(l, outs[0])
    ensures SameOrder(path, k, k + 1) && InLoop(path[k + 1], l', Releasing(u, outs[1..], l'.fwd))
  {
    assert StepAt(n, path, k);
    ReleasedState(n, path[k], path[k + 1], l.refs, l.ready, l.pending, u, outs, l.fwd);
  }

  lemma WakesNoneAt(n: nat, path: seq<System>, k: nat, l: Loop, u: nat, outs: seq<nat>)
    requires IsPath(n, path) && k + 1 < |path| && InLoop(path[k], l, Releasing(u, outs, l.fwd)) && outs == []
    ensures SameOrder(path, k, k + 1) && InLoop(path[k + 1], l, Top(l.fwd))
  {
    assert StepAt(n, path, k);
    var _ := FinishedState(n, path[k], l.refs, l.ready, l.pending, u, outs, l.fwd);
  }

  lemma {:induction false} WakesAt(n: nat, path: seq<System>, k: nat, l: Loop, u: nat, outs: seq<nat>, l': Loop)
    requires IsPath(n, path) && k + |outs| + 1 < |path| && InLoop(path[k], l, Releasing(u, outs, l.fwd))
    requires (forall i :: 0 <= i < |outs| ==> outs[i] < UNITS) && |l.refs| == UNITS && l' == Woken(l, outs)
    ensures SameOrder(path, k, k + |outs| + 1) && InLoop(path[k + |outs| + 1], l', Top(l'.fwd))
    decreases |outs|
  {
    if outs == [] {
      WakesNoneAt(n, path, k, l, u, outs);
    } else {
      var one, rest := WokenOne(l, outs[0]), outs[1..];
      WakesOneAt(n, path, k, l, u, outs, one);
      WakesAt(n, path, k + 1, one, u, rest, l');
      assert k + 1 + |rest| + 1 == k + |outs| + 1;
    }
  }

  /** One turn: take unit `u`, run it, count it, wake its successors. */
  lemma TurnAt(n: nat, path: seq<System>, k: nat, l: Loop, u: nat, rest: seq<nat>, l': Loop, k': nat)
    requires IsPath(n, path) && k' < |path| && k' == k + |Outs(u)| + 5 && InLoop(path[k], l, Top(l.fwd))
    requires l.pending > 0 && Takes(l.ready, l.fwd, u, rest) && u < UNITS && |l.refs| == UNITS
    requires l' == Woken(Loop(l.refs, rest, l.pending - 1, Null), Outs(u))
    ensures path[k'].order == path[k].order + [u] && InLoop(path[k'], l', Top(l'.fwd))
  {
    TakesAt(n, path, k, l, u, rest);
    RunsAt(n, path, k + 2, l.refs, rest, l.pending, u);
    CountsAt(n, path, k + 3, l.refs, rest, l.pending, u);
    WakesAt(n, path, k + 4, Loop(l.refs, rest, l.pending - 1, Null), u, Outs(u), l');
  }

  // ---------------------------------------------------------------- the thirteen turns

  /** The order in which the one worker runs the units. */
  function SoloOrder(): seq<nat> {
    [3, 2, 5, 8, 9, 1, 0, 4, 6, 7, 10, 11, 12]
  }

  /** The loop before turn `i`. */
  function Lap(i: nat): Loop {
    if i == 0 then Loop([0, 0, 0, 0, 2, 2, 1, 1, 1, 1, 4, 1, 1], [3, 2, 1, 0], 13, Null)
    else if i == 1 then Loop([0, 0, 0, 0, 2, 1, 1, 1, 1, 1, 4, 1, 1], [2, 1, 0], 12, Null)
    else if i == 2 then Loop([0, 0, 0, 0, 2, 0, 1, 1, 1, 1, 4, 1, 1], [1, 0], 11, To(5))
    else if i == 3 then Loop([0, 0, 0, 0, 2, 0, 1, 1, 0, 0, 4, 1, 1], [9, 1, 0], 10, To(8))
    else if i == 4 then Loop([0, 0, 0, 0, 2, 0, 1, 1, 0, 0, 3, 1, 1], [9, 1, 0], 9, Null)
    else if i == 5 then Loop([0, 0, 0, 0, 2, 0, 1, 1, 0, 0, 2, 1, 1], [1, 0], 8, Null)
    else if i == 6 then Loop([0, 0, 0, 0, 1, 0, 1, 1, 0, 0, 2, 1, 1], [0], 7, Null)
    else if i == 7 then Loop([0, 0, 0, 0, 0, 0, 1, 1, 0, 0, 2, 1, 1], [], 6, To(4))
    else if i == 8 then Loop([0, 0, 0, 0, 0, 0, 0, 0, 0, 0, 2, 1, 1], [7], 5, To(6))
    else if i == 9 then Loop([0, 0, 0, 0, 0, 0, 0, 0, 0, 0, 1, 1, 1], [7], 4, Null)
    else if i == 10 then Loop([0, 0, 0, 0, 0, 0, 0, 0, 0, 0, 0, 1, 1], [], 3, To(10))
    else if i == 11 then Loop([0, 0, 0, 0, 0, 0, 0, 0, 0, 0, 0, 0, 0], [12], 2, To(11))
    else if i == 12 then Loop([0, 0, 0, 0, 0, 0, 0, 0, 0, 0, 0, 0, 0], [12], 1, Null)
    else Loop([0, 0, 0, 0, 0, 0, 0, 0, 0, 0, 0, 0, 0], [], 0, Null)
  }

  /** The step at which turn `i` begins. */
  function LapStart(i: nat): nat {
    if i == 0 then 0 else if i == 1 then 6 else if i == 2 then 12 else if i == 3 then 19 else if i == 4 then 25
    else if i == 5 then 31 else if i == 6 then 37 else if i == 7 then 43 else if i == 8 then 50 else if i == 9 then 56
    else if i == 10 then 62 else if i == 11 then 69 else if i == 12 then 74 else 79
  }

  ghost predicate LapOk(i: nat, l: Loop, u: nat, rest: seq<nat>, l': Loop) {
    var holds :=
      && u < UNITS && |l.refs| == UNITS && l.pending > 0 && Takes(l.ready, l.fwd, u, rest)
      && l' == Woken(Loop(l.refs, rest, l.pending - 1, Null), Outs(u));
    holds
  }

  lemma WokenMore(l: Loop, outs: seq<nat>, mid: Loop, rest: seq<nat>)
    requires outs != [] && outs[0] < |l.refs| && mid == WokenOne(l, outs[0]) && rest == outs[1..]
    ensures Woken(l, outs) == Woken(mid, rest)
  {
  }

  function Remains(l: Loop): seq<nat> {
    if l.fwd == Null && l.ready != [] then l.ready[1..] else l.ready
  }

  /** The last two units have no successors. */
  lemma LastLaps(i: nat)
    requires i == 11 || i == 12
    ensures LapOk(i, Lap(i), SoloOrder()[i], Remains(Lap(i)), Lap(i + 1))
  {
  }

  /** Split units have two. */
  lemma SplitLaps(i: nat)
    requires i == 2 || i == 7 || i == 10
    ensures LapOk(i, Lap(i), SoloOrder()[i], Remains(Lap(i)), Lap(i + 1))
  {
    var l, u, rest := Lap(i), SoloOrder()[i], Remains(Lap(i));
    var m, v, w := Loop(l.refs, rest, l.pending - 1, Null), Outs(u)[0], Outs(u)[1];
    SplitWakes(m, Outs(u), Outs(u)[1..], Outs(u)[1..][1..], v, w, WokenOne(m, v), WokenOne(WokenOne(m, v), w));
  }

  lemma SplitWakes(m: Loop, outs: seq<nat>, tail: seq<nat>, none: seq<nat>, v: nat, w: nat, one: Loop, two: Loop)
    requires outs == [v, w] && tail == outs[1..] && none == tail[1..] && v < |m.refs| && w < |m.refs|
    requires one == WokenOne(m, v) && two == WokenOne(one, w)
    ensures Woken(m, outs) == two
  {
    WokenMore(m, outs, one, tail);
    WokenMore(one, tail, two, none);
    WokenNone(two, none);
  }

  lemma WokenNone(l: Loop, none: seq<nat>)
    requires none == []
    ensures Woken(l, none) == l
  {
  }

  /** The others have one. */
  lemma EarlyLaps(i: nat)
    requires i < 7 && i != 2
    ensures LapOk(i, Lap(i), SoloOrder()[i], Remains(Lap(i)), Lap(i + 1))
  {
    var l, u, rest := Lap(i), SoloOrder()[i], Remains(Lap(i));
    var m, v := Loop(l.refs, rest, l.pending - 1, Null), Outs(u)[0];
    WokenMore(m, Outs(u), WokenOne(m, v), []);
  }

  lemma LateLaps(i: nat)
    requires i == 8 || i == 9
    ensures LapOk(i, Lap(i), SoloOrder()[i], Remains(Lap(i)), Lap(i + 1))
  {
    var l, u, rest := Lap(i), SoloOrder()[i], Remains(Lap(i));
    var m, v := Loop(l.refs, rest, l.pending - 1, Null), Outs(u)[0];
    WokenMore(m, Outs(u), WokenOne(m, v), []);
  }

  lemma LapTurns(i: nat)
    requires i < UNITS
    ensures LapOk(i, Lap(i), SoloOrder()[i], Remains(Lap(i)), Lap(i + 1))
  {
    if i >= 11 {
      LastLaps(i);
    } else if i == 2 || i == 7 || i == 10 {
      SplitLaps(i);
    } else if i < 7 {
      EarlyLaps(i);
    } else {
      LateLaps(i);
    }
  }

  // ---------------------------------------------------------------- the whole run

  lemma LapLength(i: nat, u: nat)
    requires i < UNITS && u == SoloOrder()[i]
    ensures LapStart(i + 1) == LapStart(i) + |Outs(u)| + 5 && LapStart(i + 1) <= 79
  {
  }

  /** Before turn `i` the worker has run the first `i` units of the order. */
  ghost predicate LapBegins(path: seq<System>, i: nat, order: seq<nat>) {
    var holds :=
      && LapStart(i) < |path| && InLoop(path[LapStart(i)], Lap(i), Top(Lap(i).fwd))
      && path[LapStart(i)].order == order;
    holds
  }

  lemma LapRuns(n: nat, path: seq<System>, i: nat, order: seq<nat>, u: nat)
    requires i < UNITS && IsPath(n, path) && |path| == 81 && LapBegins(path, i, order) && u == SoloOrder()[i]
    ensures LapBegins(path, i + 1, order + [u])
  {
    LapLength(i, u);
    LapTurns(i);
    TurnAt(n, path, LapStart(i), Lap(i), u, Remains(Lap(i)), Lap(i + 1), LapStart(i + 1));
  }

  lemma {:induction false} LapsRun(n: nat, path: seq<System>, i: nat)
    requires i <= UNITS && IsPath(n, path) && |path| == 81 && path[0].c == Begin(1) && path[0].order == []
    ensures LapBegins(path, i, SoloOrder()[..i])
  {
    if i == 0 {
      FirstLap(path);
    } else {
      LapsRun(n, path, i - 1);
      LapRuns(n, path, i - 1, SoloOrder()[..i - 1], SoloOrder()[i - 1]);
      assert SoloOrder()[..i] == SoloOrder()[..i - 1] + [SoloOrder()[i - 1]];
    }
  }

  lemma FirstLap(path: seq<System>)
    requires |path| == 81 && path[0].c == Begin(1) && path[0].order == []
    ensures LapBegins(path, 0, [])
  {
  }

  lemma LastStep(n: nat, path: seq<System>, order: seq<nat>)
    requires IsPath(n, path) && |path| == 81 && LapBegins(path, UNITS, order)
    ensures path[80].c.workers == [Left] && path[80].order == order
  {
    assert StepAt(n, path, 79);
  }

  lemma {:induction false} SoloPath(n: nat, a: seq<int>, t: seq<int>, k: nat)
    returns (path: seq<System>, schedule: seq<nat>)
    ensures |path| == k + 1 && IsPath(n, path) && path[0] == Execution(n, a, t, 1, [])
    ensures path[k] == Execution(n, a, t, 1, schedule)
  {
    if k == 0 {
      schedule := [];
      path := [Execution(n, a, t, 1, schedule)];
    } else {
      var front, before := SoloPath(n, a, t, k - 1);
      schedule := before + [0];
      path := front + [Execution(n, a, t, 1, schedule)];
      MoreSteps(n, a, t, front, before, path, schedule);
    }
  }

  lemma MoreSteps(n: nat, a: seq<int>, t: seq<int>, front: seq<System>, before: seq<nat>,
                  path: seq<System>, schedule: seq<nat>)
    requires front != [] && IsPath(n, front) && front[|front| - 1] == Execution(n, a, t, 1, before)
    requires schedule == before + [0] && path == front + [Execution(n, a, t, 1, schedule)]
    ensures IsPath(n, path)
  {
    assert schedule[..|schedule| - 1] == before;
    forall k | 0 <= k < |path| - 1
      ensures StepAt(n, path, k)
    {
      assert k < |front| - 1 ==> StepAt(n, front, k);
    }
  }

  /** A gang of one runs the units in this order, whatever the size and the input, and leaves. */
  lemma SoloRuns(n: nat, a: seq<int>, t: seq<int>) returns (schedule: seq<nat>)
    ensures var sys := Execution(n, a, t, 1, schedule); sys.c.workers == [Left] && sys.order == SoloOrder()
  {
    var path;
    path, schedule := SoloPath(n, a, t, 80);
    LapsRun(n, path, UNITS);
    LastStep(n, path, SoloOrder()[..UNITS]);
  }
}
