/** Termination: a run holds only so many working steps, and from any state the work can be finished. */
module RuntimeTermination {
  // Every step of a worker is either a poll that finds nothing or work: taking a task, placing and pushing it under the
  // locks, going through its gang, committing it and waking its successors. What is left to do is counted task by task
  // and worker by worker, in such a way that each working step takes away at least one.

  import opened Runtime
  import opened RuntimeInvariant
  import opened RuntimeSteps
  import opened RuntimeQuiescence
  import opened RuntimeProgress

  predicate Works(l: Label) {
    l.Hand? || l.Gang? || l.Finish? || (l.Poll? && (l.poll.PopAssembly? || l.poll.PopOwn? || l.poll.StealFrom?))
  }

  function WorkCount(run: seq<Label>): nat {
    if run == [] then 0 else (if Works(run[0]) then 1 else 0) + WorkCount(run[1..])
  }

  // ---------------------------------------------------------------- what is left to do

  /** Steps of a worker until it has left the gang, or pushed and given back the locks it holds. */
  function PcLeft(p: Pc): int {
    match p
    case Locking(_, lo, i, _, _) => i - lo + 1
    case Pushing(_, lo, i, _, _) => i - lo
    case Unlocking(_, _, i, hi, _) => hi - i
    case Arriving(_) => 3
    case Spinning(_) => 2
    case Running(_) => 1
    case _ => 0
  }

  /** Steps for a task, besides those of its successors: seven for each worker of its place, which are a lock, a push, a
      release and the way through the gang, and five for the task as a whole. */
  function PhaseLeft(n: nat, task: Task): int {
    match task.phase
    case Created => 7 * n + 5
    case Woken(_) => 7 * n + 5
    case Ready(_) => 7 * n + 4
    case Held(_) => 7 * n + 3
    case Placing(_) => 7 * (task.leader + task.width - task.pushed) + 1
    case Placed => 1
    case Committing(_) => 1
    case Done => 0
  }

  /** What a task may take in all: one more step for each successor. */
  function Price(n: nat, task: Task): nat {
    7 * n + 5 + |task.out|
  }

  /** What has been done for it. */
  function Spent(n: nat, task: Task): int {
    7 * n + 5 - PhaseLeft(n, task) + task.released
  }

  function TotalPrice(n: nat, tasks: seq<Task>): nat {
    if tasks == [] then 0 else TotalPrice(n, tasks[..|tasks| - 1]) + Price(n, tasks[|tasks| - 1])
  }

  function TotalSpent(n: nat, tasks: seq<Task>): int {
    if tasks == [] then 0 else TotalSpent(n, tasks[..|tasks| - 1]) + Spent(n, tasks[|tasks| - 1])
  }

  function PcsLeft(pcs: seq<Pc>): int {
    if pcs == [] then 0 else PcsLeft(pcs[..|pcs| - 1]) + PcLeft(pcs[|pcs| - 1])
  }

  function Queued(queues: seq<seq<nat>>): nat {
    if queues == [] then 0 else Queued(queues[..|queues| - 1]) + |queues[|queues| - 1]|
  }

  /** The work behind a state: an entry of an assembly queue still has the pop and the way through the gang ahead. */
  function Progress(s: State): int {
    TotalSpent(s.n, s.tasks) - PcsLeft(s.pc) - 4 * Queued(s.assembly)
  }

  lemma {:induction false} SpentUpdate(n: nat, tasks: seq<Task>, t: nat, task: Task)
    requires t < |tasks|
    ensures TotalSpent(n, tasks[t := task]) == TotalSpent(n, tasks) - Spent(n, tasks[t]) + Spent(n, task)
  {
    var b, last := tasks[t := task], |tasks| - 1;
    if t == last {
      assert b[..last] == tasks[..last];
    } else {
      assert b[..last] == tasks[..last][t := task];
      SpentUpdate(n, tasks[..last], t, task);
    }
  }

  lemma {:induction false} PcsUpdate(pcs: seq<Pc>, w: nat, p: Pc)
    requires w < |pcs|
    ensures PcsLeft(pcs[w := p]) == PcsLeft(pcs) - PcLeft(pcs[w]) + PcLeft(p)
  {
    var b, last := pcs[w := p], |pcs| - 1;
    if w == last {
      assert b[..last] == pcs[..last];
    } else {
      assert b[..last] == pcs[..last][w := p];
      PcsUpdate(pcs[..last], w, p);
    }
  }

  lemma {:induction false} QueuedUpdate(queues: seq<seq<nat>>, w: nat, q: seq<nat>)
    requires w < |queues|
    ensures Queued(queues[w := q]) == Queued(queues) - |queues[w]| + |q|
  {
    var b, last := queues[w := q], |queues| - 1;
    if w == last {
      assert b[..last] == queues[..last];
    } else {
      assert b[..last] == queues[..last][w := q];
      QueuedUpdate(queues[..last], w, q);
    }
  }

  lemma {:induction false} NothingQueued(n: nat)
    ensures PcsLeft(seq(n, _ => Top)) == 0 && Queued(seq(n, _ => [])) == 0
  {
    if n > 0 {
      NothingQueued(n - 1);
      var p, q := seq<Pc>(n, _ => Top), seq<seq<nat>>(n, _ => []);
      assert p[..n - 1] == seq<Pc>(n - 1, _ => Top);
      assert q[..n - 1] == seq<seq<nat>>(n - 1, _ => []);
    }
  }

  // ---------------------------------------------------------------- no task and no worker is overspent

  lemma TaskAffords(s: State, t: nat)
    requires Inv(s) && t < |s.tasks|
    ensures Spent(s.n, s.tasks[t]) <= Price(s.n, s.tasks[t])
  {
    var task := s.tasks[t];
    assert TaskOk(s, t);
    match task.phase {
      case Placing(w) => assert PcOk(s, w);
      case Committing(w) => ReleasedSome(s, t, w);
      case _ =>
    }
  }

  lemma ReleasedSome(s: State, t: nat, w: nat)
    requires Inv(s) && t < |s.tasks| && s.tasks[t].phase == Committing(w)
    ensures s.tasks[t].released <= |s.tasks[t].out|
  {
    assert TaskOk(s, t);
    assert PcOk(s, w);
  }

  lemma PcHolds(s: State, w: nat)
    requires Inv(s) && w < s.n
    ensures PcLeft(s.pc[w]) >= 0
  {
    assert PcOk(s, w);
  }

  lemma {:induction false} AllAfford(n: nat, tasks: seq<Task>)
    requires forall t :: 0 <= t < |tasks| ==> Spent(n, tasks[t]) <= Price(n, tasks[t])
    ensures TotalSpent(n, tasks) <= TotalPrice(n, tasks)
  {
    if tasks != [] {
      AllAfford(n, tasks[..|tasks| - 1]);
    }
  }

  lemma {:induction false} AllHold(pcs: seq<Pc>)
    requires forall w :: 0 <= w < |pcs| ==> PcLeft(pcs[w]) >= 0
    ensures PcsLeft(pcs) >= 0
  {
    if pcs != [] {
      AllHold(pcs[..|pcs| - 1]);
    }
  }

  lemma ProgressBounded(s: State)
    requires Inv(s)
    ensures Progress(s) <= TotalPrice(s.n, s.tasks)
  {
    forall t | 0 <= t < |s.tasks|
      ensures Spent(s.n, s.tasks[t]) <= Price(s.n, s.tasks[t])
    {
      TaskAffords(s, t);
    }
    forall w | 0 <= w < |s.pc|
      ensures PcLeft(s.pc[w]) >= 0
    {
      PcHolds(s, w);
    }
    AllAfford(s.n, s.tasks);
    AllHold(s.pc);
  }

  // ---------------------------------------------------------------- every working step is progress

  lemma OneTask(s: State, s': State, t: nat, w: nat)
    requires t < |s.tasks| && w < |s.pc| && |s'.tasks| == |s.tasks| && |s'.pc| == |s.pc| && s'.n == s.n
    requires s'.tasks == s.tasks[t := s'.tasks[t]] && s'.pc == s.pc[w := s'.pc[w]] && s'.assembly == s.assembly
    ensures Progress(s') == Progress(s) + (Spent(s.n, s'.tasks[t]) - Spent(s.n, s.tasks[t]))
                            - (PcLeft(s'.pc[w]) - PcLeft(s.pc[w]))
  {
    SpentUpdate(s.n, s.tasks, t, s'.tasks[t]);
    PcsUpdate(s.pc, w, s'.pc[w]);
  }

  lemma TwoTasks(s: State, s': State, t: nat, u: nat, w: nat)
    requires t < |s.tasks| && u < |s.tasks| && t != u && w < |s.pc| && |s'.tasks| == |s.tasks| && s'.n == s.n
    requires forall x :: 0 <= x < |s.tasks| && x != t && x != u ==> s'.tasks[x] == s.tasks[x]
    requires |s'.pc| == |s.pc| && s'.pc == s.pc[w := s'.pc[w]] && s'.assembly == s.assembly
    ensures Progress(s') == Progress(s) + (Spent(s.n, s'.tasks[t]) - Spent(s.n, s.tasks[t]))
                            + (Spent(s.n, s'.tasks[u]) - Spent(s.n, s.tasks[u])) - (PcLeft(s'.pc[w]) - PcLeft(s.pc[w]))
  {
    var mid := s.tasks[t := s'.tasks[t]];
    SpentUpdate(s.n, s.tasks, t, s'.tasks[t]);
    SpentUpdate(s.n, mid, u, s'.tasks[u]);
    assert s'.tasks == mid[u := s'.tasks[u]];
    PcsUpdate(s.pc, w, s'.pc[w]);
  }

  lemma OnePush(s: State, s': State, t: nat, w: nat, q: nat)
    requires t < |s.tasks| && w < |s.pc| && q < |s.assembly| && |s'.tasks| == |s.tasks| && |s'.pc| == |s.pc|
    requires s'.n == s.n && s'.tasks == s.tasks[t := s'.tasks[t]] && s'.pc == s.pc[w := s'.pc[w]]
    requires s'.assembly == s.assembly[q := s.assembly[q] + [t]]
    ensures Progress(s') == Progress(s) + (Spent(s.n, s'.tasks[t]) - Spent(s.n, s.tasks[t]))
                            - (PcLeft(s'.pc[w]) - PcLeft(s.pc[w])) - 4
  {
    SpentUpdate(s.n, s.tasks, t, s'.tasks[t]);
    PcsUpdate(s.pc, w, s'.pc[w]);
    QueuedUpdate(s.assembly, q, s.assembly[q] + [t]);
  }

  lemma OnlyPc(s: State, s': State, w: nat)
    requires w < |s.pc| && |s'.pc| == |s.pc| && s'.n == s.n && s'.tasks == s.tasks
    requires s'.pc == s.pc[w := s'.pc[w]] && s'.assembly == s.assembly
    ensures Progress(s') == Progress(s) - (PcLeft(s'.pc[w]) - PcLeft(s.pc[w]))
  {
    PcsUpdate(s.pc, w, s'.pc[w]);
  }

  lemma EdgeProgress(s: State, a: nat, b: nat)
    requires a < |s.tasks| && b < |s.tasks| && a != b
    ensures Progress(ApplyEdge(s, a, b)) == Progress(s)
  {
    var ta, tb := ApplyEdge(s, a, b).tasks[a], ApplyEdge(s, a, b).tasks[b];
    SpentUpdate(s.n, s.tasks, a, ta);
    SpentUpdate(s.n, s.tasks[a := ta], b, tb);
    assert ApplyEdge(s, a, b).tasks == s.tasks[a := ta][b := tb];
  }

  lemma ClientProgress(s: State, who: Actor, act: ClientAct)
    requires Inv(s) && EnabledClient(s, who, act)
    ensures Progress(ApplyClient(s, who, act)) >= Progress(s)
  {
    var s' := ApplyClient(s, who, act);
    match act {
      case Create(kind, critical, _) => assert s'.tasks[..|s'.tasks| - 1] == s.tasks;
      case MakeEdge(a, b) => EdgeProgress(s, a, b);
      case PushTask(t, _) => SpentUpdate(s.n, s.tasks, t, s'.tasks[t]);
      case Fini =>
    }
  }

  lemma TakeProgress(s: State, w: nat, q: nat)
    requires Inv(s) && w < s.n && q < s.n && Idle(s.pc[w]) && s.ready[q] != [] && Last(s.ready[q]) < |s.tasks|
    ensures Progress(ApplyTake(s, w, q)) > Progress(s)
  {
    var t := Last(s.ready[q]);
    assert ReadyOk(s, q);
    assert t in s.ready[q];
    OneTask(s, ApplyTake(s, w, q), t, w);
  }

  lemma PopProgress(s: State, w: nat)
    requires Inv(s) && w < s.n && s.pc[w].Top? && s.assembly[w] != []
    ensures Progress(ApplyPopAssembly(s, w)) > Progress(s)
  {
    PcsUpdate(s.pc, w, Arriving(s.assembly[w][0]));
    QueuedUpdate(s.assembly, w, s.assembly[w][1..]);
  }

  lemma PollProgress(s: State, w: nat, act: PollAct)
    requires Inv(s) && At(s, w) && EnabledPoll(s, w, act)
    ensures Progress(ApplyPoll(s, w, act)) >= Progress(s) + if Works(Poll(w, act)) then 1 else 0
  {
    match act {
      case PopAssembly => PopProgress(s, w);
      case PopOwn => TakeProgress(s, w, w);
      case StealFrom(q) => TakeProgress(s, w, q);
      case _ => OnlyPc(s, ApplyPoll(s, w, act), w);
    }
  }

  lemma PlaceProgress(s: State, w: nat, t: nat, leader: nat, width: nat, c: Cont)
    requires w < s.n && Sized(s) && t < |s.tasks| && ValidPlace(s, leader, width) && PcLeft(s.pc[w]) == 0
    requires s.tasks[t].phase.Held? || s.tasks[t].phase.Woken?
    ensures Progress(ApplyPlace(s, w, t, leader, width, c)) > Progress(s)
  {
    OneTask(s, ApplyPlace(s, w, t, leader, width, c), t, w);
  }

  lemma PushProgress(s: State, w: nat)
    requires Inv(s) && At(s, w) && s.pc[w].Pushing?
    ensures Progress(ApplyPushOne(s, w)) > Progress(s)
  {
    if s.pc[w].i + 1 < s.pc[w].hi {
      PushMiddleProgress(s, w);
    } else {
      PushLastProgress(s, w);
    }
  }

  lemma PushMiddleProgress(s: State, w: nat)
    requires Inv(s) && At(s, w) && s.pc[w].Pushing? && s.pc[w].i + 1 < s.pc[w].hi
    ensures Progress(PushMiddle(s, w)) > Progress(s)
  {
    assert PcOk(s, w);
    OnePush(s, PushMiddle(s, w), s.pc[w].t, w, s.pc[w].i);
  }

  lemma PushLastProgress(s: State, w: nat)
    requires Inv(s) && At(s, w) && s.pc[w].Pushing? && s.pc[w].i + 1 >= s.pc[w].hi
    ensures Progress(PushLast(s, w)) > Progress(s)
  {
    assert PcOk(s, w);
    OnePush(s, PushLast(s, w), s.pc[w].t, w, s.pc[w].i);
  }

  lemma HandProgress(s: State, w: nat, act: HandAct)
    requires Inv(s) && At(s, w) && EnabledHand(s, w, act)
    ensures Progress(ApplyHand(s, w, act)) > Progress(s)
  {
    assert PcOk(s, w);
    match act {
      case RunSimple => OneTask(s, ApplyRunSimple(s, w), s.pc[w].t, w);
      case Place(leader, width) => PlaceProgress(s, w, s.pc[w].t, leader, width, ToTop);
      case Acquire => OnlyPc(s, ApplyAcquire(s, w), w);
      case PushOne => PushProgress(s, w);
      case Release => OnlyPc(s, ApplyRelease(s, w), w);
    }
  }

  lemma GangStepProgress(s: State, w: nat, act: GangAct)
    requires Inv(s) && At(s, w) && EnabledGang(s, w, act)
    ensures Progress(ApplyGang(s, w, act)) > Progress(s)
  {
    assert PcGang(s, w);
    OneTask(s, ApplyGang(s, w, act), s.pc[w].t, w);
  }

  lemma DropProgress(s: State, w: nat)
    requires Inv(s) && At(s, w) && s.pc[w].Commit? && s.pc[w].k < |s.tasks[s.pc[w].t].out|
    ensures Progress(ApplyDrop(s, w)) > Progress(s)
  {
    DropEffect(s, w);
    var s', t := ApplyDrop(s, w), s.pc[w].t;
    var u := s.tasks[t].out[s.pc[w].k];
    TwoTasks(s, s', t, u, w);
  }

  lemma WakeProgress(s: State, w: nat, q: nat)
    requires Inv(s) && At(s, w) && s.pc[w].Wake? && q < s.n
    ensures Progress(SetPc(ApplyReady(s, Successor(s, w), q), w, Commit(s.pc[w].t, s.pc[w].k + 1))) > Progress(s)
  {
    var s' := SetPc(ApplyReady(s, Successor(s, w), q), w, Commit(s.pc[w].t, s.pc[w].k + 1));
    assert PcOk(s, w);
    OneTask(s, s', Successor(s, w), w);
  }

  lemma CommitProgress(s: State, w: nat, act: CommitAct)
    requires Inv(s) && At(s, w) && EnabledCommit(s, w, act)
    ensures Progress(ApplyCommit(s, w, act)) > Progress(s)
  {
    assert PcOk(s, w);
    match act {
      case Drop => DropProgress(s, w);
      case Retire => OneTask(s, ApplyRetire(s, w), s.pc[w].t, w);
      case WakeReady(q) => WakeProgress(s, w, q);
      case WakeCritical(leader, width) =>
        PlaceProgress(s, w, Successor(s, w), leader, width, ToCommit(s.pc[w].t, s.pc[w].k + 1));
    }
  }

  lemma StepProgress(s: State, l: Label)
    requires Inv(s) && Enabled(s, l)
    ensures Progress(Apply(s, l)) >= Progress(s) + if Works(l) then 1 else 0
  {
    match l {
      case Client(who, act) => ClientProgress(s, who, act);
      case Poll(w, act) => PollProgress(s, w, act);
      case Hand(w, act) => HandProgress(s, w, act);
      case Gang(w, act) => GangStepProgress(s, w, act);
      case Finish(w, act) => CommitProgress(s, w, act);
    }
  }

  lemma {:induction false} RunProgress(s: State, run: seq<Label>)
    requires Inv(s) && IsRun(s, run)
    ensures Inv(Final(s, run)) && Progress(Final(s, run)) >= Progress(s) + WorkCount(run)
    decreases |run|
  {
    if run != [] {
      StepProgress(s, run[0]);
      StepKeepsInv(s, run[0]);
      RunProgress(Apply(s, run[0]), run[1..]);
    }
  }

  /** In every run the working steps are at most what the tasks created in it may take: 7 * n + 5 for each task, with n
      workers, and one for each edge. */
  lemma WorkIsBounded(n: nat, run: seq<Label>)
    requires IsRun(Init(n), run)
    ensures WorkCount(run) <= TotalPrice(n, Final(Init(n), run).tasks)
  {
    InitInv(n);
    NothingQueued(n);
    RunProgress(Init(n), run);
    WorkersStay(Init(n), run);
    ProgressBounded(Final(Init(n), run));
  }

  lemma StepWorkers(s: State, l: Label)
    requires Enabled(s, l)
    ensures Apply(s, l).n == s.n
  {
  }

  lemma {:induction false} WorkersStay(s: State, run: seq<Label>)
    requires IsRun(s, run)
    ensures Final(s, run).n == s.n
    decreases |run|
  {
    if run != [] {
      StepWorkers(s, run[0]);
      WorkersStay(Apply(s, run[0]), run[1..]);
    }
  }

  // ---------------------------------------------------------------- work can always be found, and finished

  ghost predicate WorkersOnly(run: seq<Label>) {
    forall k :: 0 <= k < |run| ==> !run[k].Client?
  }

  /** Polls that worker `w` makes before it finds the task in one of its own queues. */
  function PollsAhead(s: State, w: nat): nat
    requires Sized(s) && w < s.n
  {
    match s.pc[w]
    case Top => if s.assembly[w] != [] then 0 else 1
    case OwnReady => if s.ready[w] != [] then 0 else 5
    case Check => if s.assembly[w] != [] then 1 else 2
    case FlushPool => if s.assembly[w] != [] then 2 else 3
    case FlushCompletions => if s.assembly[w] != [] then 3 else 4
    case Steal => if s.assembly[w] != [] then 4 else 5
    case _ => 0
  }

  lemma StillPending(s: State, w: nat)
    requires Inv(s) && w < s.n && (s.assembly[w] != [] || s.ready[w] != [])
    ensures s.pending > 0
  {
    PendingZero(s);
  }

  /** A poll that finds nothing leaves the queues alone and brings the worker nearer to the one that finds something. */
  lemma PollOnce(s: State, w: nat)
    requires Inv(s) && w < s.n && CanAdvance(s, w) && At(s, w) && Enabled(s, NextStep(s, w)) && !Works(NextStep(s, w))
    ensures var s' := Apply(s, NextStep(s, w));
            Inv(s') && s'.n == s.n && CanAdvance(s', w) && PollsAhead(s', w) < PollsAhead(s, w)
  {
    StillPending(s, w);
    StepKeepsInv(s, NextStep(s, w));
  }

  /** A worker that can advance does a working step of its own after at most five polls. */
  lemma {:induction false} WorkSoon(s: State, w: nat) returns (run: seq<Label>)
    requires Inv(s) && w < s.n && CanAdvance(s, w)
    ensures IsRun(s, run) && WorkersOnly(run) && WorkCount(run) == 1 && |run| <= 1 + PollsAhead(s, w)
    decreases PollsAhead(s, w)
  {
    AdvanceIsEnabled(s, w);
    var l := NextStep(s, w);
    if Works(l) {
      run := [l];
      assert run[1..] == [];
    } else {
      PollOnce(s, w);
      var rest := WorkSoon(Apply(s, l), w);
      run := [l] + rest;
      assert run[1..] == rest;
    }
  }

  /** The task keeps its edges and does not become unreleased again. */
  predicate SameEdges(a: Task, b: Task) {
    b.out == a.out && b.indegree == a.indegree && (b.phase.Created? ==> a.phase.Created?)
  }

  ghost predicate SameGraph(s: State, s': State) {
    && s'.n == s.n && |s'.tasks| == |s.tasks|
    && forall t :: 0 <= t < |s.tasks| ==> SameEdges(s.tasks[t], s'.tasks[t])
  }

  lemma HandGraph(s: State, w: nat, act: HandAct)
    requires At(s, w) && EnabledHand(s, w, act)
    ensures SameGraph(s, ApplyHand(s, w, act))
  {
  }

  lemma DropGraph(s: State, w: nat)
    requires At(s, w) && s.pc[w].Commit? && s.pc[w].k < |s.tasks[s.pc[w].t].out|
    ensures SameGraph(s, ApplyDrop(s, w))
  {
    var t, k := s.pc[w].t, s.pc[w].k;
    var u := s.tasks[t].out[k];
    ReleaseGraph(s, t, k, if s.tasks[u].refcount == 1 then Woken(w) else s.tasks[u].phase);
  }

  lemma ReleaseGraph(s: State, t: nat, k: nat, phase: Phase)
    requires t < |s.tasks| && k < |s.tasks[t].out| && s.tasks[t].out[k] < |s.tasks|
    requires phase.Created? ==> s.tasks[s.tasks[t].out[k]].phase.Created?
    ensures SameGraph(s, ReleaseEdge(s, t, k, phase))
  {
  }

  lemma CommitGraph(s: State, w: nat, act: CommitAct)
    requires At(s, w) && EnabledCommit(s, w, act)
    ensures SameGraph(s, ApplyCommit(s, w, act))
  {
    if act.Drop? {
      DropGraph(s, w);
    }
  }

  lemma GangGraph(s: State, w: nat, act: GangAct)
    requires At(s, w) && EnabledGang(s, w, act)
    ensures SameGraph(s, ApplyGang(s, w, act))
  {
  }

  lemma PollGraph(s: State, w: nat, act: PollAct)
    requires At(s, w) && EnabledPoll(s, w, act)
    ensures SameGraph(s, ApplyPoll(s, w, act))
  {
  }

  /** Steps of the workers leave the graph as it is. */
  lemma StepGraph(s: State, l: Label)
    requires Enabled(s, l) && !l.Client?
    ensures SameGraph(s, Apply(s, l))
  {
    match l {
      case Poll(w, act) => PollGraph(s, w, act);
      case Hand(w, act) => HandGraph(s, w, act);
      case Gang(w, act) => GangGraph(s, w, act);
      case Finish(w, act) => CommitGraph(s, w, act);
    }
  }

  lemma {:induction false} RunGraph(s: State, run: seq<Label>)
    requires IsRun(s, run) && WorkersOnly(run)
    ensures SameGraph(s, Final(s, run))
    decreases |run|
  {
    if run != [] {
      StepGraph(s, run[0]);
      RunGraph(Apply(s, run[0]), run[1..]);
    }
  }

  lemma {:induction false} SamePrice(n: nat, a: seq<Task>, b: seq<Task>)
    requires |a| == |b| && forall t :: 0 <= t < |a| ==> a[t].out == b[t].out
    ensures TotalPrice(n, a) == TotalPrice(n, b)
  {
    if a != [] {
      SamePrice(n, a[..|a| - 1], b[..|b| - 1]);
    }
  }

  /** What is still left of the price of all tasks. */
  function WorkLeft(s: State): int {
    TotalPrice(s.n, s.tasks) - Progress(s)
  }

  /** From every state with the invariant, so every one that runs reach, with an acyclic graph whose sources have been
      pushed, the workers alone can commit every task, in at most six steps for each step that the price of the tasks
      still allows. */
  lemma {:induction false} CanFinish(s: State, rank: nat -> nat) returns (run: seq<Label>)
    requires Inv(s) && Ranked(s, rank) && SourcesPushed(s)
    ensures IsRun(s, run) && WorkersOnly(run) && |run| <= 6 * WorkLeft(s)
    ensures forall t: nat :: t < |Final(s, run).tasks| ==> Final(s, run).tasks[t].phase.Done?
    decreases WorkLeft(s)
  {
    ProgressBounded(s);
    run := [];
    if t: nat :| t < |s.tasks| && !s.tasks[t].phase.Done? {
      DeadlockFreedom(s, rank, t);
      var w: nat :| w < s.n && CanAdvance(s, w);
      var one := WorkSoon(s, w);
      var s' := WorkDone(s, rank, one);
      var more := CanFinish(s', rank);
      RunConcat(s, one, more);
      run := one + more;
    }
  }

  lemma WorkDone(s: State, rank: nat -> nat, run: seq<Label>) returns (s': State)
    requires Inv(s) && Ranked(s, rank) && SourcesPushed(s) && IsRun(s, run) && WorkersOnly(run) && WorkCount(run) == 1
    ensures s' == Final(s, run) && Inv(s') && Ranked(s', rank) && SourcesPushed(s') && WorkLeft(s') < WorkLeft(s)
    ensures WorkLeft(s') >= 0
  {
    s' := Final(s, run);
    RunProgress(s, run);
    RunGraph(s, run);
    SamePrice(s.n, s.tasks, s'.tasks);
    ProgressBounded(s');
  }
}
