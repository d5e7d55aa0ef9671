/** Whole runs: every task is distributed, executed and committed exactly once, after its predecessors. */
module RuntimeRuns {
  // The state records what has happened to each task. A step that completes a worker's part of a task, pushes a task
  // on an assembly queue or commits a task finds that this has not happened before, and records it; all other steps
  // leave the records alone. By induction the number of times a run produces such an event is one if the final state
  // records it, and zero otherwise.

  import opened Runtime
  import opened RuntimeInvariant
  import opened RuntimeSteps
  import opened RuntimeQuiescence
  import opened RuntimeProgress

  /** What an observer of a run counts. */
  datatype Event =
    | Executed(task: nat, worker: nat)
    | PushedOn(task: nat, queue: nat)
    | Committed(task: nat)

  /** The event that a step produces, if any: a worker completes its part of a task, a task is pushed on one
      assembly queue, or a task is committed. */
  predicate Produces(s: State, l: Label, e: Event)
    requires Enabled(s, l)
  {
    match e
    case Executed(t, w) => (l == Gang(w, Leave) || l == Hand(w, RunSimple)) && s.pc[w].t == t
    case PushedOn(t, i) => l.Hand? && l.hand.PushOne? && s.pc[l.w].t == t && s.pc[l.w].i == i
    case Committed(t) => l.Finish? && l.finish.Retire? && s.pc[l.w].t == t
  }

  /** How often a run produces an event. */
  function Count(s: State, run: seq<Label>, e: Event): nat
    requires IsRun(s, run)
    decreases |run|
  {
    if run == [] then 0
    else (if Produces(s, run[0], e) then 1 else 0) + Count(Apply(s, run[0]), run[1..], e)
  }

  /** What the state has recorded about an event. */
  ghost predicate Happened(s: State, e: Event) {
    match e
    case Executed(t, w) => t < |s.tasks| && w in s.tasks[t].finished
    case PushedOn(t, i) =>
      && t < |s.tasks| && s.tasks[t].kind.Assembly? && s.tasks[t].leader <= i < s.tasks[t].pushed
      && (InQueues(s.tasks[t]) || s.tasks[t].phase.Committing? || s.tasks[t].phase.Done?)
    case Committed(t) => t < |s.tasks| && s.tasks[t].phase.Done?
  }

  /** A step produces an event only if it has not happened before, and then it has happened. */
  ghost predicate Fresh(s: State, l: Label, e: Event)
    requires Enabled(s, l)
  {
    var holds :=
      if Produces(s, l, e) then !Happened(s, e) && Happened(Apply(s, l), e)
      else Happened(s, e) == Happened(Apply(s, l), e);
    holds
  }

  /** Unchanged records of the task concerned. */
  predicate SameRecord(a: Task, b: Task) {
    && a.kind == b.kind && a.finished == b.finished && a.leader == b.leader && a.pushed == b.pushed
    && a.phase.Done? == b.phase.Done? && InQueues(a) == InQueues(b) && a.phase.Committing? == b.phase.Committing?
  }

  lemma RecordFrame(s: State, s': State, e: Event)
    requires |s.tasks| <= |s'.tasks|
    requires e.task < |s.tasks| ==> SameRecord(s.tasks[e.task], s'.tasks[e.task])
    requires |s.tasks| <= e.task < |s'.tasks| ==>
               s'.tasks[e.task].finished == {} && s'.tasks[e.task].phase.Created?
    ensures Happened(s, e) == Happened(s', e)
  {
  }

  lemma ClientFresh(s: State, who: Actor, act: ClientAct, e: Event)
    requires Inv(s) && EnabledClient(s, who, act)
    ensures Fresh(s, Client(who, act), e)
  {
    match act {
      case Create(kind, critical, p) => CreateRecord(s, kind, critical, p, e);
      case MakeEdge(a, b) => EdgeRecord(s, who, a, b, e);
      case PushTask(t, q) => PushRecord(s, t, q, e);
      case Fini =>
    }
  }

  lemma CreateRecord(s: State, kind: Kind, critical: bool, p: nat, e: Event)
    requires p < |s.pool|
    ensures Happened(s, e) == Happened(ApplyCreate(s, kind, critical, p), e)
  {
    RecordFrame(s, ApplyCreate(s, kind, critical, p), e);
  }

  lemma PushRecord(s: State, t: nat, q: nat, e: Event)
    requires t < |s.tasks| && q < |s.ready| && s.tasks[t].phase.Created?
    ensures Happened(s, e) == Happened(ApplyReady(s, t, q), e)
  {
    RecordFrame(s, ApplyReady(s, t, q), e);
  }

  lemma EdgeRecord(s: State, who: Actor, a: nat, b: nat, e: Event)
    requires EnabledClient(s, who, MakeEdge(a, b))
    ensures Happened(s, e) == Happened(ApplyEdge(s, a, b), e)
  {
  }

  lemma PollFresh(s: State, w: nat, act: PollAct, e: Event)
    requires Inv(s) && At(s, w) && EnabledPoll(s, w, act)
    ensures Fresh(s, Poll(w, act), e)
  {
    match act {
      case PopOwn => TakeFresh(s, w, w, Poll(w, act), e);
      case StealFrom(q) => TakeFresh(s, w, q, Poll(w, act), e);
      case _ => RecordFrame(s, Apply(s, Poll(w, act)), e);
    }
  }

  lemma TakeFresh(s: State, w: nat, q: nat, l: Label, e: Event)
    requires Inv(s) && At(s, w) && q < s.n && s.ready[q] != [] && Last(s.ready[q]) < |s.tasks|
    requires l.Poll? && Enabled(s, l) && Apply(s, l) == ApplyTake(s, w, q)
    ensures Fresh(s, l, e)
  {
    assert ReadyOk(s, q);
    assert Last(s.ready[q]) in s.ready[q];
    RecordFrame(s, Apply(s, l), e);
  }

  lemma HandFresh(s: State, w: nat, act: HandAct, e: Event)
    requires Inv(s) && At(s, w) && EnabledHand(s, w, act)
    ensures Fresh(s, Hand(w, act), e)
  {
    assert PcOk(s, w);
    match act {
      case RunSimple =>
        assert TaskOk(s, s.pc[w].t);
      case Place(leader, width) =>
        assert TaskOk(s, s.pc[w].t);
      case PushOne => PushFresh(s, w, e);
      case Acquire => RecordFrame(s, Apply(s, Hand(w, act)), e);
      case Release => RecordFrame(s, Apply(s, Hand(w, act)), e);
    }
  }

  lemma PushFresh(s: State, w: nat, e: Event)
    requires Inv(s) && At(s, w) && EnabledHand(s, w, PushOne)
    ensures Fresh(s, Hand(w, PushOne), e)
  {
    if s.pc[w].i + 1 < s.pc[w].hi {
      PushMiddleFresh(s, w, e);
    } else {
      PushLastFresh(s, w, e);
    }
  }

  lemma PushMiddleFresh(s: State, w: nat, e: Event)
    requires Inv(s) && At(s, w) && EnabledHand(s, w, PushOne) && s.pc[w].i + 1 < s.pc[w].hi
    ensures Fresh(s, Hand(w, PushOne), e)
  {
    assert PcOk(s, w);
    assert Apply(s, Hand(w, PushOne)) == PushMiddle(s, w);
  }

  lemma PushLastFresh(s: State, w: nat, e: Event)
    requires Inv(s) && At(s, w) && EnabledHand(s, w, PushOne) && s.pc[w].i + 1 >= s.pc[w].hi
    ensures Fresh(s, Hand(w, PushOne), e)
  {
    assert PcOk(s, w);
    assert Apply(s, Hand(w, PushOne)) == PushLast(s, w);
  }

  lemma GangFresh(s: State, w: nat, act: GangAct, e: Event)
    requires Inv(s) && At(s, w) && EnabledGang(s, w, act)
    ensures Fresh(s, Gang(w, act), e)
  {
    assert PcGang(s, w);
    match act {
      case Leave => LeaveFresh(s, w, e);
      case _ => RecordFrame(s, Apply(s, Gang(w, act)), e);
    }
  }

  lemma LeaveFresh(s: State, w: nat, e: Event)
    requires Inv(s) && At(s, w) && EnabledGang(s, w, Leave)
    ensures Fresh(s, Gang(w, Leave), e)
  {
    assert PcGang(s, w);
  }

  lemma CommitFresh(s: State, w: nat, act: CommitAct, e: Event)
    requires Inv(s) && At(s, w) && EnabledCommit(s, w, act)
    ensures Fresh(s, Finish(w, act), e)
  {
    assert PcOk(s, w);
    match act {
      case Drop => DropFresh(s, w, e);
      case Retire => RetireFresh(s, w, e);
      case WakeReady(q) => WakeReadyFresh(s, w, q, e);
      case WakeCritical(leader, width) => WakeCriticalFresh(s, w, leader, width, e);
    }
  }

  lemma DropFresh(s: State, w: nat, e: Event)
    requires Inv(s) && At(s, w) && EnabledCommit(s, w, Drop)
    ensures Fresh(s, Finish(w, Drop), e)
  {
    DropEffect(s, w);
    var t := s.pc[w].t;
    var u := s.tasks[t].out[s.pc[w].k];
    assert Apply(s, Finish(w, Drop)) == ApplyDrop(s, w);
    assert e.task < |s.tasks| && e.task != t && e.task != u ==> ApplyDrop(s, w).tasks[e.task] == s.tasks[e.task];
    RecordFrame(s, Apply(s, Finish(w, Drop)), e);
  }

  lemma RetireFresh(s: State, w: nat, e: Event)
    requires Inv(s) && At(s, w) && EnabledCommit(s, w, Retire)
    ensures Fresh(s, Finish(w, Retire), e)
  {
    assert PcOk(s, w);
  }

  lemma WakeReadyFresh(s: State, w: nat, q: nat, e: Event)
    requires Inv(s) && At(s, w) && EnabledCommit(s, w, WakeReady(q))
    ensures Fresh(s, Finish(w, WakeReady(q)), e)
  {
    var u := Successor(s, w);
    assert PcOk(s, w);
    var s' := Apply(s, Finish(w, WakeReady(q)));
    assert s'.tasks == s.tasks[u := s.tasks[u].(phase := Ready(q))];
    RecordFrame(s, Apply(s, Finish(w, WakeReady(q))), e);
  }

  lemma WakeCriticalFresh(s: State, w: nat, leader: nat, width: nat, e: Event)
    requires Inv(s) && At(s, w) && EnabledCommit(s, w, WakeCritical(leader, width))
    ensures Fresh(s, Finish(w, WakeCritical(leader, width)), e)
  {
    var u := Successor(s, w);
    assert PcOk(s, w);
    assert TaskOk(s, u);
    PlaceRecord(s, w, u, leader, width, ToCommit(s.pc[w].t, s.pc[w].k + 1), e);
  }

  lemma PlaceRecord(s: State, w: nat, u: nat, leader: nat, width: nat, c: Cont, e: Event)
    requires w < |s.pc| && u < |s.tasks| && s.tasks[u].phase.Woken?
    ensures Happened(s, e) == Happened(ApplyPlace(s, w, u, leader, width, c), e)
  {
    var s' := ApplyPlace(s, w, u, leader, width, c);
    if e.task != u {
      RecordFrame(s, s', e);
    }
  }

  lemma StepFresh(s: State, l: Label, e: Event)
    requires Inv(s) && Enabled(s, l)
    ensures Fresh(s, l, e)
  {
    match l {
      case Client(who, act) => ClientFresh(s, who, act, e);
      case Poll(w, act) => PollFresh(s, w, act, e);
      case Hand(w, act) => HandFresh(s, w, act, e);
      case Gang(w, act) => GangFresh(s, w, act, e);
      case Finish(w, act) => CommitFresh(s, w, act, e);
    }
  }

  /** Over any run an event is produced once if the run makes it happen, and never otherwise. */
  lemma {:induction false} CountIsRecord(s: State, run: seq<Label>, e: Event)
    requires Inv(s) && IsRun(s, run)
    ensures Count(s, run, e) == (if Happened(Final(s, run), e) then 1 else 0) - (if Happened(s, e) then 1 else 0)
    decreases |run|
  {
    if run != [] {
      StepFresh(s, run[0], e);
      StepKeepsInv(s, run[0]);
      CountIsRecord(Apply(s, run[0]), run[1..], e);
    }
  }

  lemma ReachedInv(n: nat, run: seq<Label>)
    requires IsRun(Init(n), run)
    ensures Inv(Final(Init(n), run))
  {
    InitInv(n);
    RunKeepsInv(Init(n), run);
  }

  lemma CountFromStart(n: nat, run: seq<Label>, e: Event)
    requires IsRun(Init(n), run)
    ensures Inv(Final(Init(n), run)) && Count(Init(n), run, e) == if Happened(Final(Init(n), run), e) then 1 else 0
  {
    InitInv(n);
    RunKeepsInv(Init(n), run);
    CountIsRecord(Init(n), run, e);
  }

  lemma DoneHappened(s: State, t: nat, w: nat)
    requires Inv(s) && t < |s.tasks| && s.tasks[t].phase.Done?
    ensures Happened(s, Executed(t, w)) <==> w in Members(s.tasks[t])
    ensures s.tasks[t].kind.Assembly? ==> (Happened(s, PushedOn(t, w)) <==> w in Members(s.tasks[t]))
  {
    assert TaskOk(s, t);
  }

  /** Exactly once: in every run from the start, a committed task has been executed once by each worker of its
      place and by no other, committed once, and (unless it is a simple task) pushed once on each assembly queue
      of its place and on no other; a task not yet committed has had none of these twice. */
  lemma ExactlyOnce(n: nat, run: seq<Label>, t: nat)
    requires IsRun(Init(n), run)
    ensures Inv(Final(Init(n), run))
    ensures forall w: nat :: Count(Init(n), run, Executed(t, w)) <= 1 && Count(Init(n), run, PushedOn(t, w)) <= 1
    ensures Count(Init(n), run, Committed(t)) <= 1
    ensures var f := Final(Init(n), run);
            t < |f.tasks| && f.tasks[t].phase.Done? ==>
              && Count(Init(n), run, Committed(t)) == 1
              && (forall w: nat :: Count(Init(n), run, Executed(t, w)) == if w in Members(f.tasks[t]) then 1 else 0)
              && (f.tasks[t].kind.Assembly? ==>
                    forall w: nat :: Count(Init(n), run, PushedOn(t, w)) == if w in Members(f.tasks[t]) then 1 else 0)
  {
    var f := Final(Init(n), run);
    CountFromStart(n, run, Committed(t));
    forall w: nat
      ensures Count(Init(n), run, Executed(t, w)) == if Happened(f, Executed(t, w)) then 1 else 0
      ensures Count(Init(n), run, PushedOn(t, w)) == if Happened(f, PushedOn(t, w)) then 1 else 0
      ensures t < |f.tasks| && f.tasks[t].phase.Done? ==> (Happened(f, Executed(t, w)) <==> w in Members(f.tasks[t]))
      ensures t < |f.tasks| && f.tasks[t].phase.Done? && f.tasks[t].kind.Assembly? ==>
                (Happened(f, PushedOn(t, w)) <==> w in Members(f.tasks[t]))
    {
      CountFromStart(n, run, Executed(t, w));
      CountFromStart(n, run, PushedOn(t, w));
      if t < |f.tasks| && f.tasks[t].phase.Done? {
        DoneHappened(f, t, w);
      }
    }
  }

  /** A task that has left the phase `Created` has only predecessors whose executions are all finished. */
  lemma PredecessorsFinished(s: State, a: nat, k: nat)
    requires Inv(s) && a < |s.tasks| && k < |s.tasks[a].out| && s.tasks[a].out[k] < |s.tasks|
    requires !s.tasks[s.tasks[a].out[k]].phase.Created?
    ensures s.tasks[a].phase.Committing? || s.tasks[a].phase.Done?
    ensures s.tasks[a].finished == Members(s.tasks[a])
  {
    assert EdgeOk(s, a, k);
    assert RefOk(s, s.tasks[a].out[k]);
    assert TaskOk(s, a);
  }

  /** Worker `w` begins to execute `t` in this step. */
  predicate Starts(s: State, l: Label, t: nat, w: nat)
    requires Enabled(s, l)
  {
    (l == Gang(w, Enter) || l == Hand(w, RunSimple)) && s.pc[w].t == t
  }

  lemma StartsAfter(s: State, l: Label, t: nat, w: nat, a: nat, k: nat)
    requires Inv(s) && Enabled(s, l) && Starts(s, l, t, w)
    requires a < |s.tasks| && k < |s.tasks[a].out| && s.tasks[a].out[k] == t
    ensures forall v: nat :: v in Members(s.tasks[a]) ==> Happened(s, Executed(a, v))
  {
    assert PcOk(s, w);
    assert PcGang(s, w);
    PredecessorsFinished(s, a, k);
  }

  /** Dependency order: when some worker starts a task, every worker of the place of each of its predecessors
      has executed that predecessor, exactly once. */
  lemma DependencyOrder(n: nat, run: seq<Label>, l: Label, t: nat, w: nat, a: nat, k: nat)
    requires IsRun(Init(n), run) && Enabled(Final(Init(n), run), l) && Starts(Final(Init(n), run), l, t, w)
    requires var f := Final(Init(n), run);
             a < |f.tasks| && k < |f.tasks[a].out| && f.tasks[a].out[k] == t
    ensures var f := Final(Init(n), run);
            forall v: nat :: v in Members(f.tasks[a]) ==> Count(Init(n), run, Executed(a, v)) == 1
  {
    var f := Final(Init(n), run);
    ReachedInv(n, run);
    StartsAfter(f, l, t, w, a, k);
    forall v: nat | v in Members(f.tasks[a])
      ensures Count(Init(n), run, Executed(a, v)) == 1
    {
      CountFromStart(n, run, Executed(a, v));
    }
  }

  /** The incoming edges of `t` that no commit has released yet. */
  ghost function Unreleased(s: State, t: nat): set<(nat, nat)> {
    set a: nat, k: nat | a < |s.tasks| && s.tasks[a].released <= k < |s.tasks[a].out| && EdgeAt(s, a, k, t) :: (a, k)
  }

  lemma WaitingIsUnreleased(s: State, t: nat)
    requires Inv(s) && t < |s.tasks|
    ensures s.tasks[t].refcount == |Unreleased(s, t)|
  {
    assert RefOk(s, t);
    forall a: nat, k: nat
      ensures (a, k) in s.tasks[t].waiting <==> (a, k) in Unreleased(s, t)
    {
      if (a, k) in s.tasks[t].waiting {
        assert EdgeAt(s, (a, k).0, (a, k).1, t);
        assert EdgeOk(s, a, k);
      }
      if (a, k) in Unreleased(s, t) {
        assert EdgeOk(s, a, k);
      }
    }
    assert s.tasks[t].waiting == Unreleased(s, t);
  }

  /** `refcount` is the number of incoming edges not yet released, in every reachable state. */
  lemma RefcountMeansEdges(n: nat, run: seq<Label>, t: nat)
    requires IsRun(Init(n), run) && t < |Final(Init(n), run).tasks|
    ensures var f := Final(Init(n), run); f.tasks[t].refcount == |Unreleased(f, t)|
  {
    ReachedInv(n, run);
    WaitingIsUnreleased(Final(Init(n), run), t);
  }

  /** A worker has left its loop, or `xitao_drain` may return. */
  ghost predicate Finished(s: State) {
    s.pending <= 0 || exists w: nat :: w < |s.pc| && s.pc[w].Exited?
  }

  lemma FinishedIsQuiet(s: State)
    requires Inv(s) && Finished(s)
    ensures Sized(s) && Quiescent(s) && forall t: nat :: t < |s.tasks| ==> Happened(s, Committed(t))
  {
    PendingZero(s);
    if w: nat :| w < |s.pc| && s.pc[w].Exited? {
      assert ExitOk(s, w);
      AllDoneIsQuiescent(s);
    }
  }

  /** Safe exit: when a worker leaves its loop, or the client returns from `xitao_drain`, every task ever created
      has been committed, exactly once, and no queue holds a task. */
  lemma ExitIsSafe(n: nat, run: seq<Label>)
    requires IsRun(Init(n), run)
    requires Finished(Final(Init(n), run))
    ensures Sized(Final(Init(n), run)) && Quiescent(Final(Init(n), run))
    ensures forall t: nat :: t < |Final(Init(n), run).tasks| ==> Count(Init(n), run, Committed(t)) == 1
  {
    var f := Final(Init(n), run);
    ReachedInv(n, run);
    FinishedIsQuiet(f);
    forall t: nat | t < |f.tasks|
      ensures Count(Init(n), run, Committed(t)) == 1
    {
      CountFromStart(n, run, Committed(t));
    }
  }

  // ---------------------------------------------------------------- deadlock freedom of every run

  /** After any run "ahead of in some assembly queue" has no cycle. */
  lemma NoCycleInAnyRun(n: nat, run: seq<Label>, cycle: seq<nat>)
    requires IsRun(Init(n), run) && |cycle| >= 2 && cycle[0] == cycle[|cycle| - 1]
    ensures var f := Final(Init(n), run);
            Sized(f) && !(forall k :: 0 <= k < |cycle| - 1 ==> SomewhereAhead(f, cycle[k], cycle[k + 1]))
  {
    ReachedInv(n, run);
    AheadIsAcyclic(Final(Init(n), run), cycle);
  }

  /** After any run, while a distributed task is unfinished, some worker is stuck neither in a lock nor in the start
      rendezvous. */
  lemma NoGangDeadlockInAnyRun(n: nat, run: seq<Label>, t: nat)
    requires IsRun(Init(n), run)
    requires var f := Final(Init(n), run); t < |f.tasks| && InQueues(f.tasks[t])
    ensures Sized(Final(Init(n), run)) && SomeoneCanAdvance(Final(Init(n), run))
  {
    ReachedInv(n, run);
    GangDeadlockFreedom(Final(Init(n), run), t);
  }

  /** After any run that has built an acyclic graph and pushed its sources, as long as a created task is uncommitted
      some worker can advance. */
  lemma NoDeadlockInAnyRun(n: nat, run: seq<Label>, rank: nat -> nat, t: nat)
    requires IsRun(Init(n), run)
    requires var f := Final(Init(n), run);
             Ranked(f, rank) && SourcesPushed(f) && t < |f.tasks| && !f.tasks[t].phase.Done?
    ensures Sized(Final(Init(n), run)) && SomeoneCanAdvance(Final(Init(n), run))
  {
    ReachedInv(n, run);
    DeadlockFreedom(Final(Init(n), run), rank, t);
  }
}
