/** The invariant holds initially and every step of every worker and of the client keeps it.

    The lemmas of the modules on places, gangs, counts and balance are put together here, one lemma for each kind of
    label: the client's creations, edges and pushes, the polling of a worker, the handling of a task in hand, the
    progress through a gang, and the commit with its releases and wake-ups. What is proved here directly is that a
    committed task stays committed and that nobody can create a task once a worker has left its loop. The last lemma
    lifts the result from steps to runs of any length. */
module RuntimeSteps {
  import opened Runtime
  import opened RuntimeInvariant
  import opened RuntimeLocated
  import opened RuntimeGanged
  import opened RuntimeCounted
  import opened RuntimeQuiescence

  lemma InitInv(n: nat)
    ensures Inv(Init(n))
  {
    SumZero(n);
    var s := Init(n);
    forall w: nat | w < n
      ensures LineOk(s, w)
    {
    }
  }

  /** A committed task stays committed. */
  ghost predicate DoneStays(s: State, s': State) {
    && |s.tasks| == |s'.tasks| && |s'.pc| == |s.pc| && (s.canExit ==> s'.canExit)
    && (forall t: nat :: t < |s.tasks| && s.tasks[t].phase.Done? ==> s'.tasks[t].phase.Done?)
    && (forall w: nat :: w < |s.pc| && s'.pc[w].Exited? ==> s.pc[w].Exited?)
  }

  lemma ExitsFrame(s: State, s': State)
    requires ExitsSafe(s) && DoneStays(s, s')
    ensures ExitsSafe(s')
  {
    forall w: nat | w < |s'.pc|
      ensures ExitOk(s', w)
    {
      assert ExitOk(s, w);
    }
  }

  lemma ClientKeepsInv(s: State, who: Actor, act: ClientAct)
    requires Inv(s) && EnabledClient(s, who, act)
    ensures Inv(ApplyClient(s, who, act))
  {
    var s' := ApplyClient(s, who, act);
    match act {
      case Create(kind, critical, p) => CreateKeepsInv(s, who, kind, critical, p);
      case MakeEdge(a, b) => EdgeKeepsInv(s, a, b);
      case PushTask(t, q) => PushKeepsInv(s, t, q);
      case Fini => FiniKeepsInv(s);
    }
  }

  /** After a worker has exited nobody can create a task any more. */
  lemma NoExitYet(s: State, who: Actor)
    requires Inv(s) && ClientActive(s, who)
    ensures forall w: nat :: w < s.n ==> !s.pc[w].Exited?
  {
    forall w: nat | w < s.n
      ensures !s.pc[w].Exited?
    {
      assert ExitOk(s, w);
      if who.Inside? {
        assert PcOk(s, who.worker);
        assert PcGang(s, who.worker);
      }
    }
  }

  lemma CreateKeepsInv(s: State, who: Actor, kind: Kind, critical: bool, p: nat)
    requires Inv(s) && ClientActive(s, who) && p < s.n && (critical ==> kind.Assembly?)
    ensures Inv(ApplyCreate(s, kind, critical, p))
  {
    var s' := ApplyCreate(s, kind, critical, p);
    KeepsLocatedCreate(s, kind, critical, p);
    assert GangOk(s', |s.tasks|);
    GangFrame(s, s');
    KeepsCountedCreate(s, kind, critical, p);
    KeepsBalancedCreate(s, kind, critical, p);
    NoExitYet(s, who);
    assert ExitsSafe(s');
  }

  lemma EdgeKeepsInv(s: State, a: nat, b: nat)
    requires Inv(s) && a < |s.tasks| && b < |s.tasks| && a != b
    requires s.tasks[b].phase.Created? && !s.tasks[a].phase.Committing? && !s.tasks[a].phase.Done?
    ensures Inv(ApplyEdge(s, a, b))
  {
    var s' := ApplyEdge(s, a, b);
    assert TaskOk(s, a);
    KeepsLocatedEdge(s, a, b);
    GangFrame(s, s');
    KeepsCountedEdge(s, a, b);
    BalanceFrame(s, s');
    ExitsFrame(s, s');
  }

  lemma PushKeepsInv(s: State, t: nat, q: nat)
    requires Inv(s) && t < |s.tasks| && q < s.n && s.tasks[t].phase.Created? && s.tasks[t].indegree == 0
    ensures Inv(ApplyReady(s, t, q))
  {
    var s' := ApplyReady(s, t, q);
    KeepsLocatedPush(s, t, q);
    GangFrame(s, s');
    KeepsCountedPush(s, t, q);
    BalanceFrame(s, s');
    ExitsFrame(s, s');
  }

  lemma FiniKeepsInv(s: State)
    requires Inv(s)
    ensures Inv(s.(canExit := true))
  {
    var s' := s.(canExit := true);
    FiniLocated(s);
    GangFrame(s, s');
    GraphFrame(s, s');
    ExitsFrame(s, s');
  }

  lemma FiniLocated(s: State)
    requires Located(s)
    ensures Located(s.(canExit := true))
  {
    var s' := s.(canExit := true);
    forall v: nat | v < s.n
      ensures PcOk(s', v)
    {
      assert PcOk(s, v);
      PcStays(s, s', v);
    }
    forall t: nat | t < |s.tasks|
      ensures TaskOk(s', t)
    {
      assert TaskOk(s, t);
      TaskStays(s, s', t);
    }
    ReadyStays(s, s');
    forall i: nat, v: nat | i < s.n && v < s.n
      ensures LockOk(s', i, v)
    {
      assert LockOk(s, i, v);
    }
  }

  /** Polling steps that only move the worker's control point. */
  lemma MoveKeepsInv(s: State, w: nat, p: Pc)
    requires Inv(s) && w < s.n && Idle(s.pc[w]) && Idle(p)
    requires p.Exited? ==> s.canExit && s.pending == 0
    ensures Inv(SetPc(s, w, p))
  {
    var s' := SetPc(s, w, p);
    IdleMove(s, s', w);
    GangFrame(s, s');
    GraphFrame(s, s');
    BalanceFrame(s, s');
    if p.Exited? {
      PendingZero(s);
      assert forall v: nat :: v < |s.pc| ==> ExitOk(s', v);
    } else {
      ExitsFrame(s, s');
    }
  }

  lemma FlushCKeepsInv(s: State, w: nat)
    requires Inv(s) && w < s.n && s.pc[w].FlushCompletions?
    ensures Inv(ApplyFlushC(s, w))
  {
    var s' := ApplyFlushC(s, w);
    IdleMove(s, s', w);
    GangFrame(s, s');
    GraphFrame(s, s');
    KeepsBalancedFlush(s, w);
    ExitsFrame(s, s');
  }

  lemma FlushPKeepsInv(s: State, w: nat)
    requires Inv(s) && w < s.n && s.pc[w].FlushPool?
    ensures Inv(ApplyFlushP(s, w))
  {
    var s' := ApplyFlushP(s, w);
    IdleMove(s, s', w);
    GangFrame(s, s');
    GraphFrame(s, s');
    KeepsBalancedFlush(s, w);
    ExitsFrame(s, s');
  }

  lemma TakeKeepsInv(s: State, w: nat, q: nat)
    requires Inv(s) && w < s.n && q < s.n && (s.pc[w].OwnReady? || s.pc[w].Steal?)
    requires s.ready[q] != [] && Last(s.ready[q]) < |s.tasks|
    ensures Inv(ApplyTake(s, w, q))
  {
    var s' := ApplyTake(s, w, q);
    var t := Last(s.ready[q]);
    assert ReadyOk(s, q);
    assert t in s.ready[q];
    KeepsLocatedTake(s, w, q);
    GangFrame(s, s');
    GraphFrame(s, s');
    BalanceFrame(s, s');
    ExitsFrame(s, s');
  }

  lemma PopKeepsInv(s: State, w: nat)
    requires Inv(s) && w < s.n && s.pc[w].Top? && s.assembly[w] != [] && s.assembly[w][0] < |s.tasks|
    ensures Inv(ApplyPopAssembly(s, w))
  {
    var s' := ApplyPopAssembly(s, w);
    KeepsLocatedPopAssembly(s, w);
    KeepsGangedPopAssembly(s, w);
    GraphFrame(s, s');
    BalanceFrame(s, s');
    ExitsFrame(s, s');
  }

  lemma PollKeepsInv(s: State, w: nat, act: PollAct)
    requires Inv(s) && At(s, w) && EnabledPoll(s, w, act)
    ensures Inv(ApplyPoll(s, w, act))
  {
    match act {
      case PopAssembly => PopKeepsInv(s, w);
      case NoAssembly => MoveKeepsInv(s, w, OwnReady);
      case PopOwn => TakeKeepsInv(s, w, w);
      case NoOwn => MoveKeepsInv(s, w, Steal);
      case StealFrom(q) => TakeKeepsInv(s, w, q);
      case GiveUp => MoveKeepsInv(s, w, FlushCompletions);
      case FlushC => FlushCKeepsInv(s, w);
      case FlushP => FlushPKeepsInv(s, w);
      case Loop => MoveKeepsInv(s, w, Top);
      case Exit => MoveKeepsInv(s, w, Exited);
    }
  }

  lemma RunSimpleKeepsInv(s: State, w: nat)
    requires Inv(s) && At(s, w) && EnabledHand(s, w, RunSimple)
    ensures Inv(ApplyRunSimple(s, w))
  {
    var s' := ApplyRunSimple(s, w);
    assert PcOk(s, w);
    KeepsLocatedRunSimple(s, w);
    assert GangOk(s', s.pc[w].t);
    GangFrame(s, s');
    GraphFrame(s, s');
    BalanceFrame(s, s');
    ExitsFrame(s, s');
  }

  lemma PlaceKeepsInv(s: State, w: nat, leader: nat, width: nat)
    requires Inv(s) && At(s, w) && EnabledHand(s, w, Place(leader, width))
    ensures Inv(ApplyPlace(s, w, s.pc[w].t, leader, width, ToTop))
  {
    var t := s.pc[w].t;
    var s' := ApplyPlace(s, w, t, leader, width, ToTop);
    assert PcOk(s, w);
    assert TaskOk(s, t);
    KeepsLocatedPlace(s, w, leader, width);
    PlacedOutside(s, w, t, leader, width, ToTop);
    GangFrame(s, s');
    GraphFrame(s, s');
    BalanceFrame(s, s');
    ExitsFrame(s, s');
  }

  lemma PlacedOutside(s: State, w: nat, t: nat, leader: nat, width: nat, c: Cont)
    requires Inv(s) && w < s.n && t < |s.tasks| && (s.tasks[t].phase.Held? || s.tasks[t].phase.Woken?)
    requires width >= 1
    ensures OutsideGang(s, ApplyPlace(s, w, t, leader, width, c), t)
  {
    assert TaskOk(s, t);
    assert GangOk(s, t);
  }

  lemma AcquireKeepsInv(s: State, w: nat)
    requires Inv(s) && At(s, w) && EnabledHand(s, w, Acquire)
    ensures Inv(ApplyAcquire(s, w))
  {
    var s' := ApplyAcquire(s, w);
    KeepsLocatedAcquire(s, w);
    GangFrame(s, s');
    GraphFrame(s, s');
    BalanceFrame(s, s');
    ExitsFrame(s, s');
  }

  lemma PushOneKeepsInv(s: State, w: nat)
    requires Inv(s) && At(s, w) && EnabledHand(s, w, PushOne)
    ensures Inv(ApplyPushOne(s, w))
  {
    assert PcOk(s, w);
    if s.pc[w].i + 1 < s.pc[w].hi {
      PushMiddleKeepsInv(s, w);
    } else {
      PushLastKeepsInv(s, w);
    }
  }

  lemma PushMiddleKeepsInv(s: State, w: nat)
    requires Inv(s) && At(s, w) && s.pc[w].Pushing? && s.pc[w].i + 1 < s.pc[w].hi
    ensures Inv(PushMiddle(s, w))
  {
    var s' := PushMiddle(s, w);
    KeepsLocatedPushMiddle(s, w);
    KeepsGangedPushMiddle(s, w);
    GraphFrame(s, s');
    BalanceFrame(s, s');
    ExitsFrame(s, s');
  }

  lemma PushLastKeepsInv(s: State, w: nat)
    requires Inv(s) && At(s, w) && s.pc[w].Pushing? && s.pc[w].i + 1 >= s.pc[w].hi
    ensures Inv(PushLast(s, w))
  {
    var s' := PushLast(s, w);
    assert PcOk(s, w);
    KeepsLocatedPushLast(s, w);
    KeepsGangedPushLast(s, w);
    GraphFrame(s, s');
    BalanceFrame(s, s');
    ExitsFrame(s, s');
  }

  lemma ReleaseKeepsInv(s: State, w: nat)
    requires Inv(s) && At(s, w) && EnabledHand(s, w, Release)
    ensures Inv(ApplyRelease(s, w))
  {
    var s' := ApplyRelease(s, w);
    KeepsLocatedRelease(s, w);
    GangFrame(s, s');
    GraphFrame(s, s');
    BalanceFrame(s, s');
    ExitsFrame(s, s');
  }

  lemma HandKeepsInv(s: State, w: nat, act: HandAct)
    requires Inv(s) && At(s, w) && EnabledHand(s, w, act)
    ensures Inv(ApplyHand(s, w, act))
  {
    match act {
      case RunSimple => RunSimpleKeepsInv(s, w);
      case Place(leader, width) => PlaceKeepsInv(s, w, leader, width);
      case Acquire => AcquireKeepsInv(s, w);
      case PushOne => PushOneKeepsInv(s, w);
      case Release => ReleaseKeepsInv(s, w);
    }
  }

  lemma ArriveKeepsInv(s: State, w: nat)
    requires Inv(s) && At(s, w) && EnabledGang(s, w, Arrive)
    ensures Inv(ApplyArrive(s, w))
  {
    var s' := ApplyArrive(s, w);
    assert PcGang(s, w);
    KeepsLocatedArrive(s, w);
    KeepsGangedArrive(s, w);
    GraphFrame(s, s');
    BalanceFrame(s, s');
    ExitsFrame(s, s');
  }

  lemma EnterKeepsInv(s: State, w: nat)
    requires Inv(s) && At(s, w) && EnabledGang(s, w, Enter)
    ensures Inv(SetPc(s, w, Running(s.pc[w].t)))
  {
    var s' := SetPc(s, w, Running(s.pc[w].t));
    KeepsLocatedEnter(s, w);
    KeepsGangedEnter(s, w);
    GraphFrame(s, s');
    BalanceFrame(s, s');
    ExitsFrame(s, s');
  }

  lemma LeaveEarlyKeepsInv(s: State, w: nat)
    requires Inv(s) && At(s, w) && s.pc[w].Running?
    requires s.tasks[s.pc[w].t].threadsOut + 1 != s.tasks[s.pc[w].t].width
    ensures Inv(LeaveEarly(s, w))
  {
    var s' := LeaveEarly(s, w);
    assert PcGang(s, w);
    KeepsLocatedLeaveEarly(s, w);
    KeepsGangedLeaveEarly(s, w);
    GraphFrame(s, s');
    BalanceFrame(s, s');
    ExitsFrame(s, s');
  }

  lemma LeaveLastKeepsInv(s: State, w: nat)
    requires Inv(s) && At(s, w) && s.pc[w].Running?
    requires s.tasks[s.pc[w].t].threadsOut + 1 == s.tasks[s.pc[w].t].width
    ensures Inv(LeaveLast(s, w))
  {
    var s' := LeaveLast(s, w);
    assert PcGang(s, w);
    GangComplete(s, w);
    KeepsLocatedLeaveLast(s, w);
    KeepsGangedLeaveLast(s, w);
    GraphFrame(s, s');
    BalanceFrame(s, s');
    ExitsFrame(s, s');
  }

  lemma GangKeepsInv(s: State, w: nat, act: GangAct)
    requires Inv(s) && At(s, w) && EnabledGang(s, w, act)
    ensures Inv(ApplyGang(s, w, act))
  {
    match act {
      case Arrive => ArriveKeepsInv(s, w);
      case Enter => EnterKeepsInv(s, w);
      case Leave =>
        if s.tasks[s.pc[w].t].threadsOut + 1 == s.tasks[s.pc[w].t].width {
          LeaveLastKeepsInv(s, w);
        } else {
          LeaveEarlyKeepsInv(s, w);
        }
    }
  }

  lemma DropKeepsInv(s: State, w: nat)
    requires Inv(s) && At(s, w) && EnabledCommit(s, w, Drop)
    ensures Inv(ApplyDrop(s, w))
  {
    var s' := ApplyDrop(s, w);
    DropEffect(s, w);
    KeepsLocatedDrop(s, w);
    KeepsCountedDrop(s, w);
    DropOtherParts(s, s', w, s.pc[w].t, s.pc[w].k, s.tasks[s.pc[w].t].out[s.pc[w].k]);
  }

  lemma DropOtherParts(s: State, s': State, w: nat, t: nat, k: nat, u: nat)
    requires Inv(s) && Sized(s') && Dropped(s, s', w, t, k, u) && s.pc[w] == Commit(t, k) && s.tasks[u].phase.Created?
    ensures Ganged(s') && Balanced(s') && ExitsSafe(s')
  {
    forall x: nat | x < |s.tasks|
      ensures SameInGang(s.tasks[x], s'.tasks[x])
    {
      assert x == t || x == u || s'.tasks[x] == s.tasks[x];
    }
    GangFrame(s, s');
    BalanceFrame(s, s');
    ExitsFrame(s, s');
  }

  lemma RetireKeepsInv(s: State, w: nat)
    requires Inv(s) && At(s, w) && EnabledCommit(s, w, Retire)
    ensures Inv(ApplyRetire(s, w))
  {
    var s' := ApplyRetire(s, w);
    assert PcOk(s, w);
    KeepsLocatedRetire(s, w);
    GangFrame(s, s');
    GraphFrame(s, s');
    KeepsBalancedRetire(s, w);
    ExitsFrame(s, s');
  }

  lemma WakeReadyKeepsGangs(s: State, w: nat, q: nat)
    requires Inv(s) && At(s, w) && EnabledCommit(s, w, WakeReady(q))
    ensures Ganged(ApplyCommit(s, w, WakeReady(q)))
  {
    assert PcOk(s, w);
    GangFrame(s, ApplyCommit(s, w, WakeReady(q)));
  }

  lemma WakeReadyKeepsCounts(s: State, w: nat, q: nat)
    requires Inv(s) && At(s, w) && EnabledCommit(s, w, WakeReady(q))
    ensures Counted(ApplyCommit(s, w, WakeReady(q)))
  {
    assert PcOk(s, w);
    GraphFrame(s, ApplyCommit(s, w, WakeReady(q)));
  }

  lemma WakeReadyKeepsInv(s: State, w: nat, q: nat)
    requires Inv(s) && At(s, w) && EnabledCommit(s, w, WakeReady(q))
    ensures Inv(ApplyCommit(s, w, WakeReady(q)))
  {
    var s' := ApplyCommit(s, w, WakeReady(q));
    assert PcOk(s, w);
    KeepsLocatedWakeReady(s, w, q);
    WakeReadyKeepsGangs(s, w, q);
    WakeReadyKeepsCounts(s, w, q);
    BalanceFrame(s, s');
    ExitsFrame(s, s');
  }

  lemma WakeCriticalKeepsInv(s: State, w: nat, leader: nat, width: nat)
    requires Inv(s) && At(s, w) && EnabledCommit(s, w, WakeCritical(leader, width))
    ensures Inv(ApplyCommit(s, w, WakeCritical(leader, width)))
  {
    var s' := ApplyCommit(s, w, WakeCritical(leader, width));
    var u := Successor(s, w);
    assert PcOk(s, w);
    KeepsLocatedWakeCritical(s, w, leader, width);
    PlacedOutside(s, w, u, leader, width, ToCommit(s.pc[w].t, s.pc[w].k + 1));
    GangFrame(s, s');
    GraphFrame(s, s');
    BalanceFrame(s, s');
    ExitsFrame(s, s');
  }

  lemma CommitKeepsInv(s: State, w: nat, act: CommitAct)
    requires Inv(s) && At(s, w) && EnabledCommit(s, w, act)
    ensures Inv(ApplyCommit(s, w, act))
  {
    match act {
      case Drop => DropKeepsInv(s, w);
      case Retire => RetireKeepsInv(s, w);
      case WakeReady(q) => WakeReadyKeepsInv(s, w, q);
      case WakeCritical(leader, width) => WakeCriticalKeepsInv(s, w, leader, width);
    }
  }

  /** Every enabled step, whoever takes it, keeps the invariant. */
  lemma StepKeepsInv(s: State, l: Label)
    requires Inv(s) && Enabled(s, l)
    ensures Inv(Apply(s, l))
  {
    match l {
      case Client(who, act) => ClientKeepsInv(s, who, act);
      case Poll(w, act) => PollKeepsInv(s, w, act);
      case Hand(w, act) => HandKeepsInv(s, w, act);
      case Gang(w, act) => GangKeepsInv(s, w, act);
      case Finish(w, act) => CommitKeepsInv(s, w, act);
    }
  }

  lemma {:induction false} RunKeepsInv(s: State, run: seq<Label>)
    requires Inv(s) && IsRun(s, run)
    ensures Inv(Final(s, run))
    decreases |run|
  {
    if run != [] {
      StepKeepsInv(s, run[0]);
      RunKeepsInv(Apply(s, run[0]), run[1..]);
    }
  }

  lemma {:induction false} RunConcat(s: State, run: seq<Label>, more: seq<Label>)
    requires IsRun(s, run) && IsRun(Final(s, run), more)
    ensures IsRun(s, run + more) && Final(s, run + more) == Final(Final(s, run), more)
    decreases |run|
  {
    if run == [] {
      assert run + more == more;
    } else {
      assert (run + more)[1..] == run[1..] + more;
      RunConcat(Apply(s, run[0]), run[1..], more);
    }
  }
}
