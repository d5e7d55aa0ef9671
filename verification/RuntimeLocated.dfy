/** Every step keeps each task in exactly one place, and each lock with the worker that took it.

    One lemma per kind of step. Each says what becomes of the control point of the worker that moves and of the task it
    has in hand; `Undisturbed` says what the others may rely on meanwhile, so that their control points and the other
    tasks need no more than a frame lemma. The interesting steps are those that pass a task on: taking it out of a
    ready queue, finishing an insertion, leaving a gang last, and waking a successor, where the task moves into the
    hand of the worker that released its last edge and from there into a queue. */
module RuntimeLocated {
  import opened Collections
  import opened Runtime
  import opened RuntimeInvariant

  /** What worker `v` may rely on about a task while other workers move. */
  predicate Undisturbed(a: Task, b: Task, v: nat) {
    && a.kind == b.kind && a.out <= b.out && (a.ticket > 0 ==> b.ticket > 0)
    && (a.phase == Placing(v) || a.ticket > 0 ==> b.leader == a.leader && b.width == a.width)
    && (a.phase == Held(v) || a.phase == Woken(v) ==> b.phase == a.phase)
    && (a.phase == Placing(v) || a.phase == Committing(v) ==>
          b.phase == a.phase && b.pushed == a.pushed && b.released == a.released)
  }

  ghost predicate Calm(s: State, s': State, v: nat) {
    && s'.n == s.n && |s.tasks| <= |s'.tasks|
    && (forall t :: 0 <= t < |s.tasks| ==> Undisturbed(s.tasks[t], s'.tasks[t], v))
  }

  lemma PcStays(s: State, s': State, v: nat)
    requires v < |s.pc| && v < |s'.pc| && PcOk(s, v) && s'.pc[v] == s.pc[v] && Calm(s, s', v)
    ensures PcOk(s', v)
  {
    match s.pc[v] {
      case Have(t) => assert Undisturbed(s.tasks[t], s'.tasks[t], v);
      case Locking(t, lo, i, hi, c) => InsertingStays(s, s', v, t, lo, i, hi, c);
      case Pushing(t, lo, i, hi, c) => InsertingStays(s, s', v, t, lo, i, hi, c);
      case Unlocking(t, lo, i, hi, c) => InsertingStays(s, s', v, t, lo, i, hi, c);
      case Commit(t, k) => assert Undisturbed(s.tasks[t], s'.tasks[t], v);
      case Wake(t, k) =>
        assert Undisturbed(s.tasks[t], s'.tasks[t], v);
        var u := s.tasks[t].out[k];
        assert Undisturbed(s.tasks[u], s'.tasks[u], v);
      case _ =>
    }
  }

  lemma InsertingStays(s: State, s': State, v: nat, t: nat, lo: nat, i: nat, hi: nat, c: Cont)
    requires Inserting(s, v, t, lo, i, hi, c) && Calm(s, s', v)
    requires s.tasks[t].phase == Placing(v) || s.tasks[t].ticket > 0
    ensures Inserting(s', v, t, lo, i, hi, c) && Undisturbed(s.tasks[t], s'.tasks[t], v)
  {
    assert Undisturbed(s.tasks[t], s'.tasks[t], v);
    if c.ToCommit? {
      assert Undisturbed(s.tasks[c.task], s'.tasks[c.task], v);
    }
  }

  /** A task that a step does not touch stays where it is. */
  lemma TaskStays(s: State, s': State, t: nat)
    requires Sized(s) && Sized(s') && s'.n == s.n && s.clock <= s'.clock && |s.tasks| <= |s'.tasks|
    requires t < |s.tasks| && TaskOk(s, t)
    requires s'.tasks[t] == s.tasks[t].(refcount := s'.tasks[t].refcount, waiting := s'.tasks[t].waiting,
                                        indegree := s'.tasks[t].indegree, out := s'.tasks[t].out)
    requires s.tasks[t].out == s'.tasks[t].out || !s.tasks[t].phase.Done?
    requires s.tasks[t].phase.Ready? ==> t in s'.ready[s.tasks[t].phase.queue]
    requires s.tasks[t].phase.Held? ==> s'.pc[s.tasks[t].phase.worker] == s.pc[s.tasks[t].phase.worker]
    requires s.tasks[t].phase.Woken? ==>
      && s'.pc[s.tasks[t].phase.worker] == s.pc[s.tasks[t].phase.worker]
      && s.tasks[s.pc[s.tasks[t].phase.worker].t].out <= s'.tasks[s.pc[s.tasks[t].phase.worker].t].out
    requires s.tasks[t].phase.Placing? ==> InsertsTask(s'.pc[s.tasks[t].phase.worker], t)
    requires s.tasks[t].phase.Committing? ==> CommitsTask(s'.pc[s.tasks[t].phase.worker], t)
    ensures TaskOk(s', t)
  {
  }

  lemma ReadyStays(s: State, s': State)
    requires Located(s) && s'.ready == s.ready && s'.n == s.n && |s.tasks| <= |s'.tasks|
    requires forall t: nat :: t < |s.tasks| && s.tasks[t].phase.Ready? ==> s'.tasks[t].phase == s.tasks[t].phase
    ensures forall q: nat :: q < s'.n ==> ReadyOk(s', q)
  {
    forall q: nat | q < s.n
      ensures ReadyOk(s', q)
    {
      assert ReadyOk(s, q);
    }
  }

  lemma LocksStay(s: State, s': State, w: nat)
    requires Located(s) && w < s.n && s'.n == s.n && s'.locks == s.locks && |s'.pc| == |s.pc|
    requires s'.pc == s.pc[w := s'.pc[w]]
    requires forall i: nat :: i < s.n ==> Holds(s'.pc[w], i) == Holds(s.pc[w], i)
    ensures forall i: nat, v: nat :: i < s'.n && v < s'.n ==> LockOk(s', i, v)
  {
    forall i: nat, v: nat | i < s.n && v < s.n
      ensures LockOk(s', i, v)
    {
      assert LockOk(s, i, v);
    }
  }

  lemma NotQueued(s: State, t: nat, q: nat)
    requires Located(s) && q < s.n && t < |s.tasks| && s.tasks[t].phase != Ready(q)
    ensures t !in s.ready[q]
  {
    assert ReadyOk(s, q);
  }

  /** Appending a task that is in no ready queue keeps the queues in order. */
  lemma ReadyAppend(s: State, s': State, t: nat, q: nat)
    requires Located(s) && t < |s.tasks| && q < s.n && !s.tasks[t].phase.Ready?
    requires s'.n == s.n && s'.ready == s.ready[q := s.ready[q] + [t]] && |s'.tasks| == |s.tasks|
    requires s'.tasks[t].phase == Ready(q)
    requires forall x: nat :: x < |s.tasks| && s.tasks[x].phase.Ready? ==> s'.tasks[x].phase == s.tasks[x].phase
    ensures forall p: nat :: p < s'.n ==> ReadyOk(s', p)
    ensures t in s'.ready[q] && forall p: nat, x: nat :: p < s.n && x in s.ready[p] ==> x in s'.ready[p]
  {
    assert s'.ready[q][|s.ready[q]|] == t;
    forall p: nat | p < s.n
      ensures ReadyOk(s', p)
    {
      assert ReadyOk(s, p);
      NotQueued(s, t, p);
    }
  }

  /** A worker without a task moves from one polling point to another. */
  lemma IdleMove(s: State, s1: State, w: nat)
    requires Located(s) && w < s.n && Idle(s.pc[w])
    requires Sized(s1) && s1.n == s.n && s1.tasks == s.tasks && s1.ready == s.ready && s1.locks == s.locks
    requires s1.clock == s.clock
    requires s1.pc == s.pc[w := s1.pc[w]] && Idle(s1.pc[w])
    ensures Located(s1)
  {
    var s' := s1;
    forall v: nat | v < s.n
      ensures PcOk(s', v)
    {
      assert PcOk(s, v);
      if v != w {
        PcStays(s, s', v);
      }
    }
    forall x: nat | x < |s'.tasks|
      ensures TaskOk(s', x)
    {
      assert TaskOk(s, x);
      TaskStays(s, s', x);
    }
    ReadyStays(s, s');
    LocksStay(s, s', w);
  }

  lemma KeepsLocatedCreate(s: State, kind: Kind, critical: bool, p: nat)
    requires Located(s) && p < s.n && (critical ==> kind.Assembly?)
    ensures Located(ApplyCreate(s, kind, critical, p))
  {
    var s' := ApplyCreate(s, kind, critical, p);
    forall v: nat | v < s.n
      ensures PcOk(s', v)
    {
      assert PcOk(s, v);
      PcStays(s, s', v);
    }
    forall x: nat | x < |s'.tasks|
      ensures TaskOk(s', x)
    {
      if x < |s.tasks| {
        assert TaskOk(s, x);
        TaskStays(s, s', x);
      }
    }
    ReadyStays(s, s');
    forall i: nat, v: nat | i < s.n && v < s.n
      ensures LockOk(s', i, v)
    {
      assert LockOk(s, i, v);
    }
  }

  lemma KeepsLocatedEdge(s: State, a: nat, b: nat)
    requires Located(s) && a < |s.tasks| && b < |s.tasks| && a != b
    requires s.tasks[b].phase.Created? && !s.tasks[a].phase.Committing? && !s.tasks[a].phase.Done?
    ensures Located(ApplyEdge(s, a, b))
  {
    var s' := ApplyEdge(s, a, b);
    forall v: nat | v < s.n
      ensures PcOk(s', v)
    {
      assert PcOk(s, v);
      PcStays(s, s', v);
    }
    forall x: nat | x < |s'.tasks|
      ensures TaskOk(s', x)
    {
      assert TaskOk(s, x);
      TaskStays(s, s', x);
    }
    ReadyStays(s, s');
    forall i: nat, v: nat | i < s.n && v < s.n
      ensures LockOk(s', i, v)
    {
      assert LockOk(s, i, v);
    }
  }

  lemma KeepsLocatedPush(s: State, t: nat, q: nat)
    requires Located(s) && t < |s.tasks| && q < s.n && s.tasks[t].phase.Created?
    ensures Located(ApplyReady(s, t, q))
  {
    var s' := ApplyReady(s, t, q);
    ReadyAppend(s, s', t, q);
    forall v: nat | v < s.n
      ensures PcOk(s', v)
    {
      assert PcOk(s, v);
      PcStays(s, s', v);
    }
    forall x: nat | x < |s'.tasks|
      ensures TaskOk(s', x)
    {
      assert TaskOk(s, x);
      if x != t {
        TaskStays(s, s', x);
      }
    }
    forall i: nat, v: nat | i < s.n && v < s.n
      ensures LockOk(s', i, v)
    {
      assert LockOk(s, i, v);
    }
  }

  lemma KeepsLocatedPopAssembly(s: State, w: nat)
    requires Located(s) && w < s.n && s.pc[w].Top? && s.assembly[w] != [] && s.assembly[w][0] < |s.tasks|
    ensures Located(ApplyPopAssembly(s, w))
  {
    var s' := ApplyPopAssembly(s, w);
    forall v: nat | v < s.n
      ensures PcOk(s', v)
    {
      assert PcOk(s, v);
      if v != w {
        PcStays(s, s', v);
      }
    }
    forall x: nat | x < |s'.tasks|
      ensures TaskOk(s', x)
    {
      assert TaskOk(s, x);
      TaskStays(s, s', x);
    }
    ReadyStays(s, s');
    LocksStay(s, s', w);
  }

  lemma KeepsLocatedTake(s: State, w: nat, q: nat)
    requires Located(s) && w < s.n && q < s.n && Idle(s.pc[w]) && s.ready[q] != [] && Last(s.ready[q]) < |s.tasks|
    ensures Located(ApplyTake(s, w, q))
  {
    var s' := ApplyTake(s, w, q);
    var t := Last(s.ready[q]);
    var rest := s.ready[q][..|s.ready[q]| - 1];
    assert ReadyOk(s, q);
    assert t in s.ready[q];
    assert s.ready[q] == rest + [t];
    assert forall i :: 0 <= i < |rest| ==> rest[i] == s.ready[q][i] && rest[i] != t;
    forall v: nat | v < s.n
      ensures PcOk(s', v)
    {
      assert PcOk(s, v);
      if v != w {
        PcStays(s, s', v);
      }
    }
    forall x: nat | x < |s'.tasks|
      ensures TaskOk(s', x)
    {
      assert TaskOk(s, x);
      if x != t {
        assert x in s.ready[q] ==> x in rest;
        TaskStays(s, s', x);
      }
    }
    forall p: nat | p < s.n
      ensures ReadyOk(s', p)
    {
      assert ReadyOk(s, p);
      if p != q {
        NotQueued(s, t, p);
      }
      assert forall x :: x in s'.ready[p] ==> x in s.ready[p] && x != t;
    }
    LocksStay(s, s', w);
  }

  lemma KeepsLocatedRunSimple(s: State, w: nat)
    requires Located(s) && At(s, w) && s.pc[w].Have? && s.tasks[s.pc[w].t].kind.Simple?
    ensures Located(ApplyRunSimple(s, w))
  {
    var s' := ApplyRunSimple(s, w);
    var t := s.pc[w].t;
    assert PcOk(s, w);
    assert TaskOk(s, t);
    assert Members(s'.tasks[t]) == {w};
    forall v: nat | v < s.n
      ensures PcOk(s', v)
    {
      assert PcOk(s, v);
      if v != w {
        PcStays(s, s', v);
      }
    }
    forall x: nat | x < |s'.tasks|
      ensures TaskOk(s', x)
    {
      assert TaskOk(s, x);
      if x != t {
        TaskStays(s, s', x);
      }
    }
    ReadyStays(s, s');
    LocksStay(s, s', w);
  }

  lemma KeepsLocatedPlace(s: State, w: nat, leader: nat, width: nat)
    requires Located(s) && At(s, w) && s.pc[w].Have? && s.tasks[s.pc[w].t].kind.Assembly?
    requires ValidPlace(s, leader, width)
    ensures Located(ApplyPlace(s, w, s.pc[w].t, leader, width, ToTop))
  {
    var s' := ApplyPlace(s, w, s.pc[w].t, leader, width, ToTop);
    var t := s.pc[w].t;
    assert PcOk(s, w);
    assert TaskOk(s, t);
    forall v: nat | v < s.n
      ensures PcOk(s', v)
    {
      assert PcOk(s, v);
      if v != w {
        PcStays(s, s', v);
      }
    }
    forall x: nat | x < |s'.tasks|
      ensures TaskOk(s', x)
    {
      assert TaskOk(s, x);
      if x != t {
        TaskStays(s, s', x);
      }
    }
    ReadyStays(s, s');
    LocksStay(s, s', w);
  }

  lemma KeepsLocatedAcquire(s: State, w: nat)
    requires Located(s) && At(s, w) && s.pc[w].Locking? && s.locks[s.pc[w].i].Free?
    ensures Located(ApplyAcquire(s, w))
  {
    var s' := ApplyAcquire(s, w);
    var t := s.pc[w].t;
    assert PcOk(s, w);
    assert TaskOk(s, t);
    forall v: nat | v < s.n
      ensures PcOk(s', v)
    {
      assert PcOk(s, v);
      if v != w {
        PcStays(s, s', v);
      }
    }
    forall x: nat | x < |s'.tasks|
      ensures TaskOk(s', x)
    {
      assert TaskOk(s, x);
      if x != t {
        TaskStays(s, s', x);
      }
    }
    ReadyStays(s, s');
    forall i: nat, v: nat | i < s.n && v < s.n
      ensures LockOk(s', i, v)
    {
      assert LockOk(s, i, v);
    }
  }

  lemma KeepsLocatedPushMiddle(s: State, w: nat)
    requires Located(s) && At(s, w) && s.pc[w].Pushing? && s.pc[w].i + 1 < s.pc[w].hi
    ensures Located(PushMiddle(s, w))
  {
    var s' := PushMiddle(s, w);
    var t := s.pc[w].t;
    assert PcOk(s, w);
    assert TaskOk(s, t);
    forall v: nat | v < s.n
      ensures PcOk(s', v)
    {
      assert PcOk(s, v);
      if v != w {
        PcStays(s, s', v);
      }
    }
    forall x: nat | x < |s'.tasks|
      ensures TaskOk(s', x)
    {
      assert TaskOk(s, x);
      if x != t {
        TaskStays(s, s', x);
      }
    }
    ReadyStays(s, s');
    LocksStay(s, s', w);
  }

  lemma KeepsLocatedPushLast(s: State, w: nat)
    requires Located(s) && At(s, w) && s.pc[w].Pushing? && s.pc[w].i + 1 >= s.pc[w].hi
    ensures Located(PushLast(s, w))
  {
    var s' := PushLast(s, w);
    var t := s.pc[w].t;
    assert PcOk(s, w);
    assert TaskOk(s, t);
    forall v: nat | v < s.n
      ensures PcOk(s', v)
    {
      assert PcOk(s, v);
      if v != w {
        PcStays(s, s', v);
      }
    }
    forall x: nat | x < |s'.tasks|
      ensures TaskOk(s', x)
    {
      assert TaskOk(s, x);
      if x != t {
        TaskStays(s, s', x);
      }
    }
    ReadyStays(s, s');
    LocksStay(s, s', w);
  }

  lemma KeepsLocatedRelease(s: State, w: nat)
    requires Located(s) && At(s, w) && s.pc[w].Unlocking?
    ensures Located(ApplyRelease(s, w))
  {
    var s' := ApplyRelease(s, w);
    var i0 := s.pc[w].i;
    assert PcOk(s, w);
    assert LockOk(s, i0, w);
    forall v: nat | v < s.n
      ensures PcOk(s', v)
    {
      assert PcOk(s, v);
      if v != w {
        PcStays(s, s', v);
      }
    }
    forall x: nat | x < |s'.tasks|
      ensures TaskOk(s', x)
    {
      assert TaskOk(s, x);
      TaskStays(s, s', x);
    }
    ReadyStays(s, s');
    forall i: nat, v: nat | i < s.n && v < s.n
      ensures LockOk(s', i, v)
    {
      assert LockOk(s, i, v);
    }
  }

  lemma KeepsLocatedArrive(s: State, w: nat)
    requires Located(s) && At(s, w) && s.pc[w].Arriving? && PcGang(s, w)
    ensures Located(ApplyArrive(s, w))
  {
    var s' := ApplyArrive(s, w);
    var t := s.pc[w].t;
    assert PcOk(s, w);
    assert TaskOk(s, t);
    forall v: nat | v < s.n
      ensures PcOk(s', v)
    {
      assert PcOk(s, v);
      if v != w {
        PcStays(s, s', v);
      }
    }
    forall x: nat | x < |s'.tasks|
      ensures TaskOk(s', x)
    {
      assert TaskOk(s, x);
      if x != t {
        TaskStays(s, s', x);
      }
    }
    ReadyStays(s, s');
    LocksStay(s, s', w);
  }

  lemma KeepsLocatedEnter(s: State, w: nat)
    requires Located(s) && At(s, w) && s.pc[w].Spinning?
    ensures Located(SetPc(s, w, Running(s.pc[w].t)))
  {
    var s' := SetPc(s, w, Running(s.pc[w].t));
    forall v: nat | v < s.n
      ensures PcOk(s', v)
    {
      assert PcOk(s, v);
      if v != w {
        PcStays(s, s', v);
      }
    }
    forall x: nat | x < |s'.tasks|
      ensures TaskOk(s', x)
    {
      assert TaskOk(s, x);
      TaskStays(s, s', x);
    }
    ReadyStays(s, s');
    LocksStay(s, s', w);
  }

  /** When the last worker leaves, all the workers of the gang have finished. */
  lemma GangComplete(s: State, w: nat)
    requires Located(s) && Ganged(s) && At(s, w) && s.pc[w].Running?
    requires s.tasks[s.pc[w].t].threadsOut + 1 == s.tasks[s.pc[w].t].width
    ensures s.tasks[s.pc[w].t].finished + {w} == Members(s.tasks[s.pc[w].t])
  {
    var t := s.pc[w].t;
    var task := s.tasks[t];
    assert PcGang(s, w);
    assert GangOk(s, t);
    assert TaskOk(s, t);
    var all := task.finished + {w};
    assert forall v :: v in all ==> v in task.arrived && InGang(s, t, v);
    assert all <= Members(task);
    SubsetOfSameSize(all, Members(task));
  }

  lemma KeepsLocatedLeaveEarly(s: State, w: nat)
    requires Located(s) && Ganged(s) && At(s, w) && s.pc[w].Running?
    ensures Located(LeaveEarly(s, w))
  {
    var s' := LeaveEarly(s, w);
    var t := s.pc[w].t;
    assert PcOk(s, w);
    assert TaskOk(s, t);
    assert PcGang(s, w);
    forall v: nat | v < s.n
      ensures PcOk(s', v)
    {
      assert PcOk(s, v);
      if v != w {
        PcStays(s, s', v);
      }
    }
    forall x: nat | x < |s'.tasks|
      ensures TaskOk(s', x)
    {
      assert TaskOk(s, x);
      if x != t {
        TaskStays(s, s', x);
      }
    }
    ReadyStays(s, s');
    LocksStay(s, s', w);
  }

  lemma KeepsLocatedLeaveLast(s: State, w: nat)
    requires Located(s) && Ganged(s) && At(s, w) && s.pc[w].Running?
    requires s.tasks[s.pc[w].t].threadsOut + 1 == s.tasks[s.pc[w].t].width
    ensures Located(LeaveLast(s, w))
  {
    var s' := LeaveLast(s, w);
    assert PcGang(s, w);
    forall v: nat | v < s.n
      ensures PcOk(s', v)
    {
      LeftLastPc(s, w, v);
    }
    forall x: nat | x < |s'.tasks|
      ensures TaskOk(s', x)
    {
      LeftLastTask(s, w, x);
    }
    ReadyStays(s, s');
    LocksStay(s, s', w);
  }

  lemma LeftLastPc(s: State, w: nat, v: nat)
    requires Located(s) && Ganged(s) && At(s, w) && s.pc[w].Running? && v < s.n
    ensures PcOk(LeaveLast(s, w), v)
  {
    assert PcOk(s, v);
    assert TaskOk(s, s.pc[w].t);
    assert PcGang(s, w);
    if v != w {
      PcStays(s, LeaveLast(s, w), v);
    }
  }

  lemma LeftLastTask(s: State, w: nat, x: nat)
    requires Located(s) && Ganged(s) && At(s, w) && s.pc[w].Running? && x < |s.tasks|
    requires s.tasks[s.pc[w].t].threadsOut + 1 == s.tasks[s.pc[w].t].width
    ensures TaskOk(LeaveLast(s, w), x)
  {
    assert TaskOk(s, x);
    assert PcGang(s, w);
    if x == s.pc[w].t {
      GangComplete(s, w);
    } else {
      TaskStays(s, LeaveLast(s, w), x);
    }
  }

  lemma DropPc(s: State, s': State, w: nat, t: nat, k: nat, u: nat, v: nat)
    requires Dropped(s, s', w, t, k, u) && CommitsFrom(s, w, t, k) && s.tasks[u].phase.Created?
    requires s.tasks[u].ticket == 0
    requires v < |s.pc| && PcOk(s, v)
    ensures PcOk(s', v)
  {
    if v != w {
      PcStays(s, s', v);
    }
  }

  lemma DropTask(s: State, s': State, w: nat, t: nat, k: nat, u: nat, x: nat)
    requires Sized(s) && Dropped(s, s', w, t, k, u) && s.pc[w] == Commit(t, k)
    requires CommitsFrom(s, w, t, k) && s.tasks[u].phase.Created?
    requires x < |s.tasks| && TaskOk(s, x)
    ensures TaskOk(s', x)
  {
    if x != t && x != u {
      TaskStays(s, s', x);
    }
  }

  lemma KeepsLocatedDrop(s: State, w: nat)
    requires Located(s) && Counted(s) && At(s, w) && s.pc[w].Commit? && s.pc[w].k < |s.tasks[s.pc[w].t].out|
    ensures Located(ApplyDrop(s, w))
  {
    DropEffect(s, w);
    var s', t, k := ApplyDrop(s, w), s.pc[w].t, s.pc[w].k;
    var u := s.tasks[t].out[k];
    assert TaskOk(s, u);
    forall v: nat | v < s.n
      ensures PcOk(s', v)
    {
      assert PcOk(s, v);
      DropPc(s, s', w, t, k, u, v);
    }
    forall x: nat | x < |s.tasks|
      ensures TaskOk(s', x)
    {
      assert TaskOk(s, x);
      DropTask(s, s', w, t, k, u, x);
    }
    ReadyStays(s, s');
    LocksStay(s, s', w);
  }

  lemma KeepsLocatedRetire(s: State, w: nat)
    requires Located(s) && At(s, w) && s.pc[w].Commit? && s.pc[w].k >= |s.tasks[s.pc[w].t].out|
    ensures Located(ApplyRetire(s, w))
  {
    var s' := ApplyRetire(s, w);
    var t := s.pc[w].t;
    assert PcOk(s, w);
    assert TaskOk(s, t);
    forall v: nat | v < s.n
      ensures PcOk(s', v)
    {
      assert PcOk(s, v);
      if v != w {
        PcStays(s, s', v);
      }
    }
    forall x: nat | x < |s'.tasks|
      ensures TaskOk(s', x)
    {
      RetiredTask(s, w, t, x);
    }
    ReadyStays(s, s');
    LocksStay(s, s', w);
  }

  lemma RetiredTask(s: State, w: nat, t: nat, x: nat)
    requires Located(s) && At(s, w) && s.pc[w].Commit? && t == s.pc[w].t && x < |s.tasks|
    requires s.pc[w].k >= |s.tasks[t].out|
    ensures TaskOk(ApplyRetire(s, w), x)
  {
    assert PcOk(s, w);
    assert TaskOk(s, x);
    if x != t {
      TaskStays(s, ApplyRetire(s, w), x);
    }
  }

  lemma KeepsLocatedWakeReady(s: State, w: nat, q: nat)
    requires Located(s) && At(s, w) && s.pc[w].Wake? && q < s.n
    ensures Located(SetPc(ApplyReady(s, Successor(s, w), q), w, Commit(s.pc[w].t, s.pc[w].k + 1)))
  {
    var s' := SetPc(ApplyReady(s, Successor(s, w), q), w, Commit(s.pc[w].t, s.pc[w].k + 1));
    var u := Successor(s, w);
    assert PcOk(s, w);
    assert TaskOk(s, u);
    ReadyAppend(s, s', u, q);
    forall v: nat | v < s.n
      ensures PcOk(s', v)
    {
      assert PcOk(s, v);
      if v != w {
        PcStays(s, s', v);
      }
    }
    forall x: nat | x < |s'.tasks|
      ensures TaskOk(s', x)
    {
      assert TaskOk(s, x);
      if x != u {
        TaskStays(s, s', x);
      }
    }
    LocksStay(s, s', w);
  }

  lemma KeepsLocatedWakeCritical(s: State, w: nat, leader: nat, width: nat)
    requires Located(s) && At(s, w) && s.pc[w].Wake? && s.tasks[Successor(s, w)].critical
    requires ValidPlace(s, leader, width)
    ensures Located(ApplyPlace(s, w, Successor(s, w), leader, width, ToCommit(s.pc[w].t, s.pc[w].k + 1)))
  {
    var s' := ApplyPlace(s, w, Successor(s, w), leader, width, ToCommit(s.pc[w].t, s.pc[w].k + 1));
    var u := Successor(s, w);
    assert PcOk(s, w);
    assert TaskOk(s, u);
    forall v: nat | v < s.n
      ensures PcOk(s', v)
    {
      assert PcOk(s, v);
      if v != w {
        PcStays(s, s', v);
      }
    }
    forall x: nat | x < |s'.tasks|
      ensures TaskOk(s', x)
    {
      WokenTask(s, w, u, leader, width, s', x);
    }
    ReadyStays(s, s');
    LocksStay(s, s', w);
  }

  lemma WokenTask(s: State, w: nat, u: nat, leader: nat, width: nat, s': State, x: nat)
    requires Located(s) && At(s, w) && s.pc[w].Wake? && u == Successor(s, w) && s.tasks[u].critical
    requires ValidPlace(s, leader, width) && x < |s.tasks|
    requires s' == ApplyPlace(s, w, u, leader, width, ToCommit(s.pc[w].t, s.pc[w].k + 1))
    ensures TaskOk(s', x)
  {
    assert PcOk(s, w);
    assert TaskOk(s, x);
    if x != u {
      TaskStays(s, s', x);
    }
  }
}
