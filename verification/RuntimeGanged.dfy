/** Every step keeps the gangs and the assembly queues in order.

    The heart of it is the push. When a worker pushes a task on queue i it holds the lock of every queue it has pushed
    on so far, so whatever is already in queue i was completely placed before: an unfinished insertion would still hold
    that lock. Hence the moment of the last push, the ticket, grows from the head of each queue to its tail, and a task
    that is not yet completely placed is last wherever it is. The rest is that the workers who arrive and finish are
    those of the place, each once, and that the last one to leave finds all the others finished. */
module RuntimeGanged {
  import opened Collections
  import opened Runtime
  import opened RuntimeInvariant

  predicate SameInGang(a: Task, b: Task) {
    && a.kind == b.kind && a.leader == b.leader && a.width == b.width && a.pushed == b.pushed && a.ticket == b.ticket
    && a.threadsIn == b.threadsIn && a.threadsOut == b.threadsOut && a.arrived == b.arrived && a.finished == b.finished
    && InQueues(a) == InQueues(b) && a.phase.Placed? == b.phase.Placed?
  }

  /** A task in no assembly queue before, and pushed on none of them yet. */
  ghost predicate OutsideGang(s: State, s': State, t: nat)
    requires t < |s.tasks| && t < |s'.tasks|
  {
    !InQueues(s.tasks[t]) && GangOk(s', t) && (InQueues(s'.tasks[t]) ==> s'.tasks[t].pushed == s'.tasks[t].leader)
  }

  predicate InAnyHand(p: Pc) {
    p.Arriving? || p.Spinning? || p.Running?
  }

  /** Steps that do not move a task through its gang. */
  lemma GangFrame(s: State, s': State)
    requires Sized(s) && Ganged(s) && Sized(s') && s'.n == s.n && s'.assembly == s.assembly && |s.tasks| <= |s'.tasks|
    requires forall w: nat :: w < s.n ==> s'.pc[w] == s.pc[w] || (!InAnyHand(s.pc[w]) && !InAnyHand(s'.pc[w]))
    requires forall t: nat :: t < |s.tasks| ==> SameInGang(s.tasks[t], s'.tasks[t]) || OutsideGang(s, s', t)
    requires forall t: nat :: |s.tasks| <= t < |s'.tasks| ==> GangOk(s', t) && !InQueues(s'.tasks[t])
    ensures Ganged(s')
  {
    forall w: nat | w < s.n
      ensures PcGang(s', w)
    {
      assert PcGang(s, w);
    }
    forall t: nat | t < |s'.tasks|
      ensures GangOk(s', t)
    {
      if t < |s.tasks| && SameInGang(s.tasks[t], s'.tasks[t]) {
        assert GangOk(s, t);
        assert s.tasks[t].kind.Assembly? ==> forall w :: w in s.tasks[t].arrived ==> InGang(s, t, w);
      }
    }
    forall w: nat | w < s.n
      ensures QueueOk(s', w)
    {
      assert QueueOk(s, w);
      assert forall t :: t in s.assembly[w] ==> EntryOk(s, w, t);
    }
    forall t: nat, w: nat | t < |s'.tasks| && w < s.n
      ensures CoverOk(s', t, w)
    {
      if t < |s.tasks| {
        assert CoverOk(s, t, w);
        if SameInGang(s.tasks[t], s'.tasks[t]) && s.pc[w] == Arriving(t) {
          assert s'.pc[w] == s.pc[w];
        }
      }
    }
    forall w: nat | w < s.n
      ensures LineOk(s', w)
    {
      LineFrame(s, s', w);
    }
  }

  lemma LineFrame(s: State, s': State, w: nat)
    requires Sized(s) && Ganged(s) && Sized(s') && s'.n == s.n && w < s.n && s'.assembly[w] == s.assembly[w]
    requires |s.tasks| <= |s'.tasks|
    requires s'.pc[w] == s.pc[w] || !InAnyHand(s'.pc[w])
    requires forall t: nat :: t < |s.tasks| && InQueues(s.tasks[t]) ==> s'.tasks[t].ticket == s.tasks[t].ticket
    ensures LineOk(s', w)
  {
    forall a, b | Ahead(s', w, a, b)
      ensures Before(s', a, b)
    {
      assert Ahead(s, w, a, b);
      AheadMembers(s, w, a, b);
      assert LineOk(s, w);
    }
  }

  /** Only tasks in the assembly queues are ahead of one another. */
  lemma AheadMembers(s: State, w: nat, a: nat, b: nat)
    requires Sized(s) && Ganged(s) && w < s.n && Ahead(s, w, a, b)
    ensures a < |s.tasks| && b < |s.tasks| && InQueues(s.tasks[a]) && InQueues(s.tasks[b])
    ensures b in s.assembly[w] && (InHand(s.pc[w], a) || a in s.assembly[w])
  {
    assert PcGang(s, w);
    assert QueueOk(s, w);
    assert EntryOk(s, w, b);
    assert !InHand(s.pc[w], a) ==> EntryOk(s, w, a);
  }

  lemma KeepsGangedPopAssembly(s: State, w: nat)
    requires Sized(s) && Ganged(s) && w < s.n && s.pc[w].Top? && s.assembly[w] != [] && s.assembly[w][0] < |s.tasks|
    ensures Ganged(ApplyPopAssembly(s, w))
  {
    var s' := ApplyPopAssembly(s, w);
    var a := s.assembly[w][0];
    var rest := s.assembly[w][1..];
    assert s.assembly[w] == [a] + rest;
    assert QueueOk(s, w);
    assert a !in rest;
    forall v: nat | v < s.n
      ensures PcGang(s', v)
    {
      assert PcGang(s, v);
      assert EntryOk(s, w, a);
    }
    forall t: nat | t < |s'.tasks|
      ensures GangOk(s', t)
    {
      assert GangOk(s, t);
      assert s.tasks[t].kind.Assembly? ==> forall v :: v in s.tasks[t].arrived ==> InGang(s, t, v);
    }
    forall v: nat | v < s.n
      ensures QueueOk(s', v)
    {
      assert QueueOk(s, v);
      assert forall t :: t in s'.assembly[v] ==> t in s.assembly[v] && EntryOk(s, v, t);
      assert forall i :: 0 <= i < |rest| ==> rest[i] == s.assembly[w][i + 1];
    }
    forall t: nat, v: nat | t < |s'.tasks| && v < s.n
      ensures CoverOk(s', t, v)
    {
      assert CoverOk(s, t, v);
      assert t in s.assembly[w] ==> t == a || t in rest;
    }
    forall v: nat | v < s.n
      ensures LineOk(s', v)
    {
      PopLine(s, w, v);
    }
  }

  lemma PopLine(s: State, w: nat, v: nat)
    requires Sized(s) && Ganged(s) && w < s.n && s.pc[w].Top? && s.assembly[w] != [] && s.assembly[w][0] < |s.tasks|
    requires v < s.n
    ensures LineOk(ApplyPopAssembly(s, w), v)
  {
    var s' := ApplyPopAssembly(s, w);
    var rest := s.assembly[w][1..];
    assert forall i :: 0 <= i < |rest| ==> rest[i] == s.assembly[w][i + 1];
    forall x, y | Ahead(s', v, x, y)
      ensures Before(s', x, y)
    {
      if v == w {
        if InHand(s'.pc[w], x) && y in rest {
          var q :| 0 <= q < |rest| && rest[q] == y;
          assert s.assembly[w][0] == x && s.assembly[w][q + 1] == y;
          assert Ahead(s, w, x, y);
        } else {
          var p, q :| 0 <= p < q < |rest| && rest[p] == x && rest[q] == y;
          assert s.assembly[w][p + 1] == x && s.assembly[w][q + 1] == y;
          assert Ahead(s, w, x, y);
        }
      } else {
        assert Ahead(s, v, x, y);
      }
      assert LineOk(s, v);
    }
  }

  lemma KeepsGangedArrive(s: State, w: nat)
    requires Ganged'(s) && At(s, w) && s.pc[w].Arriving?
    ensures Ganged(ApplyArrive(s, w))
  {
    var s' := ApplyArrive(s, w);
    var t := s.pc[w].t;
    assert PcGang(s, w);
    assert GangOk(s, t);
    forall v: nat | v < s.n
      ensures PcGang(s', v)
    {
      assert PcGang(s, v);
    }
    forall x: nat | x < |s'.tasks|
      ensures GangOk(s', x)
    {
      assert GangOk(s, x);
      assert TaskOk(s, x);
      assert s.tasks[x].kind.Assembly? ==> forall v :: v in s.tasks[x].arrived ==> InGang(s, x, v);
      if x == t {
        PushedWithin(s, t);
        assert InGang(s', t, w);
      }
    }
    forall v: nat | v < s.n
      ensures QueueOk(s', v)
    {
      assert QueueOk(s, v);
      assert forall x :: x in s'.assembly[v] ==> EntryOk(s, v, x);
    }
    forall x: nat, v: nat | x < |s'.tasks| && v < s.n
      ensures CoverOk(s', x, v)
    {
      assert CoverOk(s, x, v);
    }
    forall v: nat | v < s.n
      ensures LineOk(s', v)
    {
      HandLine(s, s', v);
    }
  }

  ghost predicate Ganged'(s: State) {
    Located(s) && Ganged(s)
  }

  lemma HandLine(s: State, s': State, v: nat)
    requires Sized(s) && Ganged(s) && Sized(s') && s'.n == s.n && v < s.n && s'.assembly[v] == s.assembly[v]
    requires |s.tasks| == |s'.tasks|
    requires forall x :: InHand(s'.pc[v], x) ==> InHand(s.pc[v], x)
    requires forall t: nat :: t < |s.tasks| ==> s'.tasks[t].ticket == s.tasks[t].ticket
    ensures LineOk(s', v)
  {
    forall a, b | Ahead(s', v, a, b)
      ensures Before(s', a, b)
    {
      assert Ahead(s, v, a, b);
      assert LineOk(s, v);
    }
  }

  /** A task is never pushed beyond its place. */
  lemma PushedWithin(s: State, t: nat)
    requires Located(s) && t < |s.tasks| && InQueues(s.tasks[t])
    ensures s.tasks[t].pushed <= s.tasks[t].leader + s.tasks[t].width
    ensures s.tasks[t].phase.Placing? ==> s.tasks[t].pushed < s.tasks[t].leader + s.tasks[t].width
  {
    assert TaskOk(s, t);
    if s.tasks[t].phase.Placing? {
      assert PcOk(s, s.tasks[t].phase.worker);
    }
  }

  /** All the workers of the place have arrived only after the last push. */
  lemma AllArrived(s: State, t: nat)
    requires Located(s) && Ganged(s) && t < |s.tasks| && s.tasks[t].kind.Assembly? && InQueues(s.tasks[t])
    requires s.tasks[t].threadsIn >= s.tasks[t].width
    ensures s.tasks[t].phase.Placed?
  {
    var task := s.tasks[t];
    PushedWithin(s, t);
    assert GangOk(s, t);
    assert TaskOk(s, t);
    if task.phase.Placing? {
      assert PcOk(s, task.phase.worker);
      var upTo := Span(task.leader, task.pushed - task.leader);
      assert forall w :: w in task.arrived ==> InGang(s, t, w);
      assert task.arrived <= upTo;
      SubsetSize(task.arrived, upTo);
    }
  }

  lemma KeepsGangedEnter(s: State, w: nat)
    requires Ganged'(s) && At(s, w) && s.pc[w].Spinning? && s.tasks[s.pc[w].t].threadsIn >= s.tasks[s.pc[w].t].width
    ensures Ganged(SetPc(s, w, Running(s.pc[w].t)))
  {
    var t := s.pc[w].t;
    var s' := SetPc(s, w, Running(t));
    assert PcGang(s, w);
    AllArrived(s, t);
    forall v: nat | v < s.n
      ensures PcGang(s', v)
    {
      assert PcGang(s, v);
    }
    forall x: nat | x < |s'.tasks|
      ensures GangOk(s', x)
    {
      assert GangOk(s, x);
      assert s.tasks[x].kind.Assembly? ==> forall v :: v in s.tasks[x].arrived ==> InGang(s, x, v);
    }
    forall v: nat | v < s.n
      ensures QueueOk(s', v)
    {
      assert QueueOk(s, v);
      assert forall x :: x in s'.assembly[v] ==> EntryOk(s, v, x);
    }
    forall x: nat, v: nat | x < |s'.tasks| && v < s.n
      ensures CoverOk(s', x, v)
    {
      assert CoverOk(s, x, v);
    }
    forall v: nat | v < s.n
      ensures LineOk(s', v)
    {
      HandLine(s, s', v);
    }
  }

  lemma KeepsGangedLeaveEarly(s: State, w: nat)
    requires Ganged'(s) && At(s, w) && s.pc[w].Running?
    requires s.tasks[s.pc[w].t].threadsOut + 1 != s.tasks[s.pc[w].t].width
    ensures Ganged(LeaveEarly(s, w))
  {
    var t := s.pc[w].t;
    var s' := LeaveEarly(s, w);
    assert PcGang(s, w);
    forall v: nat | v < s.n
      ensures PcGang(s', v)
    {
      assert PcGang(s, v);
    }
    forall x: nat | x < |s'.tasks|
      ensures GangOk(s', x)
    {
      LeftEarlyGang(s, w, x);
    }
    forall v: nat | v < s.n
      ensures QueueOk(s', v)
    {
      LeftEarlyQueue(s, w, v);
    }
    forall x: nat, v: nat | x < |s'.tasks| && v < s.n
      ensures CoverOk(s', x, v)
    {
      assert CoverOk(s, x, v);
    }
    forall v: nat | v < s.n
      ensures LineOk(s', v)
    {
      HandLine(s, s', v);
    }
  }

  lemma LeftEarlyGang(s: State, w: nat, x: nat)
    requires Ganged'(s) && At(s, w) && s.pc[w].Running? && x < |s.tasks|
    requires s.tasks[s.pc[w].t].threadsOut + 1 != s.tasks[s.pc[w].t].width
    ensures GangOk(LeaveEarly(s, w), x)
  {
    assert PcGang(s, w);
    assert GangOk(s, x);
    assert s.tasks[x].kind.Assembly? ==> forall v :: v in s.tasks[x].arrived ==> InGang(s, x, v);
  }

  lemma LeftEarlyQueue(s: State, w: nat, v: nat)
    requires Ganged'(s) && At(s, w) && s.pc[w].Running? && v < s.n
    ensures QueueOk(LeaveEarly(s, w), v)
  {
    assert PcGang(s, w);
    assert QueueOk(s, v);
    assert forall x :: x in s.assembly[v] ==> EntryOk(s, v, x);
  }

  /** Once every worker of the place has finished, no queue and no other worker mentions the task. */
  lemma NobodyLeft(s: State, w: nat, v: nat)
    requires Ganged'(s) && At(s, w) && s.pc[w].Running? && v < s.n
    requires s.tasks[s.pc[w].t].finished + {w} == Members(s.tasks[s.pc[w].t])
    ensures s.pc[w].t !in s.assembly[v]
    ensures v != w ==> !InHand(s.pc[v], s.pc[w].t)
  {
    var t := s.pc[w].t;
    var task := s.tasks[t];
    assert PcGang(s, w);
    assert PcGang(s, v);
    assert QueueOk(s, v);
    assert GangOk(s, t);
    assert InGang(s, t, w);
    PushedWithin(s, t);
    assert v in Members(task) ==> v in task.arrived && (v in task.finished || v == w);
    assert v in task.arrived ==> v in Members(task);
    assert task.leader <= v < task.leader + task.width ==> v in Members(task);
  }

  lemma KeepsGangedLeaveLast(s: State, w: nat)
    requires Ganged'(s) && At(s, w) && s.pc[w].Running?
    requires s.tasks[s.pc[w].t].finished + {w} == Members(s.tasks[s.pc[w].t])
    ensures Ganged(LeaveLast(s, w))
  {
    var t := s.pc[w].t;
    var s' := LeaveLast(s, w);
    assert PcGang(s, w);
    forall v: nat | v < s.n
      ensures PcGang(s', v)
    {
      assert PcGang(s, v);
      NobodyLeft(s, w, v);
    }
    forall x: nat | x < |s'.tasks|
      ensures GangOk(s', x)
    {
      assert GangOk(s, x);
      assert s.tasks[x].kind.Assembly? ==> forall v :: v in s.tasks[x].arrived ==> InGang(s, x, v);
    }
    forall v: nat | v < s.n
      ensures QueueOk(s', v)
    {
      assert QueueOk(s, v);
      NobodyLeft(s, w, v);
      assert forall x :: x in s'.assembly[v] ==> EntryOk(s, v, x);
    }
    forall x: nat, v: nat | x < |s'.tasks| && v < s.n
      ensures CoverOk(s', x, v)
    {
      assert CoverOk(s, x, v);
    }
    forall v: nat | v < s.n
      ensures LineOk(s', v)
    {
      HandLine(s, s', v);
    }
  }

  /** The task being pushed is new to the queue, and everything already there was completely placed:
      an unfinished insertion would still hold the lock of this queue. */
  lemma PushTarget(s: State, w: nat, a: nat)
    requires Ganged'(s) && At(s, w) && s.pc[w].Pushing?
    ensures var i := s.pc[w].i;
            && s.pc[w].t !in s.assembly[i] && !InHand(s.pc[i], s.pc[w].t) && i !in s.tasks[s.pc[w].t].arrived
            && (a in s.assembly[i] || InHand(s.pc[i], a)
                ==> a < |s.tasks| && s.tasks[a].phase.Placed? && s.tasks[a].ticket > 0)
  {
    var t, i := s.pc[w].t, s.pc[w].i;
    assert PcOk(s, w);
    assert PcGang(s, i);
    assert QueueOk(s, i);
    assert GangOk(s, t);
    assert t in s.assembly[i] ==> EntryOk(s, i, t);
    assert i in s.tasks[t].arrived ==> InGang(s, t, i);
    if a in s.assembly[i] || InHand(s.pc[i], a) {
      assert a in s.assembly[i] ==> EntryOk(s, i, a);
      assert TaskOk(s, a);
      assert GangOk(s, a);
      assert i in s.tasks[a].arrived ==> InGang(s, a, i);
      assert LockOk(s, i, w);
      if s.tasks[a].phase.Placing? {
        InserterHolds(s, a, i);
      }
    }
  }

  /** Until the last push, the inserter holds the lock of every queue it has pushed on. */
  lemma InserterHolds(s: State, a: nat, i: nat)
    requires Located(s) && a < |s.tasks| && s.tasks[a].phase.Placing? && i < s.n
    requires s.tasks[a].leader <= i < s.tasks[a].pushed
    ensures s.tasks[a].phase.worker < s.n && s.locks[i] == By(s.tasks[a].phase.worker)
    ensures InsertsTask(s.pc[s.tasks[a].phase.worker], a)
  {
    assert TaskOk(s, a);
    var x := s.tasks[a].phase.worker;
    assert PcOk(s, x);
    assert LockOk(s, i, x);
  }

  lemma KeepsGangedPushMiddle(s: State, w: nat)
    requires Ganged'(s) && At(s, w) && s.pc[w].Pushing? && s.pc[w].i + 1 < s.pc[w].hi
    ensures Ganged(PushMiddle(s, w))
  {
    assert PcOk(s, w);
    assert TaskOk(s, s.pc[w].t);
    PushParts(s, PushMiddle(s, w), w);
  }

  lemma KeepsGangedPushLast(s: State, w: nat)
    requires Ganged'(s) && At(s, w) && s.pc[w].Pushing? && s.pc[w].i + 1 >= s.pc[w].hi
    ensures Ganged(PushLast(s, w))
  {
    PushParts(s, PushLast(s, w), w);
  }

  ghost predicate PushView(s: State, s': State, w: nat)
    requires At(s, w) && s.pc[w].Pushing?
  {
    var t, i := s.pc[w].t, s.pc[w].i;
    && Sized(s') && s'.n == s.n && |s'.tasks| == |s.tasks|
    && s'.pc == s.pc[w := s'.pc[w]] && !InAnyHand(s'.pc[w])
    && s'.assembly == s.assembly[i := s.assembly[i] + [t]]
    && (forall x: nat :: x < |s.tasks| && x != t ==> s'.tasks[x] == s.tasks[x])
    && s'.tasks[t] == s.tasks[t].(pushed := i + 1, phase := s'.tasks[t].phase, ticket := s'.tasks[t].ticket)
    && InQueues(s'.tasks[t]) && (s'.tasks[t].ticket == 0 || s'.tasks[t].ticket == s.clock)
  }

  lemma PushParts(s: State, s': State, w: nat)
    requires Ganged'(s) && At(s, w) && s.pc[w].Pushing? && PushView(s, s', w)
    ensures Ganged(s')
  {
    var t, i := s.pc[w].t, s.pc[w].i;
    assert PcOk(s, w);
    PushTarget(s, w, t);
    forall v: nat | v < s.n
      ensures PcGang(s', v)
    {
      assert PcGang(s, v);
    }
    forall x: nat | x < |s'.tasks|
      ensures GangOk(s', x)
    {
      assert GangOk(s, x);
      assert s.tasks[x].kind.Assembly? ==> forall v :: v in s.tasks[x].arrived ==> InGang(s, x, v);
    }
    forall v: nat | v < s.n
      ensures QueueOk(s', v)
    {
      assert QueueOk(s, v);
      assert forall x :: x in s'.assembly[v] ==> x == t || EntryOk(s, v, x);
      assert forall x :: x in s'.assembly[v] && x == t && v != i ==> EntryOk(s, v, t);
    }
    forall x: nat, v: nat | x < |s'.tasks| && v < s.n
      ensures CoverOk(s', x, v)
    {
      assert CoverOk(s, x, v);
      assert s'.assembly[i][|s.assembly[i]|] == t;
      assert x in s.assembly[v] ==> x in s'.assembly[v];
    }
    forall v: nat | v < s.n
      ensures LineOk(s', v)
    {
      PushLine(s, s', w, v);
    }
  }

  lemma PushLine(s: State, s': State, w: nat, v: nat)
    requires Ganged'(s) && At(s, w) && s.pc[w].Pushing? && PushView(s, s', w) && v < s.n
    ensures LineOk(s', v)
  {
    var t, i := s.pc[w].t, s.pc[w].i;
    forall a, b | Ahead(s', v, a, b)
      ensures Before(s', a, b)
    {
      PushOrder(s, s', w, v, a, b);
    }
  }

  lemma PushOrder(s: State, s': State, w: nat, v: nat, a: nat, b: nat)
    requires Ganged'(s) && At(s, w) && s.pc[w].Pushing? && PushView(s, s', w) && v < s.n && Ahead(s', v, a, b)
    ensures Before(s', a, b)
  {
    var t, i := s.pc[w].t, s.pc[w].i;
    PushTarget(s, w, a);
    assert PcOk(s, w);
    assert TaskOk(s, t);
    if Ahead(s, v, a, b) {
      AheadMembers(s, v, a, b);
      assert LineOk(s, v);
      assert Before(s, a, b);
      assert TaskOk(s, a);
    } else {
      NewPair(s, s', w, v, a, b);
      assert TaskOk(s, a);
    }
  }

  lemma NewPair(s: State, s': State, w: nat, v: nat, a: nat, b: nat)
    requires Sized(s) && At(s, w) && s.pc[w].Pushing? && PushView(s, s', w) && v < s.n
    requires Ahead(s', v, a, b) && !Ahead(s, v, a, b)
    ensures v == s.pc[w].i && b == s.pc[w].t && (a in s.assembly[v] || InHand(s.pc[v], a))
  {
    var t, i := s.pc[w].t, s.pc[w].i;
    if InHand(s'.pc[v], a) && b in s'.assembly[v] {
      assert b !in s.assembly[v];
    } else {
      var p, q :| 0 <= p < q < |s'.assembly[v]| && s'.assembly[v][p] == a && s'.assembly[v][q] == b;
      if v == i {
        assert s.assembly[v][p] == a;
        assert q < |s.assembly[v]| ==> Ahead(s, v, a, b);
      }
    }
  }
}
