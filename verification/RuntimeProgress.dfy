/** Deadlock freedom: ordered locks make "ahead of in some assembly queue" acyclic, so a gang can always form. */
module RuntimeProgress {
  import opened Collections
  import opened Runtime
  import opened RuntimeInvariant
  import opened RuntimeGanged

  /** Some worker meets `a` before `b`. */
  ghost predicate SomewhereAhead(s: State, a: nat, b: nat)
    requires Sized(s)
  {
    exists w: nat :: w < s.n && Ahead(s, w, a, b)
  }

  lemma {:induction false} ChainOfTickets(s: State, chain: seq<nat>)
    requires Inv(s) && |chain| >= 2
    requires forall k :: 0 <= k < |chain| - 1 ==> SomewhereAhead(s, chain[k], chain[k + 1])
    requires chain[|chain| - 1] < |s.tasks| && s.tasks[chain[|chain| - 1]].ticket > 0
    ensures chain[0] < |s.tasks| && 0 < s.tasks[chain[0]].ticket < s.tasks[chain[|chain| - 1]].ticket
    decreases |chain|
  {
    assert SomewhereAhead(s, chain[0], chain[0 + 1]);
    var w: nat :| w < s.n && Ahead(s, w, chain[0], chain[1]);
    assert LineOk(s, w);
    assert Before(s, chain[0], chain[1]);
    if |chain| > 2 {
      var rest := chain[1..];
      assert forall k :: 0 <= k < |rest| - 1 ==> SomewhereAhead(s, rest[k], rest[k + 1]) by {
        forall k | 0 <= k < |rest| - 1
          ensures SomewhereAhead(s, rest[k], rest[k + 1])
        {
          assert SomewhereAhead(s, chain[k + 1], chain[k + 2]);
        }
      }
      ChainOfTickets(s, rest);
    }
  }

  /** No cycle of tasks, each ahead of the next for some worker, exists in any reachable state: whatever the
      number of workers, however the places overlap, and with insertions half done. */
  lemma AheadIsAcyclic(s: State, cycle: seq<nat>)
    requires Inv(s) && |cycle| >= 2 && cycle[0] == cycle[|cycle| - 1]
    ensures !(forall k :: 0 <= k < |cycle| - 1 ==> SomewhereAhead(s, cycle[k], cycle[k + 1]))
  {
    if forall k :: 0 <= k < |cycle| - 1 ==> SomewhereAhead(s, cycle[k], cycle[k + 1]) {
      assert SomewhereAhead(s, cycle[0], cycle[1]);
      var w: nat :| w < s.n && Ahead(s, w, cycle[0], cycle[1]);
      assert LineOk(s, w);
      assert Before(s, cycle[0], cycle[1]);
      ChainOfTickets(s, cycle);
    }
  }

  /** Worker `w` can do something useful now: it is neither waiting for a lock that is taken nor spinning in a
      rendezvous that is not full, and if it holds no task then one of its own queues has one. */
  ghost predicate CanAdvance(s: State, w: nat)
    requires Sized(s) && w < s.n
  {
    match s.pc[w]
    case Exited => false
    case Locking(t, lo, i, hi, c) => i < s.n && s.locks[i].Free?
    case Spinning(t) => t < |s.tasks| && s.tasks[t].threadsIn >= s.tasks[t].width
    case _ => Idle(s.pc[w]) ==> s.assembly[w] != [] || s.ready[w] != []
  }

  ghost predicate SomeoneCanAdvance(s: State)
    requires Sized(s)
  {
    exists w: nat :: w < s.n && CanAdvance(s, w)
  }

  /** The step a worker with a task in hand takes next. */
  function NextStep(s: State, w: nat): Label
    requires At(s, w)
  {
    match s.pc[w]
    case Have(t) => if s.tasks[t].kind.Simple? then Hand(w, RunSimple) else Hand(w, Place(w, 1))
    case Locking(_, _, _, _, _) => Hand(w, Acquire)
    case Pushing(_, _, _, _, _) => Hand(w, PushOne)
    case Unlocking(_, _, _, _, _) => Hand(w, Release)
    case Arriving(_) => Gang(w, Arrive)
    case Spinning(_) => Gang(w, Enter)
    case Running(_) => Gang(w, Leave)
    case Commit(t, k) => if k < |s.tasks[t].out| then Finish(w, Drop) else Finish(w, Retire)
    case Wake(t, k) =>
      if s.tasks[s.tasks[t].out[k]].critical then Finish(w, WakeCritical(w, 1)) else Finish(w, WakeReady(w))
    case Top => Poll(w, if s.assembly[w] != [] then PopAssembly else NoAssembly)
    case OwnReady => Poll(w, if s.ready[w] != [] then PopOwn else NoOwn)
    case Steal => Poll(w, GiveUp)
    case FlushCompletions => Poll(w, FlushC)
    case FlushPool => Poll(w, FlushP)
    case Check => Poll(w, if s.canExit && s.pending == 0 then Exit else Loop)
    case Exited => Poll(w, Exit)
  }

  lemma WellTyped(s: State, w: nat)
    requires Inv(s) && w < s.n
    ensures At(s, w)
  {
    assert PcOk(s, w);
    if s.pc[w].Commit? && s.pc[w].k < |s.tasks[s.pc[w].t].out| {
      assert EdgeOk(s, s.pc[w].t, s.pc[w].k);
    }
  }

  /** `CanAdvance` means what it says: the step is enabled. */
  lemma AdvanceIsEnabled(s: State, w: nat)
    requires Inv(s) && w < s.n && CanAdvance(s, w)
    ensures At(s, w) && Enabled(s, NextStep(s, w))
  {
    WellTyped(s, w);
    if s.pc[w].Top? && s.assembly[w] != [] {
      assert QueueOk(s, w);
      assert s.assembly[w][0] in s.assembly[w];
      assert EntryOk(s, w, s.assembly[w][0]);
    }
    if s.pc[w].OwnReady? && s.ready[w] != [] {
      assert ReadyOk(s, w);
      assert Last(s.ready[w]) in s.ready[w];
    }
  }

  /** Worker `a` waits for an assembly lock that worker `b` holds. */
  ghost predicate WaitsFor(s: State, a: nat, b: nat) {
    a < |s.pc| && s.pc[a].Locking? && s.pc[a].i < |s.locks| && s.locks[s.pc[a].i] == By(b)
  }

  /** Each worker of the chain waits for the next one, which, if it waits too, does so for a higher lock. */
  ghost predicate LockChain(s: State, chain: seq<nat>) {
    && (forall k :: 0 <= k < |chain| ==> chain[k] < s.n && chain[k] < |s.pc|)
    && (forall k :: 0 < k < |chain| ==>
          && WaitsFor(s, chain[k - 1], chain[k])
          && (s.pc[chain[k]].Locking? ==> s.pc[chain[k - 1]].i < s.pc[chain[k]].i))
  }

  /** From a worker that waits for a lock, the chain of owners goes up the locks and ends at a worker that waits for
      nobody and can move. */
  lemma {:induction false} LockProgress(s: State, w: nat) returns (chain: seq<nat>)
    requires Inv(s) && w < s.n && s.pc[w].Locking?
    ensures |chain| >= 1 && chain[0] == w && LockChain(s, chain)
    ensures var last := chain[|chain| - 1]; CanAdvance(s, last) && forall v: nat :: !WaitsFor(s, last, v)
    ensures SomeoneCanAdvance(s)
    decreases s.n - (if s.pc[w].Locking? then s.pc[w].i else 0)
  {
    assert PcOk(s, w);
    var i := s.pc[w].i;
    if s.locks[i].Free? {
      assert CanAdvance(s, w);
      chain := [w];
    } else {
      var v := s.locks[i].owner;
      assert LockOk(s, i, v);
      assert PcOk(s, v);
      if s.pc[v].Locking? {
        var rest := LockProgress(s, v);
        chain := [w] + rest;
      } else {
        assert CanAdvance(s, v);
        chain := [w, v];
      }
    }
  }

  /** A completely placed task that is not finished always has a worker that can move: follow the smallest ticket. */
  lemma {:induction false} GangProgress(s: State, t: nat)
    requires Inv(s) && t < |s.tasks| && s.tasks[t].phase.Placed?
    ensures SomeoneCanAdvance(s)
    decreases s.tasks[t].ticket
  {
    var task := s.tasks[t];
    assert TaskOk(s, t);
    assert GangOk(s, t);
    if w: nat :| task.leader <= w < task.leader + task.width && w !in task.arrived {
      assert CoverOk(s, t, w);
      QueuedProgress(s, t, w);
    } else {
      ArrivedProgress(s, t);
    }
  }

  /** Everybody has arrived, and somebody has not finished. */
  lemma ArrivedProgress(s: State, t: nat)
    requires Inv(s) && t < |s.tasks| && s.tasks[t].phase.Placed?
    requires forall w: nat :: s.tasks[t].leader <= w < s.tasks[t].leader + s.tasks[t].width ==> w in s.tasks[t].arrived
    ensures SomeoneCanAdvance(s)
  {
    var task := s.tasks[t];
    assert TaskOk(s, t);
    assert GangOk(s, t);
    var all := Members(task);
    assert all <= task.arrived;
    SubsetSize(all, task.arrived);
    assert task.finished != task.arrived;
    var w :| w in task.arrived && w !in task.finished;
    assert InGang(s, t, w);
    assert CanAdvance(s, w);
  }

  lemma {:induction false} QueuedProgress(s: State, t: nat, w: nat)
    requires Inv(s) && t < |s.tasks| && s.tasks[t].phase.Placed? && w < s.n
    requires t in s.assembly[w] || s.pc[w] == Arriving(t)
    ensures SomeoneCanAdvance(s)
    decreases s.tasks[t].ticket, 0
  {
    if s.pc[w].Locking? {
      var _ := LockProgress(s, w);
    } else if s.pc[w].Spinning? {
      var u := s.pc[w].t;
      assert PcGang(s, w);
      assert Ahead(s, w, u, t);
      assert LineOk(s, w);
      assert Before(s, u, t);
      assert TaskOk(s, u);
      assert TaskOk(s, t);
      GangProgress(s, u);
    } else {
      NotExited(s, w, t);
      assert CanAdvance(s, w);
    }
  }

  lemma NotExited(s: State, w: nat, t: nat)
    requires Inv(s) && w < s.n && t < |s.tasks| && !s.tasks[t].phase.Done?
    ensures !s.pc[w].Exited?
  {
    assert ExitOk(s, w);
  }

  /** Gang deadlock freedom: while any task that has been handed out for distribution is unfinished, some worker
      is stuck neither in a lock nor in the start rendezvous. */
  lemma GangDeadlockFreedom(s: State, t: nat)
    requires Inv(s) && t < |s.tasks| && InQueues(s.tasks[t])
    ensures SomeoneCanAdvance(s)
  {
    if s.tasks[t].phase.Placed? {
      GangProgress(s, t);
    } else {
      assert TaskOk(s, t);
      var w := s.tasks[t].phase.worker;
      if s.pc[w].Locking? {
        var _ := LockProgress(s, w);
      } else {
        assert CanAdvance(s, w);
      }
    }
  }

  /** The graph has no cycle: some numbering grows along every edge. */
  ghost predicate Ranked(s: State, rank: nat -> nat) {
    forall a: nat, k: nat :: a < |s.tasks| && k < |s.tasks[a].out| ==> rank(a) < rank(s.tasks[a].out[k])
  }

  /** Every task without incoming edges has been pushed. */
  ghost predicate SourcesPushed(s: State) {
    forall t: nat :: t < |s.tasks| && s.tasks[t].phase.Created? ==> s.tasks[t].indegree > 0
  }

  /** Global deadlock freedom: with an acyclic graph whose sources have been pushed, as long as some created task
      is uncommitted some worker can advance. */
  lemma {:induction false} DeadlockFreedom(s: State, rank: nat -> nat, t: nat)
    requires Inv(s) && Ranked(s, rank) && SourcesPushed(s)
    requires t < |s.tasks| && !s.tasks[t].phase.Done?
    ensures SomeoneCanAdvance(s)
    decreases rank(t)
  {
    assert TaskOk(s, t);
    match s.tasks[t].phase {
      case Created =>
        assert RefOk(s, t);
        var e :| e in s.tasks[t].waiting;
        assert EdgeAt(s, e.0, e.1, t);
        assert EdgeOk(s, e.0, e.1);
        assert TaskOk(s, e.0);
        DeadlockFreedom(s, rank, e.0);
      case Ready(q) =>
        NotExited(s, q, t);
        if Stuck(s, q) {
          StuckProgress(s, q);
        } else {
          assert CanAdvance(s, q);
        }
      case Held(w) => assert CanAdvance(s, w);
      case Woken(w) => assert CanAdvance(s, w);
      case Placing(w) => GangDeadlockFreedom(s, t);
      case Placed => GangDeadlockFreedom(s, t);
      case Committing(w) =>
        if s.pc[w].Locking? {
          var _ := LockProgress(s, w);
        } else {
          assert CanAdvance(s, w);
        }
    }
  }

  predicate Stuck(s: State, w: nat)
    requires w < |s.pc|
  {
    s.pc[w].Locking? || s.pc[w].Spinning?
  }

  lemma StuckProgress(s: State, w: nat)
    requires Inv(s) && w < s.n && Stuck(s, w)
    ensures SomeoneCanAdvance(s)
  {
    if s.pc[w].Locking? {
      var _ := LockProgress(s, w);
    } else {
      assert PcGang(s, w);
      GangDeadlockFreedom(s, s.pc[w].t);
    }
  }
}
