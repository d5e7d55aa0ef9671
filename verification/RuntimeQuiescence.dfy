/** `pending_tasks` counts exactly the uncommitted tasks, the unflushed completions and the unused credits;
    when it is zero nothing is left to do. */
module RuntimeQuiescence {
  import opened Runtime
  import opened RuntimeInvariant

  lemma {:induction false} SumUpdate(a: seq<nat>, i: nat, x: nat)
    requires i < |a|
    ensures Sum(a[i := x]) == Sum(a) - a[i] + x
  {
    var b := a[i := x];
    var last := |a| - 1;
    if i == last {
      assert b[..last] == a[..last];
    } else {
      assert b[..last] == a[..last][i := x];
      SumUpdate(a[..last], i, x);
    }
  }

  function OpenOne(task: Task): nat {
    if task.phase.Done? then 0 else 1
  }

  lemma {:induction false} OpenUpdate(tasks: seq<Task>, t: nat, task: Task)
    requires t < |tasks|
    ensures Open(tasks[t := task]) == Open(tasks) - OpenOne(tasks[t]) + OpenOne(task)
  {
    var b := tasks[t := task];
    var last := |tasks| - 1;
    if t == last {
      assert b[..last] == tasks[..last];
    } else {
      assert b[..last] == tasks[..last][t := task];
      OpenUpdate(tasks[..last], t, task);
    }
  }

  lemma {:induction false} OpenSame(a: seq<Task>, b: seq<Task>)
    requires |a| == |b| && forall t :: 0 <= t < |a| ==> a[t].phase.Done? == b[t].phase.Done?
    ensures Open(a) == Open(b)
  {
    if a != [] {
      OpenSame(a[..|a| - 1], b[..|b| - 1]);
    }
  }

  lemma {:induction false} NothingOpen(tasks: seq<Task>)
    ensures Open(tasks) == 0 <==> forall t :: 0 <= t < |tasks| ==> tasks[t].phase.Done?
  {
    if tasks != [] {
      var front := tasks[..|tasks| - 1];
      NothingOpen(front);
      assert forall t :: 0 <= t < |front| ==> front[t] == tasks[t];
    }
  }

  lemma {:induction false} SumZero(n: nat)
    ensures Sum(seq(n, _ => 0)) == 0
  {
    if n > 0 {
      var z := seq<nat>(n, _ => 0);
      assert z[..n - 1] == seq(n - 1, _ => 0);
      SumZero(n - 1);
    }
  }

  /** Steps that neither create nor commit a task, nor flush a count. */
  lemma BalanceFrame(s: State, s': State)
    requires Balanced(s) && s'.pending == s.pending && s'.completions == s.completions && s'.pool == s.pool
    requires |s'.tasks| == |s.tasks|
    requires forall t :: 0 <= t < |s.tasks| ==> s.tasks[t].phase.Done? == s'.tasks[t].phase.Done?
    ensures Balanced(s')
  {
    OpenSame(s.tasks, s'.tasks);
  }

  lemma KeepsBalancedCreate(s: State, kind: Kind, critical: bool, p: nat)
    requires Balanced(s) && p < |s.pool|
    ensures Balanced(ApplyCreate(s, kind, critical, p))
  {
    var s' := ApplyCreate(s, kind, critical, p);
    assert s'.tasks[..|s'.tasks| - 1] == s.tasks;
    SumUpdate(s.pool, p, if s.pool[p] == 0 then TASK_POOL - 1 else s.pool[p] - 1);
  }

  lemma KeepsBalancedFlush(s: State, w: nat)
    requires Balanced(s) && w < |s.pc| && w < |s.completions| && w < |s.pool|
    ensures Balanced(ApplyFlushC(s, w)) && Balanced(ApplyFlushP(s, w))
  {
    SumUpdate(s.completions, w, 0);
    SumUpdate(s.pool, w, 0);
  }

  lemma KeepsBalancedRetire(s: State, w: nat)
    requires Located(s) && Balanced(s) && At(s, w) && s.pc[w].Commit?
    ensures Balanced(ApplyRetire(s, w))
  {
    var t := s.pc[w].t;
    assert PcOk(s, w);
    OpenUpdate(s.tasks, t, s.tasks[t].(phase := Done));
    SumUpdate(s.completions, w, s.completions[w] + 1);
  }

  /** Nothing is in progress: no queue holds a task, no lock is taken, no worker has anything in hand. */
  ghost predicate Quiescent(s: State)
    requires Sized(s)
  {
    && (forall t: nat :: t < |s.tasks| ==> s.tasks[t].phase.Done?)
    && (forall w: nat :: w < s.n ==> s.ready[w] == [] && s.assembly[w] == [])
    && (forall w: nat :: w < s.n ==> Idle(s.pc[w]) || (s.pc[w].Unlocking? && s.pc[w].cont.ToTop?))
  }

  /** All tasks committed means that no queue and no worker holds one. The only thing that may still go on is
      the release of assembly locks by the worker that distributed a task which its gang has already run. */
  lemma AllDoneIsQuiescent(s: State)
    requires Located(s) && Ganged(s) && forall t: nat :: t < |s.tasks| ==> s.tasks[t].phase.Done?
    ensures Quiescent(s)
  {
    forall w: nat | w < s.n
      ensures s.ready[w] == [] && s.assembly[w] == []
    {
      assert ReadyOk(s, w);
      assert QueueOk(s, w);
      assert forall t :: t in s.assembly[w] ==> EntryOk(s, w, t);
      NoMembers(s.ready[w]);
      NoMembers(s.assembly[w]);
    }
    forall w: nat | w < s.n
      ensures Idle(s.pc[w]) || (s.pc[w].Unlocking? && s.pc[w].cont.ToTop?)
    {
      assert PcOk(s, w);
      assert PcGang(s, w);
    }
  }

  lemma NoMembers(q: seq<nat>)
    requires forall t :: t !in q
    ensures q == []
  {
    HeadIsMember(q);
  }

  lemma HeadIsMember(q: seq<nat>)
    ensures q != [] ==> q[0] in q
  {
  }

  /** Quiescence detection is sound and complete: `pending_tasks` is never negative, and it is zero exactly when
      every created task has committed and all commits and credits have been flushed. */
  lemma PendingZero(s: State)
    requires Inv(s)
    ensures s.pending >= 0
    ensures s.pending == 0 <==>
              (forall t: nat :: t < |s.tasks| ==> s.tasks[t].phase.Done?) && Sum(s.completions) == 0 && Sum(s.pool) == 0
    ensures s.pending <= 0 ==> Quiescent(s)
  {
    NothingOpen(s.tasks);
    if s.pending <= 0 {
      AllDoneIsQuiescent(s);
    }
  }
}
