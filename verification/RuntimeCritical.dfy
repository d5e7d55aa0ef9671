/** Why a critical task has to be an assembly task. */
module RuntimeCritical {
  // The client's guard on creating a task rules out a critical simple task. Behind it only assembly tasks ever enter
  // an assembly queue, whose entries the workers take for assembly tasks without looking. Without it the wake-up of a
  // critical simple task puts that task into an assembly queue, and there is a program that does so.

  import opened Runtime
  import opened RuntimeInvariant
  import opened RuntimeRuns
  import opened RuntimeSteps

  /** In every run, whatever is in an assembly queue is an assembly task. */
  lemma OnlyAssembliesQueued(n: nat, run: seq<Label>, q: nat, t: nat)
    requires IsRun(Init(n), run)
    ensures var s := Final(Init(n), run);
            q < |s.assembly| && t in s.assembly[q] ==> t < |s.tasks| && s.tasks[t].kind.Assembly?
  {
    ReachedInv(n, run);
    var s := Final(Init(n), run);
    if q < |s.assembly| && t in s.assembly[q] {
      assert QueueOk(s, q);
      assert EntryOk(s, q, t);
      assert TaskOk(s, t);
    }
  }

  /** A run with one more step in front. */
  lemma StepFirst(s: State, l: Label, s': State, rest: seq<Label>)
    requires Enabled(s, l) && Apply(s, l) == s' && IsRun(s', rest)
    ensures IsRun(s, [l] + rest) && Final(s, [l] + rest) == Final(s', rest)
  {
    assert ([l] + rest)[1..] == rest;
  }

  /** Worker `w` wakes the critical simple task `t`. */
  predicate Wakes(s: State, w: nat, t: nat) {
    && At(s, w) && s.pc[w].Wake? && Successor(s, w) == t && s.tasks[t].kind.Simple? && s.tasks[t].critical
  }

  /** Worker `w` is about to insert the simple task `t` into queue `q` alone. */
  predicate Inserts(s: State, w: nat, t: nat, q: nat) {
    && At(s, w) && (s.pc[w].Locking? || s.pc[w].Pushing?) && s.pc[w].t == t && s.pc[w].i == q && s.pc[w].hi == q + 1
    && q < s.n && (s.pc[w].Locking? ==> s.locks[q].Free?) && s.tasks[t].kind.Simple?
  }

  lemma WakeStep(s: State, w: nat, t: nat, q: nat)
    requires Wakes(s, w, t) && q < s.n && s.locks[q].Free?
    ensures Enabled(s, Finish(w, WakeCritical(q, 1)))
    ensures Inserts(Apply(s, Finish(w, WakeCritical(q, 1))), w, t, q)
  {
  }

  lemma AcquireStep(s: State, w: nat, t: nat, q: nat)
    requires Inserts(s, w, t, q) && s.pc[w].Locking?
    ensures Enabled(s, Hand(w, Acquire))
    ensures var s' := Apply(s, Hand(w, Acquire)); Inserts(s', w, t, q) && s'.pc[w].Pushing?
  {
  }

  predicate SimpleQueued(s: State, t: nat, q: nat) {
    t < |s.tasks| && s.tasks[t].kind.Simple? && q < |s.assembly| && t in s.assembly[q]
  }

  lemma PushStep(s: State, w: nat, t: nat, q: nat)
    requires Inserts(s, w, t, q) && s.pc[w].Pushing?
    ensures Enabled(s, Hand(w, PushOne)) && SimpleQueued(Apply(s, Hand(w, PushOne)), t, q)
  {
    assert t in s.assembly[q] + [t];
  }

  /** Whoever wakes a critical simple task puts it into an assembly queue: with the lock of any queue free, three steps
      of its own get it there. */
  lemma WokenIsQueued(s: State, w: nat, t: nat, q: nat) returns (run: seq<Label>)
    requires Wakes(s, w, t) && q < s.n && s.locks[q].Free?
    ensures IsRun(s, run) && SimpleQueued(Final(s, run), t, q)
  {
    var l1, l2, l3 := Finish(w, WakeCritical(q, 1)), Hand(w, Acquire), Hand(w, PushOne);
    WakeStep(s, w, t, q);
    var s1 := Apply(s, l1);
    AcquireStep(s1, w, t, q);
    var s2 := Apply(s1, l2);
    PushStep(s2, w, t, q);
    var s3 := Apply(s2, l3);
    StepFirst(s2, l3, s3, []);
    StepFirst(s1, l2, s2, [l3] + []);
    run := [l1] + ([l2] + ([l3] + []));
    StepFirst(s, l1, s1, [l2] + ([l3] + []));
  }

  // ---------------------------------------------------------------- a program with a critical simple task

  /** One worker and two simple tasks, of which the critical one is created behind the guard. */
  function TwoTasks(): State {
    ApplyCreate(ApplyCreate(Init(1), Simple, false, 0), Simple, true, 0)
  }

  /** The states of that program until the wake-up. */
  function Program(first: Task, second: Task, ready: seq<nat>, pc: Pc): State {
    State(1, [first, second], [ready], [[]], [Free], [pc], [0], [98], 100, false, 1)
  }

  lemma TwoTasksAre()
    ensures TwoTasks() == Program(NewTask(Simple, false), NewTask(Simple, true), [], Top)
  {
    var s := ApplyCreate(Init(1), Simple, false, 0);
    assert s.tasks == [NewTask(Simple, false)] && s.pool == [99];
    assert TwoTasks().tasks == [NewTask(Simple, false), NewTask(Simple, true)] && TwoTasks().pool == [98];
  }

  lemma LinkTasks(first: Task, second: Task)
    requires first == NewTask(Simple, false) && second == NewTask(Simple, true)
    ensures ApplyEdge(Program(first, second, [], Top), 0, 1)
            == Program(first.(out := [1]), second.(refcount := 1, indegree := 1, waiting := {(0, 0)}), [], Top)
  {
    var s := ApplyEdge(Program(first, second, [], Top), 0, 1);
    var linked := second.(refcount := 1, indegree := 1, waiting := {(0, 0)});
    assert first.out + [1] == [1] && second.waiting + {(0, 0)} == {(0, 0)};
    assert s.tasks == [first.(out := [1]), linked];
  }

  lemma PushFirst(first: Task, second: Task) returns (s: State)
    ensures s == Program(first.(phase := Ready(0)), second, [0], Top)
    ensures s == ApplyReady(Program(first, second, [], Top), 0, 0)
  {
    var none: seq<nat> := [];
    s := ApplyReady(Program(first, second, none, Top), 0, 0);
    assert none + [0] == [0];
    assert s.tasks == [first.(phase := Ready(0)), second] && s.ready == [[0]];
  }

  /** The client joins the tasks by an edge and pushes the first one. */
  lemma ClientSteps() returns (run: seq<Label>)
    ensures IsRun(TwoTasks(), run)
    ensures var second := NewTask(Simple, true).(refcount := 1, indegree := 1, waiting := {(0, 0)});
            Final(TwoTasks(), run)
            == Program(NewTask(Simple, false).(out := [1], phase := Ready(0)), second, [0], Top)
  {
    TwoTasksAre();
    var first, second := NewTask(Simple, false), NewTask(Simple, true);
    var s0 := Program(first, second, [], Top);
    var linked := second.(refcount := 1, indegree := 1, waiting := {(0, 0)});
    var s1 := Program(first.(out := [1]), linked, [], Top);
    var l1, l2 := Client(Master, MakeEdge(0, 1)), Client(Master, PushTask(0, 0));
    LinkTasks(first, second);
    var s2 := PushFirst(first.(out := [1]), linked);
    assert Enabled(s1, l2) && Apply(s1, l2) == s2;
    StepFirst(s1, l2, s2, []);
    run := [l1] + ([l2] + []);
    StepFirst(s0, l1, s1, [l2] + []);
  }

  /** The worker finds the first task, runs it and releases the other one. */
  lemma WorkerSteps(first: Task, second: Task) returns (run: seq<Label>)
    requires first.kind.Simple? && first.out == [1] && second.kind.Simple? && second.critical && second.refcount == 1
    ensures IsRun(Program(first, second, [0], Top), run) && Wakes(Final(Program(first, second, [0], Top), run), 0, 1)
    ensures Final(Program(first, second, [0], Top), run).locks == [Free]
  {
    var l1, l2, l3, l4 := Poll(0, NoAssembly), Poll(0, PopOwn), Hand(0, RunSimple), Finish(0, Drop);
    var s0, s1 := Program(first, second, [0], Top), Program(first, second, [0], OwnReady);
    assert Apply(s0, l1).pc == s1.pc;
    var s2 := TakeFirst(first, second);
    assert Enabled(s1, l2) && Apply(s1, l2) == s2;
    var s3 := RunFirst(first, second);
    assert Enabled(s2, l3) && Apply(s2, l3) == s3;
    var s4 := DropEdge(s3);
    StepFirst(s3, l4, s4, []);
    StepFirst(s2, l3, s3, [l4] + []);
    StepFirst(s1, l2, s2, [l3] + ([l4] + []));
    run := [l1] + ([l2] + ([l3] + ([l4] + [])));
    StepFirst(s0, l1, s1, [l2] + ([l3] + ([l4] + [])));
  }

  lemma TakeFirst(first: Task, second: Task) returns (s: State)
    ensures s == Program(first.(phase := Held(0)), second, [], Have(0))
    ensures s == ApplyTake(Program(first, second, [0], OwnReady), 0, 0)
  {
    s := ApplyTake(Program(first, second, [0], OwnReady), 0, 0);
    assert s.tasks == [first.(phase := Held(0)), second] && s.ready == [[]] && s.pc == [Have(0)];
  }

  lemma RunFirst(first: Task, second: Task) returns (s: State)
    ensures var done := first.(phase := Committing(0), leader := 0, width := 1, finished := {0});
            s == Program(done, second, [], Commit(0, 0))
    ensures s == ApplyRunSimple(Program(first.(phase := Held(0)), second, [], Have(0)), 0)
  {
    s := ApplyRunSimple(Program(first.(phase := Held(0)), second, [], Have(0)), 0);
    var done := first.(phase := Committing(0), leader := 0, width := 1, finished := {0});
    assert s.tasks == [done, second] && s.pc == [Commit(0, 0)];
  }

  lemma DropEdge(s: State) returns (s': State)
    requires s.n == 1 && Sized(s) && |s.tasks| == 2 && s.tasks[0].out == [1] && s.pc[0] == Commit(0, 0)
    requires s.tasks[1].kind.Simple? && s.tasks[1].critical && s.tasks[1].refcount == 1
    ensures Enabled(s, Finish(0, Drop)) && s' == Apply(s, Finish(0, Drop)) && Wakes(s', 0, 1) && s'.locks == s.locks
  {
    s' := Apply(s, Finish(0, Drop));
  }

  /** Without the guard the runtime loses its invariant: this program puts a simple task into an assembly queue, from
      which the worker would take it for an assembly task. */
  lemma GuardIsNeeded() returns (run: seq<Label>)
    ensures IsRun(TwoTasks(), run) && SimpleQueued(Final(TwoTasks(), run), 1, 0) && !Inv(Final(TwoTasks(), run))
  {
    var client := ClientSteps();
    var first := NewTask(Simple, false).(out := [1], phase := Ready(0));
    var second := NewTask(Simple, true).(refcount := 1, indegree := 1, waiting := {(0, 0)});
    var worker := WorkerSteps(first, second);
    RunConcat(TwoTasks(), client, worker);
    var insertion := WokenIsQueued(Final(TwoTasks(), client + worker), 0, 1, 0);
    RunConcat(TwoTasks(), client + worker, insertion);
    run := client + worker + insertion;
    NotInv(Final(TwoTasks(), run), 1, 0);
  }

  lemma NotInv(s: State, t: nat, q: nat)
    requires SimpleQueued(s, t, q)
    ensures !Inv(s)
  {
    if Inv(s) {
      assert EntryOk(s, q, t) by {
        assert QueueOk(s, q);
      }
    }
  }
}
