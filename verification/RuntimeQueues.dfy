/** In which order the queues hand out tasks, over whole runs. */
module RuntimeQueues {
  // A ready queue is a stack: whatever the workers do in between, the pop that brings the queue back to its old length
  // hands out the task whose push made it longer. An assembly queue is first in, first out.

  import opened Runtime

  // ---------------------------------------------------------------- ready queues

  /** How a step may change a queue that works at its end. */
  predicate EndStep(before: seq<nat>, after: seq<nat>) {
    || after == before
    || (after != [] && after[..|after| - 1] == before)
    || (before != [] && before[..|before| - 1] == after)
  }

  ghost predicate ReadySteps(s: State, s': State) {
    |s'.ready| == |s.ready| && forall q :: 0 <= q < |s.ready| ==> EndStep(s.ready[q], s'.ready[q])
  }

  lemma ReadyStep(s: State, l: Label)
    requires Enabled(s, l)
    ensures ReadySteps(s, Apply(s, l))
  {
    match l {
      case Client(who, act) =>
      case Poll(w, act) =>
      case Hand(w, act) => HandReady(s, w, act);
      case Gang(w, act) =>
      case Finish(w, act) => FinishReady(s, w, act);
    }
  }

  lemma HandReady(s: State, w: nat, act: HandAct)
    requires At(s, w) && EnabledHand(s, w, act)
    ensures ApplyHand(s, w, act).ready == s.ready
  {
    match act {
      case RunSimple =>
      case Place(leader, width) =>
      case Acquire =>
      case PushOne =>
      case Release =>
    }
  }

  lemma FinishReady(s: State, w: nat, act: CommitAct)
    requires At(s, w) && EnabledCommit(s, w, act)
    ensures ReadySteps(s, ApplyCommit(s, w, act))
  {
    match act {
      case Drop =>
      case Retire =>
      case WakeReady(q) =>
      case WakeCritical(leader, width) =>
    }
  }

  /** Ready queue `q` holds at least `n` tasks in every state of the run. */
  predicate StaysDeep(s: State, run: seq<Label>, q: nat, n: nat)
    requires IsRun(s, run)
    decreases |run|
  {
    q < |s.ready| && |s.ready[q]| >= n && (run == [] || StaysDeep(Apply(s, run[0]), run[1..], q, n))
  }

  lemma {:induction false} DeepStays(s: State, run: seq<Label>, q: nat, n: nat)
    requires IsRun(s, run) && StaysDeep(s, run, q, n)
    ensures var after := Final(s, run);
            q < |after.ready| && |after.ready[q]| >= n && after.ready[q][..n] == s.ready[q][..n]
    decreases |run|
  {
    if run != [] {
      var next := Apply(s, run[0]);
      ReadyStep(s, run[0]);
      DeepStays(next, run[1..], q, n);
      SamePrefix(s.ready[q], next.ready[q], n);
    }
  }

  lemma SamePrefix(before: seq<nat>, after: seq<nat>, n: nat)
    requires EndStep(before, after) && n <= |before| && n <= |after|
    ensures after[..n] == before[..n]
  {
    if after != [] && after[..|after| - 1] == before {
      assert after[..|after| - 1][..n] == after[..n];
    } else if before != [] && before[..|before| - 1] == after {
      assert before[..|before| - 1][..n] == before[..n];
    }
  }

  /** The step puts task `t` on ready queue `q`: the client pushes it, or a commit wakes it. */
  predicate PutsOn(s: State, l: Label, t: nat, q: nat)
    requires Enabled(s, l)
  {
    (l.Client? && l.client == PushTask(t, q)) || (l.Finish? && l.finish == WakeReady(q) && Successor(s, l.w) == t)
  }

  /** Worker `w` takes a task from ready queue `q`, its own or that of another worker. */
  predicate TakesFrom(l: Label, w: nat, q: nat) {
    l == Poll(w, StealFrom(q)) || (l == Poll(w, PopOwn) && w == q)
  }

  lemma PutLengthens(s: State, l: Label, t: nat, q: nat)
    requires Enabled(s, l) && PutsOn(s, l, t, q)
    ensures q < |s.ready| && q < |Apply(s, l).ready| && Apply(s, l).ready[q] == s.ready[q] + [t]
  {
  }

  lemma TakeShortens(s: State, l: Label, w: nat, q: nat, rest: seq<nat>, t: nat)
    requires Enabled(s, l) && TakesFrom(l, w, q) && q < |s.ready| && s.ready[q] == rest + [t]
    ensures w < |Apply(s, l).pc| && Apply(s, l).pc[w] == Have(t)
    ensures q < |Apply(s, l).ready| && Apply(s, l).ready[q] == rest
  {
    assert (rest + [t])[..|rest|] == rest;
  }

  /** Last in, first out: a task is put on a ready queue, which stays longer than it was before during whatever run, and
      is one task longer at the end; then the next take from it, by its worker or by a thief, hands out that task and
      leaves the queue as it was. */
  lemma LastInFirstOut(s: State, put: Label, t: nat, run: seq<Label>, take: Label, w: nat, q: nat)
    requires Enabled(s, put) && PutsOn(s, put, t, q)
    requires IsRun(Apply(s, put), run) && q < |s.ready| && StaysDeep(Apply(s, put), run, q, |s.ready[q]| + 1)
    requires var last := Final(Apply(s, put), run);
             Enabled(last, take) && TakesFrom(take, w, q) && |last.ready[q]| == |s.ready[q]| + 1
    ensures var after := Apply(Final(Apply(s, put), run), take);
            w < |after.pc| && after.pc[w] == Have(t) && q < |after.ready| && after.ready[q] == s.ready[q]
  {
    var first, last := Apply(s, put), Final(Apply(s, put), run);
    PutLengthens(s, put, t, q);
    DeepStays(first, run, q, |s.ready[q]| + 1);
    assert last.ready[q][..|s.ready[q]| + 1] == last.ready[q];
    TakeShortens(last, take, w, q, s.ready[q], t);
  }

  // ---------------------------------------------------------------- assembly queues

  /** The tasks that a step puts on assembly queue `q`. */
  function PushedBy(s: State, l: Label, q: nat): seq<nat>
    requires Enabled(s, l)
  {
    if l.Hand? && l.hand.PushOne? && s.pc[l.w].i == q then [s.pc[l.w].t] else []
  }

  /** The tasks that a step of worker `q` takes off its assembly queue: what it goes on with. */
  function TakenBy(s: State, l: Label, q: nat): seq<nat>
    requires Enabled(s, l)
  {
    if l == Poll(q, PopAssembly) then [Apply(s, l).pc[q].t] else []
  }

  function Pushed(s: State, run: seq<Label>, q: nat): seq<nat>
    requires IsRun(s, run)
    decreases |run|
  {
    if run == [] then [] else PushedBy(s, run[0], q) + Pushed(Apply(s, run[0]), run[1..], q)
  }

  function Taken(s: State, run: seq<Label>, q: nat): seq<nat>
    requires IsRun(s, run)
    decreases |run|
  {
    if run == [] then [] else TakenBy(s, run[0], q) + Taken(Apply(s, run[0]), run[1..], q)
  }

  ghost predicate AssemblyStep(s: State, l: Label, q: nat)
    requires Enabled(s, l)
  {
    var s' := Apply(s, l);
    && q < |s.assembly| && q < |s'.assembly|
    && s.assembly[q] + PushedBy(s, l, q) == TakenBy(s, l, q) + s'.assembly[q]
  }

  lemma AssemblySteps(s: State, l: Label, q: nat)
    requires Enabled(s, l) && q < |s.assembly|
    ensures AssemblyStep(s, l, q)
  {
    match l {
      case Client(who, act) =>
      case Poll(w, act) =>
      case Hand(w, act) => HandAssembly(s, w, act, q);
      case Gang(w, act) =>
      case Finish(w, act) =>
    }
  }

  lemma HandAssembly(s: State, w: nat, act: HandAct, q: nat)
    requires At(s, w) && EnabledHand(s, w, act) && q < |s.assembly|
    ensures AssemblyStep(s, Hand(w, act), q)
  {
    match act {
      case RunSimple =>
      case Place(leader, width) =>
      case Acquire =>
      case PushOne =>
      case Release =>
    }
  }

  /** First in, first out: over any run, what assembly queue `q` held and what was pushed on it is what its worker took
      from it and what it still holds, in this order. */
  lemma {:induction false} FirstInFirstOut(s: State, run: seq<Label>, q: nat)
    requires IsRun(s, run) && q < |s.assembly|
    ensures q < |Final(s, run).assembly|
    ensures s.assembly[q] + Pushed(s, run, q) == Taken(s, run, q) + Final(s, run).assembly[q]
    decreases |run|
  {
    if run != [] {
      var next := Apply(s, run[0]);
      AssemblySteps(s, run[0], q);
      FirstInFirstOut(next, run[1..], q);
      Regroup(s.assembly[q], PushedBy(s, run[0], q), TakenBy(s, run[0], q), next.assembly[q],
              Pushed(next, run[1..], q), Taken(next, run[1..], q), Final(s, run).assembly[q]);
    }
  }

  lemma Regroup(x: seq<nat>, put: seq<nat>, got: seq<nat>, y: seq<nat>, puts: seq<nat>, gots: seq<nat>, z: seq<nat>)
    requires x + put == got + y && y + puts == gots + z
    ensures x + (put + puts) == (got + gots) + z
  {
    assert x + (put + puts) == (x + put) + puts;
    assert (got + y) + puts == got + (y + puts);
    assert got + (gots + z) == (got + gots) + z;
  }
}
