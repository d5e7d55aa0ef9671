/** What holds in every reachable state of the runtime.

    `Located`: each task is in exactly one place, and the control point of each worker agrees with the phase of the
    task it works on; an insertion over several assembly queues holds a contiguous range of their locks. `Ganged`: a
    worker's progress through a gang, who has arrived and who has finished, and that each assembly queue holds tasks in
    the order of their last push. `Counted`: `refcount` is the number of edges not yet released. `Balanced`: what
    `pending_tasks` is the sum of. `ExitsSafe`: nobody has left while a task was uncommitted. */
module RuntimeInvariant {
  import opened Runtime

  predicate Idle(p: Pc) {
    p.Top? || p.OwnReady? || p.Steal? || p.FlushCompletions? || p.FlushPool? || p.Check? || p.Exited?
  }

  /** The workers of a task's place. */
  ghost function Members(task: Task): set<nat> {
    Span(task.leader, task.width)
  }

  ghost function Span(lo: nat, len: nat): (r: set<nat>)
    ensures |r| == len
    ensures forall w: nat :: w in r <==> lo <= w < lo + len
  {
    if len == 0 then {} else Span(lo, len - 1) + {lo + len - 1}
  }

  predicate InQueues(task: Task) {
    task.phase.Placing? || task.phase.Placed?
  }

  predicate Untouched(task: Task) {
    && task.arrived == {} && task.finished == {} && task.threadsIn == 0 && task.threadsOut == 0
    && task.ticket == 0 && task.released == 0
  }

  predicate HasPlace(s: State, task: Task) {
    task.width >= 1 && task.leader + task.width <= s.n
  }

  predicate FullyPlaced(s: State, task: Task) {
    && task.pushed == task.leader + task.width
    && 0 < task.ticket < s.clock
  }

  // ---------------------------------------------------------------- who has which task

  ghost predicate ContOk(s: State, w: nat, c: Cont) {
    match c
    case ToTop => true
    case ToCommit(a, k) => CommitsFrom(s, w, a, k)
  }

  ghost predicate CommitsFrom(s: State, w: nat, a: nat, k: nat) {
    a < |s.tasks| && s.tasks[a].phase == Committing(w) && k <= |s.tasks[a].out| && s.tasks[a].released == k
  }

  ghost predicate Inserting(s: State, w: nat, t: nat, lo: nat, i: nat, hi: nat, c: Cont) {
    && t < |s.tasks| && s.tasks[t].kind.Assembly?
    && lo == s.tasks[t].leader && hi == lo + s.tasks[t].width && lo <= i < hi <= s.n
    && ContOk(s, w, c)
  }

  /** The control point of worker `w` agrees with the phase of the task it works on. */
  ghost predicate PcOk(s: State, w: nat)
    requires w < |s.pc|
  {
    var holds :=
      match s.pc[w]
      case Have(t) => t < |s.tasks| && s.tasks[t].phase == Held(w)
      case Locking(t, lo, i, hi, c) =>
        Inserting(s, w, t, lo, i, hi, c) && s.tasks[t].phase == Placing(w) && s.tasks[t].pushed == i
      case Pushing(t, lo, i, hi, c) =>
        Inserting(s, w, t, lo, i, hi, c) && s.tasks[t].phase == Placing(w) && s.tasks[t].pushed == i
      case Unlocking(t, lo, i, hi, c) => Inserting(s, w, t, lo, i, hi, c) && s.tasks[t].ticket > 0
      case Commit(t, k) => CommitsFrom(s, w, t, k)
      case Wake(t, k) =>
        && t < |s.tasks| && s.tasks[t].phase == Committing(w) && k < |s.tasks[t].out| && s.tasks[t].released == k + 1
        && s.tasks[t].out[k] < |s.tasks| && s.tasks[s.tasks[t].out[k]].phase == Woken(w)
      case Arriving(t) => t < |s.tasks|
      case Spinning(t) => t < |s.tasks|
      case Running(t) => t < |s.tasks|
      case _ => true;
    holds
  }

  predicate InsertsTask(p: Pc, t: nat) {
    (p.Locking? || p.Pushing?) && p.t == t
  }

  predicate CommitsTask(p: Pc, t: nat) {
    match p
    case Commit(a, k) => a == t
    case Wake(a, k) => a == t
    case Locking(_, _, _, _, c) => c.ToCommit? && c.task == t
    case Pushing(_, _, _, _, c) => c.ToCommit? && c.task == t
    case Unlocking(_, _, _, _, c) => c.ToCommit? && c.task == t
    case _ => false
  }

  /** A task that a phase gives to a worker or a queue is there. */
  ghost predicate TaskOk(s: State, t: nat)
    requires t < |s.tasks| && Sized(s)
  {
    var task := s.tasks[t];
    var holds :=
      && (task.critical ==> task.kind.Assembly?)
      && match task.phase
         case Created => Untouched(task)
         case Ready(q) => Untouched(task) && q < s.n && t in s.ready[q]
         case Held(w) => Untouched(task) && w < s.n && s.pc[w] == Have(t)
         case Woken(w) =>
           && Untouched(task) && w < s.n && s.pc[w].Wake?
           && s.pc[w].t < |s.tasks| && s.pc[w].k < |s.tasks[s.pc[w].t].out|
           && s.tasks[s.pc[w].t].out[s.pc[w].k] == t
         case Placing(w) =>
           && task.kind.Assembly? && HasPlace(s, task) && task.ticket == 0 && task.released == 0
           && w < s.n && InsertsTask(s.pc[w], t)
         case Placed => task.kind.Assembly? && HasPlace(s, task) && FullyPlaced(s, task) && task.released == 0
         case Committing(w) =>
           && HasPlace(s, task) && task.finished == Members(task) && w < s.n && CommitsTask(s.pc[w], t)
           && (task.kind.Assembly? ==> FullyPlaced(s, task)) && (task.kind.Simple? ==> task.ticket == 0)
         case Done =>
           && HasPlace(s, task) && task.finished == Members(task) && task.released == |task.out|
           && (task.kind.Assembly? ==> FullyPlaced(s, task)) && (task.kind.Simple? ==> task.ticket == 0);
    holds
  }

  ghost predicate NoRepeats(q: seq<nat>) {
    forall i, j :: 0 <= i < j < |q| ==> q[i] != q[j]
  }

  ghost predicate ReadyOk(s: State, q: nat)
    requires q < |s.ready|
  {
    && NoRepeats(s.ready[q])
    && forall t :: t in s.ready[q] ==> t < |s.tasks| && s.tasks[t].phase == Ready(q)
  }

  /** An insertion over [lo, hi) takes the locks from `lo` up and gives them back from `lo` up. */
  predicate Holds(p: Pc, i: nat) {
    match p
    case Locking(_, lo, j, _, _) => lo <= i < j
    case Pushing(_, lo, j, _, _) => lo <= i <= j
    case Unlocking(_, _, j, hi, _) => j <= i < hi
    case _ => false
  }

  ghost predicate LockOk(s: State, i: nat, w: nat)
    requires i < |s.locks| && w < |s.pc|
  {
    s.locks[i] == By(w) <==> Holds(s.pc[w], i)
  }

  ghost predicate OwnersExist(s: State) {
    forall i :: 0 <= i < |s.locks| && s.locks[i].By? ==> s.locks[i].owner < s.n
  }

  ghost predicate Located(s: State) {
    && Sized(s) && s.clock >= 1
    && (forall w: nat :: w < s.n ==> PcOk(s, w))
    && (forall t: nat :: t < |s.tasks| ==> TaskOk(s, t))
    && (forall q: nat :: q < s.n ==> ReadyOk(s, q))
    && (forall i: nat, w: nat :: i < s.n && w < s.n ==> LockOk(s, i, w))
    && OwnersExist(s)
  }

  // ---------------------------------------------------------------- gangs and assembly queues

  /** A worker's progress through the task it popped from its assembly queue. */
  ghost predicate PcGang(s: State, w: nat)
    requires w < |s.pc|
  {
    match s.pc[w]
    case Arriving(t) =>
      && t < |s.tasks| && s.tasks[t].kind.Assembly? && InQueues(s.tasks[t])
      && s.tasks[t].leader <= w < s.tasks[t].pushed && w !in s.tasks[t].arrived
    case Spinning(t) =>
      && t < |s.tasks| && s.tasks[t].kind.Assembly? && InQueues(s.tasks[t])
      && w in s.tasks[t].arrived && w !in s.tasks[t].finished
    case Running(t) =>
      && t < |s.tasks| && s.tasks[t].kind.Assembly? && s.tasks[t].phase.Placed?
      && w in s.tasks[t].arrived && w !in s.tasks[t].finished && s.tasks[t].threadsIn >= s.tasks[t].width
    case _ => true
  }

  ghost predicate GangOk(s: State, t: nat)
    requires t < |s.tasks|
  {
    var task := s.tasks[t];
    task.kind.Assembly? ==>
      && task.threadsIn == |task.arrived| && task.threadsOut == |task.finished|
      && task.finished <= task.arrived
      && (forall w :: w in task.arrived ==> InGang(s, t, w))
      && (InQueues(task) ==> task.threadsOut < task.width)
  }

  ghost predicate InGang(s: State, t: nat, w: nat)
    requires t < |s.tasks|
  {
    && s.tasks[t].leader <= w < s.tasks[t].pushed && w < |s.pc|
        && s.tasks[t].pushed <= s.tasks[t].leader + s.tasks[t].width
    && (w in s.tasks[t].finished || s.pc[w] == Spinning(t) || s.pc[w] == Running(t))
  }

  ghost predicate EntryOk(s: State, w: nat, t: nat)
    requires w < |s.pc|
  {
    && t < |s.tasks| && s.tasks[t].kind.Assembly? && InQueues(s.tasks[t])
    && s.tasks[t].leader <= w < s.tasks[t].pushed && w !in s.tasks[t].arrived && s.pc[w] != Arriving(t)
  }

  ghost predicate QueueOk(s: State, w: nat)
    requires w < |s.pc| && w < |s.assembly|
  {
    NoRepeats(s.assembly[w]) && forall t :: t in s.assembly[w] ==> EntryOk(s, w, t)
  }

  /** A task pushed for worker `w` is in its queue, in its hands, or has arrived. */
  ghost predicate CoverOk(s: State, t: nat, w: nat)
    requires t < |s.tasks| && w < |s.pc| && w < |s.assembly|
  {
    (InQueues(s.tasks[t]) && s.tasks[t].leader <= w < s.tasks[t].pushed)
    ==> t in s.assembly[w] || s.pc[w] == Arriving(t) || w in s.tasks[t].arrived
  }

  /** `a` was completely placed, and before `b` was. */
  ghost predicate Before(s: State, a: nat, b: nat) {
    && a < |s.tasks| && b < |s.tasks|
    && 0 < s.tasks[a].ticket && (s.tasks[b].ticket > 0 ==> s.tasks[a].ticket < s.tasks[b].ticket)
  }

  predicate InHand(p: Pc, t: nat) {
    (p.Arriving? || p.Spinning? || p.Running?) && p.t == t
  }

  /** Worker `w` meets task `a` before task `b`: `a` is in its hands or nearer the head of its queue. */
  ghost predicate Ahead(s: State, w: nat, a: nat, b: nat)
    requires w < |s.pc| && w < |s.assembly|
  {
    || (InHand(s.pc[w], a) && b in s.assembly[w])
    || (exists p, q :: 0 <= p < q < |s.assembly[w]| && s.assembly[w][p] == a && s.assembly[w][q] == b)
  }

  ghost predicate LineOk(s: State, w: nat)
    requires w < |s.pc| && w < |s.assembly|
  {
    forall a, b :: Ahead(s, w, a, b) ==> Before(s, a, b)
  }

  ghost predicate Ganged(s: State)
    requires Sized(s)
  {
    && (forall w: nat :: w < s.n ==> PcGang(s, w))
    && (forall t: nat :: t < |s.tasks| ==> GangOk(s, t))
    && (forall w: nat :: w < s.n ==> QueueOk(s, w))
    && (forall t: nat, w: nat :: t < |s.tasks| && w < s.n ==> CoverOk(s, t, w))
    && (forall w: nat :: w < s.n ==> LineOk(s, w))
  }

  // ---------------------------------------------------------------- the task graph

  ghost predicate RefOk(s: State, t: nat)
    requires t < |s.tasks|
  {
    var task := s.tasks[t];
    && task.refcount == |task.waiting|
    && (!task.phase.Created? ==> task.waiting == {})
    && (task.phase.Created? && task.indegree > 0 ==> task.waiting != {})
    && (task.indegree == 0 ==> task.waiting == {})
    && (forall e :: e in task.waiting ==> EdgeAt(s, e.0, e.1, t))
  }

  ghost predicate EdgeAt(s: State, a: nat, k: nat, b: nat) {
    a < |s.tasks| && k < |s.tasks[a].out| && s.tasks[a].out[k] == b
  }

  ghost predicate EdgeOk(s: State, a: nat, k: nat)
    requires a < |s.tasks| && k < |s.tasks[a].out|
  {
    var b := s.tasks[a].out[k];
    b < |s.tasks| && b != a && s.tasks[b].indegree > 0 && ((a, k) in s.tasks[b].waiting <==> s.tasks[a].released <= k)
  }

  ghost predicate Counted(s: State) {
    && (forall t: nat :: t < |s.tasks| ==> RefOk(s, t))
    && (forall a: nat, k: nat :: a < |s.tasks| && k < |s.tasks[a].out| ==> EdgeOk(s, a, k))
  }

  // ---------------------------------------------------------------- pending_tasks

  function Open(tasks: seq<Task>): nat {
    if tasks == [] then 0 else Open(tasks[..|tasks| - 1]) + (if tasks[|tasks| - 1].phase.Done? then 0 else 1)
  }

  function Sum(a: seq<nat>): nat {
    if a == [] then 0 else Sum(a[..|a| - 1]) + a[|a| - 1]
  }

  /** Created but uncommitted tasks, unflushed completions and unused pool credits. */
  predicate Balanced(s: State) {
    s.pending == Open(s.tasks) + Sum(s.completions) + Sum(s.pool)
  }

  ghost predicate ExitOk(s: State, w: nat)
    requires w < |s.pc|
  {
    s.pc[w].Exited? ==> s.canExit && (forall t: nat :: t < |s.tasks| ==> s.tasks[t].phase.Done?)
  }

  ghost predicate ExitsSafe(s: State) {
    forall w: nat :: w < |s.pc| ==> ExitOk(s, w)
  }

  ghost predicate Inv(s: State) {
    Located(s) && Ganged(s) && Counted(s) && Balanced(s) && ExitsSafe(s)
  }

  // ---------------------------------------------------------------- the effect of dropping an edge

  /** Worker `w` drops edge `k` of `t`, which leads to `u`. */
  ghost predicate Dropped(s: State, s': State, w: nat, t: nat, k: nat, u: nat) {
    && w < |s.pc| && t < |s.tasks| && u < |s.tasks| && u != t && k < |s.tasks[t].out| && s.tasks[t].out[k] == u
    && s'.n == s.n && s'.ready == s.ready && s'.assembly == s.assembly && s'.locks == s.locks && s'.clock == s.clock
    && s'.completions == s.completions && s'.pool == s.pool && s'.pending == s.pending && s'.canExit == s.canExit
    && |s'.tasks| == |s.tasks|
    && s'.tasks[t] == s.tasks[t].(released := k + 1)
    && s'.tasks[u] == s.tasks[u].(refcount := s.tasks[u].refcount - 1, waiting := s.tasks[u].waiting - {(t, k)},
                                  phase := if s.tasks[u].refcount == 1 then Woken(w) else s.tasks[u].phase)
    && (forall x: nat :: x < |s.tasks| && x != t && x != u ==> s'.tasks[x] == s.tasks[x])
    && s'.pc == s.pc[w := if s.tasks[u].refcount == 1 then Wake(t, k) else Commit(t, k + 1)]
  }

  /** The successor whose edge is dropped has not been released before. */
  lemma DropEffect(s: State, w: nat)
    requires Located(s) && Counted(s) && At(s, w) && s.pc[w].Commit? && s.pc[w].k < |s.tasks[s.pc[w].t].out|
    ensures var t, k := s.pc[w].t, s.pc[w].k;
            var u := s.tasks[t].out[k];
            && Dropped(s, ApplyDrop(s, w), w, t, k, u)
            && s.tasks[u].phase.Created? && (t, k) in s.tasks[u].waiting && CommitsFrom(s, w, t, k)
  {
    assert PcOk(s, w);
    assert EdgeOk(s, s.pc[w].t, s.pc[w].k);
    assert RefOk(s, s.tasks[s.pc[w].t].out[s.pc[w].k]);
  }
}
