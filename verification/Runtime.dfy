/** The XiTAO runtime as an interleaving state machine.

    One state holds every queue, lock and counter the workers share, and the control point of each worker.
    A label names one atomic step of the client or of one worker; `Enabled` is its guard, `Apply` its effect.
    A run is a sequence of enabled labels, so any interleaving (and any stealing) is a run. */
module Runtime {

  /** TASK_POOL: how many tasks a thread accounts for in `pending_tasks` at once. */
  const TASK_POOL: nat := 100

  datatype Kind = Simple | Assembly

  /** Where a task is. The owner named in a phase is the worker that has the task in hand. */
  datatype Phase =
    | Created
    | Ready(queue: nat)
    | Held(worker: nat)
    | Woken(worker: nat)
    | Placing(worker: nat)
    | Placed
    | Committing(worker: nat)
    | Done

  /** The fields from `pushed` on are bookkeeping of the model: they record what has happened to the
      task and no guard reads them. `pushed` is the first assembly queue not yet pushed on, `ticket` the
      moment the last push was made (0: not yet), `arrived` and `finished` the workers that entered the
      rendezvous and that completed `execute`, `released` the number of successors already decremented,
      `waiting` the incoming edges not yet released. */
  datatype Task = Task(
    kind: Kind,
    critical: bool,
    out: seq<nat>,
    refcount: int,
    leader: nat,
    width: nat,
    threadsIn: nat,
    threadsOut: nat,
    phase: Phase,
    indegree: nat,
    pushed: nat,
    ticket: nat,
    arrived: set<nat>,
    finished: set<nat>,
    released: nat,
    waiting: set<(nat, nat)>)

  /** What a worker does after an insertion into the assembly queues. */
  datatype Cont = ToTop | ToCommit(task: nat, next: nat)

  /** Control points of `worker_loop` and of the functions it calls. */
  datatype Pc =
    | Top
    | OwnReady
    | Steal
    | FlushCompletions
    | FlushPool
    | Check
    | Exited
    | Have(t: nat)
    | Locking(t: nat, lo: nat, i: nat, hi: nat, cont: Cont)
    | Pushing(t: nat, lo: nat, i: nat, hi: nat, cont: Cont)
    | Unlocking(t: nat, lo: nat, i: nat, hi: nat, cont: Cont)
    | Arriving(t: nat)
    | Spinning(t: nat)
    | Running(t: nat)
    | Commit(t: nat, k: nat)
    | Wake(t: nat, k: nat)

  datatype Lock = Free | By(owner: nat)

  datatype State = State(
    n: nat,
    tasks: seq<Task>,
    ready: seq<seq<nat>>,
    assembly: seq<seq<nat>>,
    locks: seq<Lock>,
    pc: seq<Pc>,
    completions: seq<nat>,
    pool: seq<nat>,
    pending: int,
    canExit: bool,
    clock: nat)

  /** Who performs a client step: the master thread, or a task that a worker is executing. */
  datatype Actor = Master | Inside(worker: nat)

  /** Steps of the client: constructor, `make_edge`, `xitao_push`, `xitao_fini`. */
  datatype ClientAct =
    | Create(kind: Kind, critical: bool, poolOf: nat)
    | MakeEdge(a: nat, b: nat)
    | PushTask(t: nat, q: nat)
    | Fini

  /** Steps of a worker that holds no task: poll the queues, steal, flush its counts, exit. */
  datatype PollAct =
    | PopAssembly
    | NoAssembly
    | PopOwn
    | NoOwn
    | StealFrom(q: nat)
    | GiveUp
    | FlushC
    | FlushP
    | Loop
    | Exit

  /** Steps of a worker that distributes a task, or runs a simple one. */
  datatype HandAct =
    | RunSimple
    | Place(leader: nat, width: nat)
    | Acquire
    | PushOne
    | Release

  /** Steps of a worker inside a gang. */
  datatype GangAct = Arrive | Enter | Leave

  /** Steps of `commit_and_wakeup`. */
  datatype CommitAct =
    | Drop
    | Retire
    | WakeReady(q: nat)
    | WakeCritical(leader: nat, width: nat)

  datatype Label =
    | Client(who: Actor, client: ClientAct)
    | Poll(w: nat, poll: PollAct)
    | Hand(w: nat, hand: HandAct)
    | Gang(w: nat, gang: GangAct)
    | Finish(w: nat, finish: CommitAct)

  function NewTask(kind: Kind, critical: bool): Task {
    Task(kind, critical, [], 0, 0, 0, 0, 0, Created, 0, 0, 0, {}, {}, 0, {})
  }

  function Init(n: nat): State {
    State(n, [], seq(n, _ => []), seq(n, _ => []), seq(n, _ => Free), seq(n, _ => Top),
          seq(n, _ => 0), seq(n, _ => 0), 0, false, 1)
  }

  predicate ClientActive(s: State, who: Actor) {
    match who
    case Master => !s.canExit
    case Inside(w) =>
      w < s.n && w < |s.pc| &&
      (s.pc[w].Running? || (s.pc[w].Have? && s.pc[w].t < |s.tasks| && s.tasks[s.pc[w].t].kind.Simple?))
  }

  /** All sequences of the state have the length their index range asks for. */
  predicate Sized(s: State) {
    && |s.ready| == s.n && |s.assembly| == s.n && |s.locks| == s.n && |s.pc| == s.n
    && |s.completions| == s.n && |s.pool| == s.n
  }

  /** The task that a control point works on exists, and so do the successors it will touch. */
  predicate Typed(s: State, w: nat)
    requires Sized(s) && w < s.n
  {
    match s.pc[w]
    case Have(t) => t < |s.tasks|
    case Locking(t, lo, i, hi, c) => t < |s.tasks| && i < s.n
    case Pushing(t, lo, i, hi, c) => t < |s.tasks| && i < s.n
    case Unlocking(t, lo, i, hi, c) => t < |s.tasks| && i < s.n
    case Arriving(t) => t < |s.tasks|
    case Spinning(t) => t < |s.tasks|
    case Running(t) => t < |s.tasks|
    case Commit(t, k) => t < |s.tasks| && (k < |s.tasks[t].out| ==> s.tasks[t].out[k] < |s.tasks|)
    case Wake(t, k) => t < |s.tasks| && k < |s.tasks[t].out| && s.tasks[t].out[k] < |s.tasks|
    case _ => true
  }

  predicate At(s: State, w: nat) {
    Sized(s) && w < s.n && Typed(s, w)
  }

  predicate ValidPlace(s: State, leader: nat, width: nat) {
    width >= 1 && leader + width <= s.n
  }

  /** The guards of the client's steps are the documented use of the API: an edge is added while its
      source has not begun to commit and its target has not been released, and only a task without
      incoming edges is pushed, once. */
  predicate EnabledClient(s: State, who: Actor, act: ClientAct) {
    match act
    case Create(kind, critical, p) =>
      Sized(s) && ClientActive(s, who) && p < s.n && (critical ==> kind.Assembly?)
    case MakeEdge(a, b) =>
      && ClientActive(s, who) && a < |s.tasks| && b < |s.tasks| && a != b
      && s.tasks[b].phase.Created? && !s.tasks[a].phase.Committing? && !s.tasks[a].phase.Done?
    case PushTask(t, q) =>
      && Sized(s) && ClientActive(s, who) && t < |s.tasks| && q < s.n
      && s.tasks[t].phase.Created? && s.tasks[t].indegree == 0
    case Fini => true
  }

  predicate EnabledPoll(s: State, w: nat, act: PollAct)
    requires At(s, w)
  {
    match act
    case PopAssembly => s.pc[w].Top? && s.assembly[w] != [] && s.assembly[w][0] < |s.tasks|
    case NoAssembly => s.pc[w].Top? && s.assembly[w] == []
    case PopOwn => s.pc[w].OwnReady? && s.ready[w] != [] && Last(s.ready[w]) < |s.tasks|
    case NoOwn => s.pc[w].OwnReady? && s.ready[w] == []
    case StealFrom(q) => s.pc[w].Steal? && q < s.n && q != w && s.ready[q] != [] && Last(s.ready[q]) < |s.tasks|
    case GiveUp => s.pc[w].Steal?
    case FlushC => s.pc[w].FlushCompletions?
    case FlushP => s.pc[w].FlushPool?
    case Loop => s.pc[w].Check? && !(s.canExit && s.pending == 0)
    case Exit => s.pc[w].Check? && s.canExit && s.pending == 0
  }

  predicate EnabledHand(s: State, w: nat, act: HandAct)
    requires At(s, w)
  {
    match act
    case RunSimple => s.pc[w].Have? && s.tasks[s.pc[w].t].kind.Simple?
    case Place(leader, width) => s.pc[w].Have? && s.tasks[s.pc[w].t].kind.Assembly? && ValidPlace(s, leader, width)
    case Acquire => s.pc[w].Locking? && s.locks[s.pc[w].i].Free?
    case PushOne => s.pc[w].Pushing?
    case Release => s.pc[w].Unlocking?
  }

  predicate EnabledGang(s: State, w: nat, act: GangAct)
    requires At(s, w)
  {
    match act
    case Arrive => s.pc[w].Arriving?
    case Enter => s.pc[w].Spinning? && s.tasks[s.pc[w].t].threadsIn >= s.tasks[s.pc[w].t].width
    case Leave => s.pc[w].Running?
  }

  predicate EnabledCommit(s: State, w: nat, act: CommitAct)
    requires At(s, w)
  {
    match act
    case Drop => s.pc[w].Commit? && s.pc[w].k < |s.tasks[s.pc[w].t].out|
    case Retire => s.pc[w].Commit? && s.pc[w].k >= |s.tasks[s.pc[w].t].out|
    case WakeReady(q) => s.pc[w].Wake? && q < s.n && !s.tasks[Successor(s, w)].critical
    case WakeCritical(leader, width) =>
      s.pc[w].Wake? && s.tasks[Successor(s, w)].critical && ValidPlace(s, leader, width)
  }

  /** The successor that worker `w` has just released and has to wake. */
  function Successor(s: State, w: nat): (t: nat)
    requires At(s, w) && s.pc[w].Wake?
    ensures t < |s.tasks|
  {
    s.tasks[s.pc[w].t].out[s.pc[w].k]
  }

  predicate Enabled(s: State, l: Label) {
    match l
    case Client(who, act) => EnabledClient(s, who, act)
    case Poll(w, act) => At(s, w) && EnabledPoll(s, w, act)
    case Hand(w, act) => At(s, w) && EnabledHand(s, w, act)
    case Gang(w, act) => At(s, w) && EnabledGang(s, w, act)
    case Finish(w, act) => At(s, w) && EnabledCommit(s, w, act)
  }

  function Last(q: seq<nat>): nat
    requires q != []
  {
    q[|q| - 1]
  }

  function SetPc(s: State, w: nat, pc: Pc): State
    requires w < |s.pc|
  {
    s.(pc := s.pc[w := pc])
  }

  function SetTask(s: State, t: nat, task: Task): State
    requires t < |s.tasks|
  {
    s.(tasks := s.tasks[t := task])
  }

  function ApplyClient(s: State, who: Actor, act: ClientAct): State
    requires EnabledClient(s, who, act)
  {
    match act
    case Create(kind, critical, p) => ApplyCreate(s, kind, critical, p)
    case MakeEdge(a, b) => ApplyEdge(s, a, b)
    case PushTask(t, q) => ApplyReady(s, t, q)
    case Fini => s.(canExit := true)
  }

  function ApplyPoll(s: State, w: nat, act: PollAct): State
    requires At(s, w) && EnabledPoll(s, w, act)
  {
    match act
    case PopAssembly => ApplyPopAssembly(s, w)
    case NoAssembly => SetPc(s, w, OwnReady)
    case PopOwn => ApplyTake(s, w, w)
    case NoOwn => SetPc(s, w, Steal)
    case StealFrom(q) => ApplyTake(s, w, q)
    case GiveUp => SetPc(s, w, FlushCompletions)
    case FlushC => ApplyFlushC(s, w)
    case FlushP => ApplyFlushP(s, w)
    case Loop => SetPc(s, w, Top)
    case Exit => SetPc(s, w, Exited)
  }

  function ApplyHand(s: State, w: nat, act: HandAct): State
    requires At(s, w) && EnabledHand(s, w, act)
  {
    match act
    case RunSimple => ApplyRunSimple(s, w)
    case Place(leader, width) => ApplyPlace(s, w, s.pc[w].t, leader, width, ToTop)
    case Acquire => ApplyAcquire(s, w)
    case PushOne => ApplyPushOne(s, w)
    case Release => ApplyRelease(s, w)
  }

  function ApplyGang(s: State, w: nat, act: GangAct): State
    requires At(s, w) && EnabledGang(s, w, act)
  {
    match act
    case Arrive => ApplyArrive(s, w)
    case Enter => SetPc(s, w, Running(s.pc[w].t))
    case Leave => ApplyLeave(s, w)
  }

  function ApplyCommit(s: State, w: nat, act: CommitAct): State
    requires At(s, w) && EnabledCommit(s, w, act)
  {
    match act
    case Drop => ApplyDrop(s, w)
    case Retire => ApplyRetire(s, w)
    case WakeReady(q) => SetPc(ApplyReady(s, Successor(s, w), q), w, Commit(s.pc[w].t, s.pc[w].k + 1))
    case WakeCritical(leader, width) =>
      ApplyPlace(s, w, Successor(s, w), leader, width, ToCommit(s.pc[w].t, s.pc[w].k + 1))
  }

  function Apply(s: State, l: Label): State
    requires Enabled(s, l)
  {
    match l
    case Client(who, act) => ApplyClient(s, who, act)
    case Poll(w, act) => ApplyPoll(s, w, act)
    case Hand(w, act) => ApplyHand(s, w, act)
    case Gang(w, act) => ApplyGang(s, w, act)
    case Finish(w, act) => ApplyCommit(s, w, act)
  }

  function ApplyReady(s: State, t: nat, q: nat): State
    requires t < |s.tasks| && q < |s.ready|
  {
    SetTask(s, t, s.tasks[t].(phase := Ready(q))).(ready := s.ready[q := s.ready[q] + [t]])
  }

  function ApplyPopAssembly(s: State, w: nat): State
    requires w < |s.pc| && w < |s.assembly| && s.assembly[w] != []
  {
    SetPc(s, w, Arriving(s.assembly[w][0])).(assembly := s.assembly[w := s.assembly[w][1..]])
  }

  /** A worker subtracts the commits it has counted on its own. */
  function ApplyFlushC(s: State, w: nat): State
    requires w < |s.pc| && w < |s.completions|
  {
    SetPc(s, w, FlushPool).(pending := s.pending - s.completions[w], completions := s.completions[w := 0])
  }

  /** A worker gives back the unused credits of its pool. */
  function ApplyFlushP(s: State, w: nat): State
    requires w < |s.pc| && w < |s.pool|
  {
    SetPc(s, w, Check).(pending := s.pending - s.pool[w], pool := s.pool[w := 0])
  }

  /** A simple task runs on the worker that took it, which then commits it. */
  function ApplyRunSimple(s: State, w: nat): State
    requires At(s, w) && s.pc[w].Have?
  {
    var t := s.pc[w].t;
    SetPc(SetTask(s, t, s.tasks[t].(phase := Committing(w), leader := w, width := 1, finished := {w})), w, Commit(t, 0))
  }

  function ApplyAcquire(s: State, w: nat): State
    requires At(s, w) && s.pc[w].Locking?
  {
    var p := s.pc[w];
    SetPc(s, w, Pushing(p.t, p.lo, p.i, p.hi, p.cont)).(locks := s.locks[p.i := By(w)])
  }

  function ApplyArrive(s: State, w: nat): State
    requires At(s, w) && s.pc[w].Arriving?
  {
    var t := s.pc[w].t;
    var task := s.tasks[t];
    SetPc(SetTask(s, t, task.(threadsIn := task.threadsIn + 1, arrived := task.arrived + {w})), w, Spinning(t))
  }

  function ApplyRetire(s: State, w: nat): State
    requires At(s, w) && s.pc[w].Commit?
  {
    var t := s.pc[w].t;
    SetPc(SetTask(s, t, s.tasks[t].(phase := Done)), w, Top).(completions := s.completions[w := s.completions[w] + 1])
  }

  /** The `PolyTask` constructor: the pool of thread `p` is refilled when it is empty. */
  function ApplyCreate(s: State, kind: Kind, critical: bool, p: nat): State
    requires p < |s.pool|
  {
    var s1 := s.(tasks := s.tasks + [NewTask(kind, critical)]);
    if s.pool[p] == 0 then
      s1.(pending := s.pending + TASK_POOL, pool := s.pool[p := TASK_POOL - 1])
    else
      s1.(pool := s.pool[p := s.pool[p] - 1])
  }

  function ApplyEdge(s: State, a: nat, b: nat): State
    requires a < |s.tasks| && b < |s.tasks| && a != b
  {
    var ta, tb := s.tasks[a], s.tasks[b];
    SetTask(SetTask(s, a, ta.(out := ta.out + [b])),
            b, tb.(refcount := tb.refcount + 1, indegree := tb.indegree + 1, waiting := tb.waiting + {(a, |ta.out|)}))
  }

  /** `try_pop_ready_task`: take the newest task of queue `q`. */
  function ApplyTake(s: State, w: nat, q: nat): State
    requires w < |s.pc| && q < |s.ready| && s.ready[q] != [] && Last(s.ready[q]) < |s.tasks|
  {
    var t := Last(s.ready[q]);
    SetPc(SetTask(s, t, s.tasks[t].(phase := Held(w))), w, Have(t))
      .(ready := s.ready[q := s.ready[q][..|s.ready[q]| - 1]])
  }

  function ApplyPlace(s: State, w: nat, t: nat, leader: nat, width: nat, c: Cont): State
    requires w < |s.pc| && t < |s.tasks|
  {
    SetPc(SetTask(s, t, s.tasks[t].(phase := Placing(w), leader := leader, width := width, pushed := leader)),
          w, Locking(t, leader, leader, leader + width, c))
  }

  /** One push under the lock just taken; after the last one the task is fully placed. */
  function ApplyPushOne(s: State, w: nat): State
    requires At(s, w) && s.pc[w].Pushing?
  {
    if s.pc[w].i + 1 < s.pc[w].hi then PushMiddle(s, w) else PushLast(s, w)
  }

  function PushMiddle(s: State, w: nat): State
    requires At(s, w) && s.pc[w].Pushing?
  {
    var p := s.pc[w];
    SetPc(SetTask(s, p.t, s.tasks[p.t].(pushed := p.i + 1)), w, Locking(p.t, p.lo, p.i + 1, p.hi, p.cont))
      .(assembly := s.assembly[p.i := s.assembly[p.i] + [p.t]])
  }

  function PushLast(s: State, w: nat): State
    requires At(s, w) && s.pc[w].Pushing?
  {
    var p := s.pc[w];
    SetPc(SetTask(s, p.t, s.tasks[p.t].(pushed := p.i + 1, phase := Placed, ticket := s.clock)),
          w, Unlocking(p.t, p.lo, p.lo, p.hi, p.cont))
      .(assembly := s.assembly[p.i := s.assembly[p.i] + [p.t]], clock := s.clock + 1)
  }

  function ApplyRelease(s: State, w: nat): State
    requires At(s, w) && s.pc[w].Unlocking?
  {
    var p := s.pc[w];
    SetPc(s, w, AfterRelease(p)).(locks := s.locks[p.i := Free])
  }

  function AfterRelease(p: Pc): Pc
    requires p.Unlocking?
  {
    if p.i + 1 < p.hi then
      Unlocking(p.t, p.lo, p.i + 1, p.hi, p.cont)
    else
      match p.cont
      case ToTop => Top
      case ToCommit(a, k) => Commit(a, k)
  }

  /** The last worker to leave commits the task. */
  function ApplyLeave(s: State, w: nat): State
    requires At(s, w) && s.pc[w].Running?
  {
    if s.tasks[s.pc[w].t].threadsOut + 1 == s.tasks[s.pc[w].t].width then LeaveLast(s, w) else LeaveEarly(s, w)
  }

  function LeaveEarly(s: State, w: nat): State
    requires At(s, w) && s.pc[w].Running?
  {
    var t := s.pc[w].t;
    var task := s.tasks[t];
    SetPc(SetTask(s, t, task.(threadsOut := task.threadsOut + 1, finished := task.finished + {w})), w, Top)
  }

  function LeaveLast(s: State, w: nat): State
    requires At(s, w) && s.pc[w].Running?
  {
    var t := s.pc[w].t;
    var task := s.tasks[t];
    SetPc(SetTask(s, t, task.(threadsOut := task.threadsOut + 1, finished := task.finished + {w},
                              phase := Committing(w))),
          w, Commit(t, 0))
  }

  /** `fetch_sub` on the next successor; the one that takes it from 1 to 0 has to wake it. */
  function ApplyDrop(s: State, w: nat): State
    requires At(s, w) && s.pc[w].Commit? && s.pc[w].k < |s.tasks[s.pc[w].t].out|
  {
    var u := s.tasks[s.pc[w].t].out[s.pc[w].k];
    if s.tasks[u].refcount == 1 then
      SetPc(ReleaseEdge(s, s.pc[w].t, s.pc[w].k, Woken(w)), w, Wake(s.pc[w].t, s.pc[w].k))
    else
      SetPc(ReleaseEdge(s, s.pc[w].t, s.pc[w].k, s.tasks[u].phase), w, Commit(s.pc[w].t, s.pc[w].k + 1))
  }

  function ReleaseEdge(s: State, t: nat, k: nat, phase: Phase): State
    requires t < |s.tasks| && k < |s.tasks[t].out| && s.tasks[t].out[k] < |s.tasks|
  {
    var u := s.tasks[t].out[k];
    var s1 := SetTask(s, t, s.tasks[t].(released := k + 1));
    var tu := s1.tasks[u];
    SetTask(s1, u, tu.(refcount := tu.refcount - 1, waiting := tu.waiting - {(t, k)}, phase := phase))
  }

  /** The labels are enabled one after the other, starting in `s`. */
  predicate IsRun(s: State, run: seq<Label>)
    decreases |run|
  {
    run == [] || (Enabled(s, run[0]) && IsRun(Apply(s, run[0]), run[1..]))
  }

  function Final(s: State, run: seq<Label>): State
    requires IsRun(s, run)
    decreases |run|
  {
    if run == [] then s else Final(Apply(s, run[0]), run[1..])
  }
}
