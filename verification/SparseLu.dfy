/** Blocked sparse LU: the serial loop, the task graph built from a last-writer table, and their agreement.

    The kernels are parameters here, so the agreement holds for any kernels, floating point included. */
module SparseLu {
  import opened Collections
  import opened DagExecution

  type Pos = (nat, nat)

  datatype Task = LU0(k: nat) | FWD(k: nat, j: nat) | BDIV(i: nat, k: nat) | BMOD(i: nat, j: nat, k: nat)

  datatype Kernels<!V> = Kernels(lu0: V -> V, fwd: (V, V) -> V, bdiv: (V, V) -> V, bmod: (V, V, V) -> V)

  /** The block a task overwrites. */
  function Target(t: Task): Pos {
    match t
    case LU0(k) => (k, k)
    case FWD(k, j) => (k, j)
    case BDIV(i, k) => (i, k)
    case BMOD(i, j, k) => (i, j)
  }

  /** The blocks a task depends on, in the order in which the builder looks them up. */
  function Lookups(t: Task): seq<Pos> {
    match t
    case LU0(k) => [(k, k)]
    case FWD(k, j) => [(k, k), (k, j)]
    case BDIV(i, k) => [(k, k), (i, k)]
    case BMOD(i, j, k) => [(i, k), (k, j), (i, j)]
  }

  /** The same blocks as a set. */
  function Touched(t: Task): set<Pos> {
    match t
    case LU0(k) => {(k, k)}
    case FWD(k, j) => {(k, k), (k, j)}
    case BDIV(i, k) => {(k, k), (i, k)}
    case BMOD(i, j, k) => {(i, k), (k, j), (i, j)}
  }

  lemma TouchedIsLookups(t: Task)
    ensures forall p :: p in Touched(t) <==> p in Lookups(t)
  {
  }

  function Compute<V>(kernels: Kernels<V>, t: Task, s: map<Pos, V>): V
    requires Touched(t) <= s.Keys
  {
    match t
    case LU0(k) => kernels.lu0(s[(k, k)])
    case FWD(k, j) => kernels.fwd(s[(k, k)], s[(k, j)])
    case BDIV(i, k) => kernels.bdiv(s[(k, k)], s[(i, k)])
    case BMOD(i, j, k) => kernels.bmod(s[(i, k)], s[(k, j)], s[(i, j)])
  }

  ghost function TaskOp<V>(kernels: Kernels<V>, t: Task): Op<Pos, V> {
    Op(Touched(t), {Target(t)},
       (m: map<Pos, V>) => if Touched(t) <= m.Keys then map[Target(t) := Compute(kernels, t, m)] else map[])
  }

  ghost function TaskOps<V>(kernels: Kernels<V>, tasks: seq<Task>): seq<Op<Pos, V>> {
    seq(|tasks|, x requires 0 <= x < |tasks| => TaskOp(kernels, tasks[x]))
  }

  lemma TargetTouched(t: Task)
    ensures Target(t) in Touched(t)
  {
  }

  lemma ExecIsStep<V>(kernels: Kernels<V>, t: Task, s: map<Pos, V>)
    ensures Exec(TaskOp(kernels, t), s) == Step(kernels, t, s)
  {
    StepIsUpdate(kernels, t, s);
    if Touched(t) <= s.Keys {
      ExecIsUpdate(kernels, t, s);
    } else {
      assert !(Touched(t) <= Restrict(s, Touched(t)).Keys);
    }
  }

  lemma ExecIsUpdate<V>(kernels: Kernels<V>, t: Task, s: map<Pos, V>)
    requires Touched(t) <= s.Keys
    ensures Exec(TaskOp(kernels, t), s) == s[Target(t) := Compute(kernels, t, s)]
  {
    var r := Restrict(s, Touched(t));
    TargetTouched(t);
    assert r.Keys == Touched(t);
    assert Compute(kernels, t, r) == Compute(kernels, t, s);
  }

  // ---------------------------------------------------------------- the tasks of the serial loop, in its order

  function Fwds(p: set<Pos>, k: nat, hi: nat): seq<Task> {
    if hi <= k + 1 then [] else Fwds(p, k, hi - 1) + (if (k, hi - 1) in p then [FWD(k, hi - 1)] else [])
  }

  function Bdivs(p: set<Pos>, k: nat, hi: nat): seq<Task> {
    if hi <= k + 1 then [] else Bdivs(p, k, hi - 1) + (if (hi - 1, k) in p then [BDIV(hi - 1, k)] else [])
  }

  function BmodRow(p: set<Pos>, k: nat, i: nat, hi: nat): seq<Task> {
    if hi <= k + 1 then [] else BmodRow(p, k, i, hi - 1) + (if (k, hi - 1) in p then [BMOD(i, hi - 1, k)] else [])
  }

  function Bmods(p: set<Pos>, k: nat, hi: nat, nb: nat): seq<Task> {
    if hi <= k + 1 then [] else Bmods(p, k, hi - 1, nb) + (if (hi - 1, k) in p then BmodRow(p, k, hi - 1, nb) else [])
  }

  /** The non-null blocks after step `k` has filled in what its products need. */
  function Fill(p: set<Pos>, k: nat, nb: nat): set<Pos> {
    p + set i: nat, j: nat | k < i < nb && k < j < nb && (i, k) in p && (k, j) in p :: (i, j)
  }

  function Pattern(p: set<Pos>, nb: nat, k: nat): set<Pos> {
    if k == 0 then p else Fill(Pattern(p, nb, k - 1), k - 1, nb)
  }

  function StepTasks(p: set<Pos>, k: nat, nb: nat): seq<Task> {
    [LU0(k)] + Fwds(p, k, nb) + Bdivs(p, k, nb) + Bmods(p, k, nb, nb)
  }

  function Tasks(p: set<Pos>, nb: nat, k: nat): seq<Task> {
    if k == 0 then [] else Tasks(p, nb, k - 1) + StepTasks(Pattern(p, nb, k - 1), k - 1, nb)
  }

  // ---------------------------------------------------------------- the last-writer table

  /** Index of the last task that writes `x`, or -1. */
  function LastWriter(tasks: seq<Task>, x: Pos): (w: int)
    ensures -1 <= w < |tasks|
  {
    if tasks == [] then -1
    else if Target(tasks[|tasks| - 1]) == x then |tasks| - 1
    else LastWriter(tasks[..|tasks| - 1], x)
  }

  lemma {:induction false} LastWriterIsLast(tasks: seq<Task>, x: Pos)
    ensures LastWriter(tasks, x) >= 0 ==> Target(tasks[LastWriter(tasks, x)]) == x
    ensures forall v :: 0 <= v < |tasks| && Target(tasks[v]) == x ==> v <= LastWriter(tasks, x)
  {
    if tasks != [] {
      LastWriterIsLast(tasks[..|tasks| - 1], x);
    }
  }

  ghost function NewEdges(tasks: seq<Task>, t: Task): set<(nat, nat)> {
    set x | x in Touched(t) && LastWriter(tasks, x) >= 0 :: (LastWriter(tasks, x), |tasks|)
  }

  /** An edge to each task from the last earlier writer of each block it depends on. */
  ghost function EdgesOf(tasks: seq<Task>): set<(nat, nat)> {
    if tasks == [] then {}
    else EdgesOf(tasks[..|tasks| - 1]) + NewEdges(tasks[..|tasks| - 1], tasks[|tasks| - 1])
  }

  lemma {:induction false} EdgesInRange(tasks: seq<Task>)
    ensures forall e :: e in EdgesOf(tasks) ==> e.0 < e.1 < |tasks|
  {
    if tasks != [] {
      EdgesInRange(tasks[..|tasks| - 1]);
    }
  }

  lemma {:induction false} EdgeToLookup(tasks: seq<Task>, b: nat, x: Pos)
    requires b < |tasks| && x in Touched(tasks[b]) && LastWriter(tasks[..b], x) >= 0
    ensures (LastWriter(tasks[..b], x), b) in EdgesOf(tasks)
  {
    var front := tasks[..|tasks| - 1];
    if b == |tasks| - 1 {
      assert (LastWriter(front, x), |front|) in NewEdges(front, tasks[b]);
    } else {
      assert front[..b] == tasks[..b];
      EdgeToLookup(front, b, x);
    }
  }

  /** Every earlier writer of a block that `b` depends on reaches `b`. */
  lemma {:induction false} WriterReaches(tasks: seq<Task>, a: nat, b: nat)
    requires a < b < |tasks| && Target(tasks[a]) in Touched(tasks[b])
    ensures Reaches(EdgesOf(tasks), a, b)
    decreases b
  {
    var x := Target(tasks[a]);
    var w := LastWriter(tasks[..b], x);
    LastWriterIsLast(tasks[..b], x);
    assert tasks[..b][a] == tasks[a];
    assert a <= w;
    EdgeToLookup(tasks, b, x);
    EdgeReaches(EdgesOf(tasks), w, b);
    if a < w {
      TargetTouched(tasks[w]);
      WriterReaches(tasks, a, w);
      ReachesTransitive(EdgesOf(tasks), a, w, b);
    }
  }

  // ---------------------------------------------------------------- no write after a read

  /** When a task runs in the serial loop: four ticks a step. */
  function Stage(t: Task): nat {
    match t
    case LU0(k) => 4 * k
    case FWD(k, _) => 4 * k + 1
    case BDIV(_, k) => 4 * k + 2
    case BMOD(_, _, k) => 4 * k + 3
  }

  predicate WellPlaced(t: Task) {
    match t
    case LU0(k) => true
    case FWD(k, j) => k < j
    case BDIV(i, k) => k < i
    case BMOD(i, j, k) => k < i && k < j
  }

  ghost predicate Staged(tasks: seq<Task>, lo: nat, hi: nat) {
    && (forall a :: 0 <= a < |tasks| ==> WellPlaced(tasks[a]) && lo <= Stage(tasks[a]) <= hi)
    && (forall a, b :: 0 <= a < b < |tasks| ==> Stage(tasks[a]) <= Stage(tasks[b]))
  }

  lemma StagedAppend(s: seq<Task>, t: seq<Task>, lo: nat, mid: nat, mid': nat, hi: nat)
    requires Staged(s, lo, mid) && Staged(t, mid', hi) && lo <= mid <= mid' <= hi
    ensures Staged(s + t, lo, hi)
  {
  }

  lemma StagedTogether(s: seq<Task>, t: seq<Task>, at: nat)
    requires Staged(s, at, at) && Staged(t, at, at)
    ensures Staged(s + t, at, at)
  {
    StagedAppend(s, t, at, at, at, at);
  }

  lemma {:induction false} FwdsStaged(p: set<Pos>, k: nat, hi: nat)
    ensures Staged(Fwds(p, k, hi), 4 * k + 1, 4 * k + 1)
  {
    if hi > k + 1 {
      FwdsStaged(p, k, hi - 1);
    }
  }

  lemma {:induction false} BdivsStaged(p: set<Pos>, k: nat, hi: nat)
    ensures Staged(Bdivs(p, k, hi), 4 * k + 2, 4 * k + 2)
  {
    if hi > k + 1 {
      BdivsStaged(p, k, hi - 1);
    }
  }

  lemma {:induction false} BmodRowStaged(p: set<Pos>, k: nat, i: nat, hi: nat)
    requires k < i
    ensures Staged(BmodRow(p, k, i, hi), 4 * k + 3, 4 * k + 3)
  {
    if hi > k + 1 {
      BmodRowStaged(p, k, i, hi - 1);
    }
  }

  lemma {:induction false} BmodsStaged(p: set<Pos>, k: nat, hi: nat, nb: nat)
    ensures Staged(Bmods(p, k, hi, nb), 4 * k + 3, 4 * k + 3)
  {
    if hi > k + 1 {
      BmodsStaged(p, k, hi - 1, nb);
      if (hi - 1, k) in p {
        BmodRowStaged(p, k, hi - 1, nb);
        StagedTogether(Bmods(p, k, hi - 1, nb), BmodRow(p, k, hi - 1, nb), 4 * k + 3);
      } else {
        assert Bmods(p, k, hi, nb) == Bmods(p, k, hi - 1, nb);
      }
    }
  }

  lemma StepStaged(p: set<Pos>, k: nat, nb: nat)
    ensures Staged(StepTasks(p, k, nb), 4 * k, 4 * k + 3)
  {
    FwdsStaged(p, k, nb);
    BdivsStaged(p, k, nb);
    BmodsStaged(p, k, nb, nb);
    StagedAppend([LU0(k)], Fwds(p, k, nb), 4 * k, 4 * k, 4 * k + 1, 4 * k + 1);
    StagedAppend([LU0(k)] + Fwds(p, k, nb), Bdivs(p, k, nb), 4 * k, 4 * k + 1, 4 * k + 2, 4 * k + 2);
    StagedAppend([LU0(k)] + Fwds(p, k, nb) + Bdivs(p, k, nb), Bmods(p, k, nb, nb), 4 * k, 4 * k + 2, 4 * k + 3,
                 4 * k + 3);
  }

  lemma {:induction false} TasksStaged(p: set<Pos>, nb: nat, k: nat)
    ensures Staged(Tasks(p, nb, k), 0, 4 * k)
  {
    if k > 0 {
      TasksStaged(p, nb, k - 1);
      StepStaged(Pattern(p, nb, k - 1), k - 1, nb);
      StagedAppend(Tasks(p, nb, k - 1), StepTasks(Pattern(p, nb, k - 1), k - 1, nb), 0, 4 * (k - 1), 4 * (k - 1),
                   4 * k);
    }
  }

  /** A block that a task only reads is written by no task of the same or a later stage. */
  lemma ReadIsFinal(a: Task, b: Task)
    requires WellPlaced(a) && WellPlaced(b) && Stage(a) <= Stage(b)
    ensures Target(b) in Touched(a) ==> Target(b) == Target(a)
  {
  }

  /** Every two tasks that touch a block which one of them writes are ordered by the graph. */
  lemma ConflictsReach<V>(kernels: Kernels<V>, p: set<Pos>, nb: nat, a: nat, b: nat)
    requires a < b < |Tasks(p, nb, nb)|
    requires Conflict(TaskOp(kernels, Tasks(p, nb, nb)[a]), TaskOp(kernels, Tasks(p, nb, nb)[b]))
    ensures Reaches(EdgesOf(Tasks(p, nb, nb)), a, b)
  {
    var tasks := Tasks(p, nb, nb);
    TasksStaged(p, nb, nb);
    var ta, tb := tasks[a], tasks[b];
    TargetTouched(ta);
    TargetTouched(tb);
    ReadIsFinal(ta, tb);
    assert Target(ta) in Touched(tb) by {
      if Target(tb) !in Touched(ta) {
        assert Touched(ta) * {Target(tb)} == {};
        assert {Target(ta)} * (Touched(tb) + {Target(tb)}) != {};
      }
    }
    WriterReaches(tasks, a, b);
  }

  // ---------------------------------------------------------------- the serial run of a task list

  /** One kernel call: the target block is overwritten. */
  function Step<V>(kernels: Kernels<V>, t: Task, s: map<Pos, V>): map<Pos, V> {
    match t
    case LU0(k) => if (k, k) in s then s[(k, k) := kernels.lu0(s[(k, k)])] else s
    case FWD(k, j) =>
      if (k, k) in s && (k, j) in s then s[(k, j) := kernels.fwd(s[(k, k)], s[(k, j)])] else s
    case BDIV(i, k) =>
      if (k, k) in s && (i, k) in s then s[(i, k) := kernels.bdiv(s[(k, k)], s[(i, k)])] else s
    case BMOD(i, j, k) =>
      if (i, k) in s && (k, j) in s && (i, j) in s
      then s[(i, j) := kernels.bmod(s[(i, k)], s[(k, j)], s[(i, j)])] else s
  }

  lemma StepIsUpdate<V>(kernels: Kernels<V>, t: Task, s: map<Pos, V>)
    ensures Step(kernels, t, s) == if Touched(t) <= s.Keys then s[Target(t) := Compute(kernels, t, s)] else s
  {
  }

  function RunSeq<V>(kernels: Kernels<V>, tasks: seq<Task>, s: map<Pos, V>): map<Pos, V> {
    if tasks == [] then s
    else Step(kernels, tasks[|tasks| - 1], RunSeq(kernels, tasks[..|tasks| - 1], s))
  }

  /** Running the list front to back is one of the orders. */
  lemma {:induction false} SerialIsOrder<V>(kernels: Kernels<V>, tasks: seq<Task>, s: map<Pos, V>)
    ensures RunSeq(kernels, tasks, s) == Run(TaskOps(kernels, tasks), UpTo(|tasks|), s)
  {
    if tasks != [] {
      var n := |tasks| - 1;
      SerialIsOrder(kernels, tasks[..n], s);
      RunOpsAgree(TaskOps(kernels, tasks[..n]), TaskOps(kernels, tasks), UpTo(n), s);
      assert UpTo(n + 1) == UpTo(n) + [n];
      RunAppend(TaskOps(kernels, tasks), UpTo(n), n, s);
      ExecIsStep(kernels, tasks[n], RunSeq(kernels, tasks[..n], s));
    }
  }

  lemma SerialIsTopological(tasks: seq<Task>)
    ensures Topological(UpTo(|tasks|), |tasks|, EdgesOf(tasks))
  {
    EdgesInRange(tasks);
    ForwardTopological(|tasks|, EdgesOf(tasks));
  }

  /** The task graph means the same as the serial loop: for every number of blocks and every null pattern, any
      topological order of the graph built from the last-writer table ends with the blocks of the serial run. */
  lemma DagMeansSerial<V>(kernels: Kernels<V>, p: set<Pos>, nb: nat, order: seq<nat>, s: map<Pos, V>)
    requires Topological(order, |Tasks(p, nb, nb)|, EdgesOf(Tasks(p, nb, nb)))
    ensures Run(TaskOps(kernels, Tasks(p, nb, nb)), order, s) == RunSeq(kernels, Tasks(p, nb, nb), s)
  {
    var tasks := Tasks(p, nb, nb);
    var ops := TaskOps(kernels, tasks);
    EdgesInRange(tasks);
    SerialIsTopological(tasks);
    SerialIsOrder(kernels, tasks, s);
    forall a: nat, b: nat | a < b < |ops| && Conflict(ops[a], ops[b])
      ensures Reaches(EdgesOf(tasks), a, b) || Reaches(EdgesOf(tasks), b, a)
    {
      ConflictsReach(kernels, p, nb, a, b);
    }
    ScheduleIndependence(ops, EdgesOf(tasks), order, UpTo(|tasks|), s);
  }
}
