/** The Jacobi stencil as a task graph, any topological order of which computes the iterates. */
module HeatStencil {
  // Chunks of the grid, a stencil and a copy task per chunk and iteration, edges to the same chunk and its four
  // neighbours. The averaging of the neighbours is a parameter, so the result holds for floating point as it is.

  import opened DagExecution
  import opened Quotients

  /** An element of `u` or of `uhelp`. */
  datatype Loc = U(i: int, j: int) | H(i: int, j: int)

  /** Iteration `it`, chunk (x, y): the stencil from `u` to `uhelp`, or the copy back. */
  datatype Task = Stc(it: nat, x: nat, y: nat) | Cpb(it: nat, x: nat, y: nat)

  /** A square grid with `np` rows and columns, cut into ex times ey chunks. */
  datatype Config = Config(np: nat, ex: nat, ey: nat, iters: nat)

  ghost predicate Sensible(c: Config) {
    c.np >= 2 && c.ex >= 1 && c.ey >= 1 && c.iters >= 1
  }

  // ---------------------------------------------------------------- chunks

  function CeilDiv(a: nat, b: nat): nat
    requires b >= 1
  {
    (a + b - 1) / b
  }

  lemma CeilDivCovers(a: nat, b: nat)
    requires a >= 1 && b >= 1
    ensures CeilDiv(a, b) >= 1 && b * CeilDiv(a, b) >= a
  {
    var q := CeilDiv(a, b);
    assert b * q > a - 1;
  }

  /** First row (or column) of a chunk that starts at `off`, and the one behind its last. */
  function First(off: int): int {
    if off == 0 then 1 else off
  }

  function Stop(off: int, chunk: int, rows: int): int {
    if off + chunk >= rows then rows - 1 else off + chunk
  }

  ghost predicate InSpan(i: int, off: int, chunk: int, rows: int) {
    First(off) <= i < Stop(off, chunk, rows)
  }

  /** Chunk `x` of a row of `parts` chunks holds the inner positions whose quotient is `x`. */
  lemma SpanIsQuotient(i: int, x: nat, parts: nat, rows: nat)
    requires rows >= 2 && x < parts
    ensures var chunk := CeilDiv(rows, parts);
            chunk >= 1 && (InSpan(i, x * chunk, chunk, rows) <==> 1 <= i < rows - 1 && i / chunk == x)
  {
    CeilDivCovers(rows, parts);
    var chunk := CeilDiv(rows, parts);
    if InSpan(i, x * chunk, chunk, rows) {
      QuotientIs(i, x, chunk);
    }
    if 1 <= i < rows - 1 && i / chunk == x {
      assert i == chunk * x + i % chunk;
      assert x * chunk == 0 || x * chunk >= 1;
    }
  }

  ghost predicate Inner(c: Config, i: int, j: int) {
    1 <= i < c.np - 1 && 1 <= j < c.np - 1
  }

  ghost predicate InGrid(c: Config, i: int, j: int) {
    0 <= i < c.np && 0 <= j < c.np
  }

  ghost predicate InChunk(c: Config, x: nat, y: nat, i: int, j: int)
    requires c.ex >= 1 && c.ey >= 1
  {
    var cx, cy := CeilDiv(c.np, c.ex), CeilDiv(c.np, c.ey);
    InSpan(i, x * cx, cx, c.np) && InSpan(j, y * cy, cy, c.np)
  }

  function OwnerX(c: Config, i: int): int
    requires Sensible(c)
  {
    CeilDivCovers(c.np, c.ex);
    i / CeilDiv(c.np, c.ex)
  }

  function OwnerY(c: Config, j: int): int
    requires Sensible(c)
  {
    CeilDivCovers(c.np, c.ey);
    j / CeilDiv(c.np, c.ey)
  }

  lemma QuotientBelow(i: nat, chunk: nat, parts: nat)
    requires chunk >= 1 && i < parts * chunk
    ensures 0 <= i / chunk < parts
  {
    var q := i / chunk;
    assert i == chunk * q + i % chunk;
    MultiplesApart(chunk, parts - 1, q);
  }

  /** Exact cover: an inner position lies in the chunk that owns it and in no other; chunks hold nothing else. */
  lemma ChunksCover(c: Config, x: nat, y: nat, i: int, j: int)
    requires Sensible(c) && x < c.ex && y < c.ey
    ensures InChunk(c, x, y, i, j) <==> Inner(c, i, j) && OwnerX(c, i) == x && OwnerY(c, j) == y
    ensures Inner(c, i, j) ==> 0 <= OwnerX(c, i) < c.ex && 0 <= OwnerY(c, j) < c.ey
  {
    SpanIsQuotient(i, x, c.ex, c.np);
    SpanIsQuotient(j, y, c.ey, c.np);
    if Inner(c, i, j) {
      CeilDivCovers(c.np, c.ex);
      CeilDivCovers(c.np, c.ey);
      QuotientBelow(i, CeilDiv(c.np, c.ex), c.ex);
      QuotientBelow(j, CeilDiv(c.np, c.ey), c.ey);
    }
  }

  lemma QuotientStep(i: nat, chunk: nat)
    requires chunk >= 1
    ensures i / chunk <= (i + 1) / chunk <= i / chunk + 1
  {
    var q, q' := i / chunk, (i + 1) / chunk;
    assert i == chunk * q + i % chunk && i + 1 == chunk * q' + (i + 1) % chunk;
    MultiplesApart(chunk, q', q);
    MultiplesApart(chunk, q + 1, q');
  }

  /** Same chunk, or next to it in one direction. */
  ghost predicate Near(x: int, y: int, x': int, y': int) {
    (x == x' && -1 <= y - y' <= 1) || (y == y' && -1 <= x - x' <= 1)
  }

  /** Same position, or next to it in one direction: what a stencil looks at. */
  ghost predicate Beside(i: int, j: int, i': int, j': int) {
    (i == i' && (j' == j - 1 || j' == j + 1)) || (j == j' && (i' == i - 1 || i' == i + 1))
  }

  lemma BesideIsNear(c: Config, i: int, j: int, i': int, j': int)
    requires Sensible(c) && InGrid(c, i, j) && InGrid(c, i', j') && Beside(i, j, i', j')
    ensures Near(OwnerX(c, i), OwnerY(c, j), OwnerX(c, i'), OwnerY(c, j'))
  {
    CeilDivCovers(c.np, c.ex);
    CeilDivCovers(c.np, c.ey);
    QuotientStep(if i < i' then i else i', CeilDiv(c.np, c.ex));
    QuotientStep(if j < j' then j else j', CeilDiv(c.np, c.ey));
  }

  // ---------------------------------------------------------------- the tasks

  /** Stencils and copies alternate. */
  function Phase(t: Task): nat {
    match t
    case Stc(it, _, _) => 2 * it
    case Cpb(it, _, _) => 2 * it + 1
  }

  ghost predicate Exists(c: Config, t: Task) {
    t.it < c.iters && t.x < c.ex && t.y < c.ey
  }

  ghost function Cells(c: Config, t: Task): set<(int, int)>
    requires c.ex >= 1 && c.ey >= 1
  {
    set i, j | 0 <= i < c.np && 0 <= j < c.np && InChunk(c, t.x, t.y, i, j) :: (i, j)
  }

  ghost function UCells(c: Config, t: Task): set<Loc>
    requires c.ex >= 1 && c.ey >= 1
  {
    set p | p in Cells(c, t) :: U(p.0, p.1)
  }

  ghost function HCells(c: Config, t: Task): set<Loc>
    requires c.ex >= 1 && c.ey >= 1
  {
    set p | p in Cells(c, t) :: H(p.0, p.1)
  }

  /** The four neighbours of the cells of the chunk. */
  ghost function Halo(c: Config, t: Task): set<Loc>
    requires c.ex >= 1 && c.ey >= 1
  {
    set i, j | 0 <= i < c.np && 0 <= j < c.np && exists p :: p in Cells(c, t) && Beside(p.0, p.1, i, j) :: U(i, j)
  }

  type Average<!V> = (V, V, V, V) -> V

  ghost function Stencil<V>(avg: Average<V>, m: map<Loc, V>, i: int, j: int): V
    requires U(i, j - 1) in m && U(i, j + 1) in m && U(i - 1, j) in m && U(i + 1, j) in m
  {
    avg(m[U(i, j - 1)], m[U(i, j + 1)], m[U(i - 1, j)], m[U(i + 1, j)])
  }

  lemma HaloHolds(c: Config, t: Task, i: int, j: int)
    requires Sensible(c) && t.x < c.ex && t.y < c.ey && (i, j) in Cells(c, t)
    ensures U(i, j - 1) in Halo(c, t) && U(i, j + 1) in Halo(c, t) && U(i - 1, j) in Halo(c, t)
    ensures U(i + 1, j) in Halo(c, t)
  {
    ChunksCover(c, t.x, t.y, i, j);
    assert Beside(i, j, i, j - 1) && Beside(i, j, i, j + 1) && Beside(i, j, i - 1, j) && Beside(i, j, i + 1, j);
  }

  lemma HaloHoldsAll(c: Config, t: Task)
    requires Sensible(c) && t.x < c.ex && t.y < c.ey
    ensures forall p :: p in Cells(c, t) ==> U(p.0, p.1 - 1) in Halo(c, t) && U(p.0, p.1 + 1) in Halo(c, t)
    ensures forall p :: p in Cells(c, t) ==> U(p.0 - 1, p.1) in Halo(c, t) && U(p.0 + 1, p.1) in Halo(c, t)
  {
    forall p | p in Cells(c, t)
      ensures U(p.0, p.1 - 1) in Halo(c, t) && U(p.0, p.1 + 1) in Halo(c, t)
      ensures U(p.0 - 1, p.1) in Halo(c, t) && U(p.0 + 1, p.1) in Halo(c, t)
    {
      HaloHolds(c, t, p.0, p.1);
    }
  }

  ghost function StencilEffect<V>(c: Config, avg: Average<V>, t: Task, m: map<Loc, V>): map<Loc, V>
    requires Sensible(c) && t.x < c.ex && t.y < c.ey
  {
    HaloHoldsAll(c, t);
    if Halo(c, t) <= m.Keys then map p | p in Cells(c, t) :: H(p.0, p.1) := Stencil(avg, m, p.0, p.1) else map[]
  }

  ghost function CopyEffect<V>(c: Config, t: Task, m: map<Loc, V>): map<Loc, V>
    requires Sensible(c)
  {
    if HCells(c, t) <= m.Keys then map p | p in Cells(c, t) :: U(p.0, p.1) := m[H(p.0, p.1)] else map[]
  }

  /** A chunk task: what it reads, what it writes, what it computes. */
  ghost function TaskOp<V>(c: Config, avg: Average<V>, t: Task): Op<Loc, V>
    requires Sensible(c) && t.x < c.ex && t.y < c.ey
  {
    match t
    case Stc(_, _, _) => Op(Halo(c, t), HCells(c, t), (m: map<Loc, V>) => StencilEffect(c, avg, t, m))
    case Cpb(_, _, _) => Op(HCells(c, t), UCells(c, t), (m: map<Loc, V>) => CopyEffect(c, t, m))
  }

  ghost predicate Full<V>(c: Config, s: map<Loc, V>) {
    forall i, j :: InGrid(c, i, j) ==> U(i, j) in s && H(i, j) in s
  }

  lemma HaloInGrid<V>(c: Config, t: Task, s: map<Loc, V>)
    requires Sensible(c) && Full(c, s)
    ensures Halo(c, t) <= s.Keys && HCells(c, t) <= s.Keys
  {
  }

  lemma StencilAt<V>(c: Config, avg: Average<V>, t: Task, m: map<Loc, V>, i: int, j: int)
    requires Sensible(c) && t.x < c.ex && t.y < c.ey && Halo(c, t) <= m.Keys && (i, j) in Cells(c, t)
    ensures U(i, j - 1) in m && U(i, j + 1) in m && U(i - 1, j) in m && U(i + 1, j) in m
    ensures H(i, j) in StencilEffect(c, avg, t, m) && StencilEffect(c, avg, t, m)[H(i, j)] == Stencil(avg, m, i, j)
  {
    HaloHolds(c, t, i, j);
  }

  lemma StencilSees<V>(c: Config, avg: Average<V>, t: Task, s: map<Loc, V>, m: map<Loc, V>, i: int, j: int)
    requires Sensible(c) && t.x < c.ex && t.y < c.ey && (i, j) in Cells(c, t) && Halo(c, t) <= s.Keys
    requires m == Restrict(s, Halo(c, t))
    ensures U(i, j - 1) in m && U(i, j + 1) in m && U(i - 1, j) in m && U(i + 1, j) in m
    ensures U(i, j - 1) in s && U(i, j + 1) in s && U(i - 1, j) in s && U(i + 1, j) in s
    ensures Stencil(avg, m, i, j) == Stencil(avg, s, i, j)
  {
    HaloHolds(c, t, i, j);
  }

  lemma ExecAt<L, V>(op: Op<L, V>, s: map<L, V>, l: L)
    ensures s.Keys <= Exec(op, s).Keys
    ensures var e := op.effect(Restrict(s, op.input));
            l in op.output && l in e ==> l in Exec(op, s) && Exec(op, s)[l] == e[l]
    ensures l !in op.output && l in s ==> Exec(op, s)[l] == s[l]
  {
  }

  /** What a stencil task leaves. */
  lemma ExecStencil<V>(c: Config, avg: Average<V>, t: Task, s: map<Loc, V>, i: int, j: int)
    requires Sensible(c) && t.Stc? && t.x < c.ex && t.y < c.ey && Full(c, s) && InGrid(c, i, j)
    ensures var s' := Exec(TaskOp(c, avg, t), s);
            && s.Keys <= s'.Keys && s'[U(i, j)] == s[U(i, j)]
            && (InChunk(c, t.x, t.y, i, j) ==> Inner(c, i, j) && s'[H(i, j)] == Stencil(avg, s, i, j))
            && (!InChunk(c, t.x, t.y, i, j) ==> s'[H(i, j)] == s[H(i, j)])
  {
    HaloInGrid(c, t, s);
    ChunksCover(c, t.x, t.y, i, j);
    var op, m := TaskOp(c, avg, t), Restrict(s, Halo(c, t));
    assert Halo(c, t) <= m.Keys;
    ExecAt(op, s, U(i, j));
    ExecAt(op, s, H(i, j));
    if InChunk(c, t.x, t.y, i, j) {
      assert (i, j) in Cells(c, t);
      StencilAt(c, avg, t, m, i, j);
      StencilSees(c, avg, t, s, m, i, j);
      assert H(i, j) in HCells(c, t);
    }
  }

  /** What a copy task leaves. */
  lemma ExecCopy<V>(c: Config, avg: Average<V>, t: Task, s: map<Loc, V>, i: int, j: int)
    requires Sensible(c) && t.Cpb? && t.x < c.ex && t.y < c.ey && Full(c, s) && InGrid(c, i, j)
    ensures var s' := Exec(TaskOp(c, avg, t), s);
            && s.Keys <= s'.Keys && s'[H(i, j)] == s[H(i, j)]
            && s'[U(i, j)] == if InChunk(c, t.x, t.y, i, j) then s[H(i, j)] else s[U(i, j)]
  {
    HaloInGrid(c, t, s);
    var m := Restrict(s, HCells(c, t));
    assert HCells(c, t) <= m.Keys;
    if InChunk(c, t.x, t.y, i, j) {
      assert (i, j) in Cells(c, t);
      assert U(i, j) in UCells(c, t);
      assert H(i, j) in HCells(c, t);
    }
  }

  // ---------------------------------------------------------------- edges, and why they are enough

  /** The edges of the graph: to the next phase, same chunk or next to it. */
  ghost predicate Linked(a: Task, b: Task) {
    Phase(b) == Phase(a) + 1 && Near(a.x, a.y, b.x, b.y)
  }

  /** Tasks that touch the same cells with at least one of them writing are close, and of different phases. */
  lemma ConflictsAreNear<V>(c: Config, avg: Average<V>, a: Task, b: Task)
    requires Sensible(c) && Exists(c, a) && Exists(c, b) && a != b && Conflict(TaskOp(c, avg, a), TaskOp(c, avg, b))
    ensures Near(a.x, a.y, b.x, b.y) && Phase(a) != Phase(b)
  {
    var oa, ob := TaskOp(c, avg, a), TaskOp(c, avg, b);
    if oa.output * (ob.input + ob.output) != {} {
      var l :| l in oa.output * (ob.input + ob.output);
      SharedIsNear(c, avg, a, b, l);
    } else {
      var l :| l in oa.input * ob.output;
      SharedIsNear(c, avg, b, a, l);
    }
  }

  lemma SharedIsNear<V>(c: Config, avg: Average<V>, a: Task, b: Task, l: Loc)
    requires Sensible(c) && Exists(c, a) && Exists(c, b) && a != b
    requires l in TaskOp(c, avg, a).output && l in TaskOp(c, avg, b).input + TaskOp(c, avg, b).output
    ensures Near(a.x, a.y, b.x, b.y) && Phase(a) != Phase(b)
  {
    ChunksCover(c, a.x, a.y, l.i, l.j);
    ChunksCover(c, b.x, b.y, l.i, l.j);
    if b.Stc? && l in Halo(c, b) {
      var p :| p in Cells(c, b) && Beside(p.0, p.1, l.i, l.j);
      ChunksCover(c, b.x, b.y, p.0, p.1);
      BesideIsNear(c, p.0, p.1, l.i, l.j);
    }
  }

  /** The tasks in the order in which they are created: every task once, phase after phase. */
  ghost predicate Listing(c: Config, tasks: seq<Task>) {
    AllExist(c, tasks) && NoRepeats(tasks) && Complete(c, tasks) && PhaseByPhase(tasks)
  }

  ghost predicate AllExist(c: Config, tasks: seq<Task>) {
    forall k :: 0 <= k < |tasks| ==> Exists(c, tasks[k])
  }

  ghost predicate NoRepeats(tasks: seq<Task>) {
    forall i, j :: 0 <= i < j < |tasks| ==> tasks[i] != tasks[j]
  }

  ghost predicate Complete(c: Config, tasks: seq<Task>) {
    forall t :: Exists(c, t) ==> t in tasks
  }

  ghost predicate PhaseByPhase(tasks: seq<Task>) {
    forall i, j :: 0 <= i <= j < |tasks| ==> Phase(tasks[i]) <= Phase(tasks[j])
  }

  ghost function EdgesOf(tasks: seq<Task>): set<(nat, nat)> {
    set a: nat, b: nat | a < |tasks| && b < |tasks| && Linked(tasks[a], tasks[b]) :: (a, b)
  }

  ghost function TaskOps<V>(c: Config, avg: Average<V>, tasks: seq<Task>): seq<Op<Loc, V>>
    requires Sensible(c) && AllExist(c, tasks)
  {
    seq(|tasks|, k requires 0 <= k < |tasks| => TaskOp(c, avg, tasks[k]))
  }

  function TaskAt(phase: nat, x: nat, y: nat): (t: Task)
    ensures Phase(t) == phase && t.x == x && t.y == y && (t.Cpb? <==> phase % 2 == 1) && t.it == phase / 2
  {
    if phase % 2 == 0 then Stc(phase / 2, x, y) else Cpb(phase / 2, x, y)
  }

  lemma TaskIs(t: Task)
    ensures t == TaskAt(Phase(t), t.x, t.y)
  {
  }

  /** From a task a path leads to every later task of the same chunk or of one next to it. */
  lemma {:induction false} NearReaches(c: Config, tasks: seq<Task>, a: nat, b: nat)
    requires Listing(c, tasks) && a < |tasks| && b < |tasks|
    requires Phase(tasks[a]) < Phase(tasks[b]) && Near(tasks[a].x, tasks[a].y, tasks[b].x, tasks[b].y)
    ensures Reaches(EdgesOf(tasks), a, b)
    decreases Phase(tasks[b])
  {
    if Phase(tasks[b]) == Phase(tasks[a]) + 1 {
      EdgeReaches(EdgesOf(tasks), a, b);
    } else {
      var t := TaskAt(Phase(tasks[b]) - 1, tasks[b].x, tasks[b].y);
      assert t in tasks;
      var m :| 0 <= m < |tasks| && tasks[m] == t;
      NearReaches(c, tasks, a, m);
      EdgeReaches(EdgesOf(tasks), m, b);
      ReachesTransitive(EdgesOf(tasks), a, m, b);
    }
  }

  lemma ConflictsReach<V>(c: Config, avg: Average<V>, tasks: seq<Task>, a: nat, b: nat)
    requires Sensible(c) && Listing(c, tasks) && a < |tasks| && b < |tasks| && a != b
    requires Conflict(TaskOp(c, avg, tasks[a]), TaskOp(c, avg, tasks[b]))
    ensures Reaches(EdgesOf(tasks), a, b) || Reaches(EdgesOf(tasks), b, a)
  {
    assert tasks[a] != tasks[b];
    ConflictsAreNear(c, avg, tasks[a], tasks[b]);
    if Phase(tasks[a]) < Phase(tasks[b]) {
      NearReaches(c, tasks, a, b);
    } else {
      NearReaches(c, tasks, b, a);
    }
  }

  lemma AnyOrderIsSerial<V>(c: Config, avg: Average<V>, tasks: seq<Task>, order: seq<nat>, s: map<Loc, V>)
    requires Sensible(c) && Listing(c, tasks) && Topological(order, |tasks|, EdgesOf(tasks))
    ensures Run(TaskOps(c, avg, tasks), order, s) == Run(TaskOps(c, avg, tasks), UpTo(|tasks|), s)
  {
    var ops := TaskOps(c, avg, tasks);
    forall e | e in EdgesOf(tasks)
      ensures e.0 < e.1 < |tasks|
    {
      assert Phase(tasks[e.0]) < Phase(tasks[e.1]);
    }
    ForwardTopological(|tasks|, EdgesOf(tasks));
    forall a: nat, b: nat | a < b < |ops| && Conflict(ops[a], ops[b])
      ensures Reaches(EdgesOf(tasks), a, b) || Reaches(EdgesOf(tasks), b, a)
    {
      ConflictsReach(c, avg, tasks, a, b);
    }
    ScheduleIndependence(ops, EdgesOf(tasks), order, UpTo(|tasks|), s);
  }

  // ---------------------------------------------------------------- the Jacobi iterates

  /** The value at (i, j) after `n` full sweeps that start from `u`; the border never changes. */
  ghost function After<V>(c: Config, avg: Average<V>, s: map<Loc, V>, n: nat, i: int, j: int): V
    requires Full(c, s) && InGrid(c, i, j)
    decreases n
  {
    if n == 0 || !Inner(c, i, j) then s[U(i, j)]
    else avg(After(c, avg, s, n - 1, i, j - 1), After(c, avg, s, n - 1, i, j + 1),
             After(c, avg, s, n - 1, i - 1, j), After(c, avg, s, n - 1, i + 1, j))
  }

  /** The iterates as a function of the iteration and the position. */
  type Iterates<!V> = (nat, int, int) -> V

  /** From one iterate to the next: the average of the neighbours inside, no change on the border. */
  ghost predicate Sweeps<V>(c: Config, avg: Average<V>, f: Iterates<V>, n: nat, i: int, j: int) {
    f(n + 1, i, j) == if Inner(c, i, j) then avg(f(n, i, j - 1), f(n, i, j + 1), f(n, i - 1, j), f(n, i + 1, j))
        else f(n, i, j)
  }

  ghost predicate Jacobi<V>(c: Config, avg: Average<V>, f: Iterates<V>) {
    forall n: nat, i, j :: InGrid(c, i, j) ==> Sweeps(c, avg, f, n, i, j)
  }

  ghost predicate Done(c: Config, phase: nat, done: seq<Task>, i: int, j: int)
    requires Sensible(c)
  {
    && OwnerX(c, i) >= 0 && OwnerY(c, j) >= 0
    && TaskAt(phase, OwnerX(c, i), OwnerY(c, j)) in done
  }

  /** In the middle of a phase: `u` holds the iterate of the phase, or the next one where it has been copied back;
      `uhelp` holds the next one where it has been computed. */
  ghost predicate UCell<V>(c: Config, f: Iterates<V>, phase: nat, done: seq<Task>, s: map<Loc, V>, i: int, j: int)
    requires Sensible(c) && Full(c, s) && InGrid(c, i, j)
  {
    s[U(i, j)] ==
      f(if phase % 2 == 1 && Inner(c, i, j) && Done(c, phase, done, i, j) then phase / 2 + 1 else phase / 2, i, j)
  }

  ghost predicate HCell<V>(c: Config, f: Iterates<V>, phase: nat, done: seq<Task>, s: map<Loc, V>, i: int, j: int)
    requires Sensible(c) && Full(c, s) && InGrid(c, i, j)
  {
    Inner(c, i, j) && (phase % 2 == 1 || Done(c, phase, done, i, j)) ==> s[H(i, j)] == f(phase / 2 + 1, i, j)
  }

  ghost predicate Halfway<V>(c: Config, f: Iterates<V>, phase: nat, done: seq<Task>, s: map<Loc, V>)
    requires Sensible(c)
  {
    Full(c, s) && forall i, j :: InGrid(c, i, j) ==>
      UCell(c, f, phase, done, s, i, j) && HCell(c, f, phase, done, s, i, j)
  }

  lemma CellsOf<V>(c: Config, f: Iterates<V>, phase: nat, done: seq<Task>, s: map<Loc, V>, i: int, j: int)
    requires Sensible(c) && Halfway(c, f, phase, done, s) && InGrid(c, i, j)
    ensures Full(c, s) && UCell(c, f, phase, done, s, i, j) && HCell(c, f, phase, done, s, i, j)
  {
  }

  /** Before a stencil task the four neighbours of its cells hold the current iterate, so it computes the next one. */
  lemma StencilValue<V>(c: Config, avg: Average<V>, f: Iterates<V>, done: seq<Task>, it: nat, s: map<Loc, V>, i: int,
                        j: int)
    requires Sensible(c) && Jacobi(c, avg, f) && Halfway(c, f, 2 * it, done, s) && Full(c, s) && Inner(c, i, j)
    ensures U(i, j - 1) in s && U(i, j + 1) in s && U(i - 1, j) in s && U(i + 1, j) in s
    ensures Stencil(avg, s, i, j) == f(it + 1, i, j)
  {
    CellsOf(c, f, 2 * it, done, s, i, j - 1);
    CellsOf(c, f, 2 * it, done, s, i, j + 1);
    CellsOf(c, f, 2 * it, done, s, i - 1, j);
    CellsOf(c, f, 2 * it, done, s, i + 1, j);
    assert Sweeps(c, avg, f, it, i, j);
  }

  /** Exactly the cells of the chunk have become done. */
  lemma DoneGrows(c: Config, done: seq<Task>, t: Task, i: int, j: int)
    requires Sensible(c) && Exists(c, t) && Inner(c, i, j)
    ensures Done(c, Phase(t), done + [t], i, j) <==> Done(c, Phase(t), done, i, j) || InChunk(c, t.x, t.y, i, j)
  {
    ChunksCover(c, t.x, t.y, i, j);
    TaskIs(t);
  }

  lemma StencilCells<V>(c: Config, f: Iterates<V>, done: seq<Task>, t: Task, s: map<Loc, V>, s': map<Loc, V>, i: int,
                        j: int)
    requires Sensible(c) && Exists(c, t) && t.Stc? && Full(c, s) && Full(c, s') && InGrid(c, i, j)
    requires UCell(c, f, Phase(t), done, s, i, j) && HCell(c, f, Phase(t), done, s, i, j)
    requires s'[U(i, j)] == s[U(i, j)]
    requires Inner(c, i, j) && InChunk(c, t.x, t.y, i, j) ==> s'[H(i, j)] == f(t.it + 1, i, j)
    requires !InChunk(c, t.x, t.y, i, j) ==> s'[H(i, j)] == s[H(i, j)]
    ensures UCell(c, f, Phase(t), done + [t], s', i, j) && HCell(c, f, Phase(t), done + [t], s', i, j)
  {
    if Inner(c, i, j) {
      DoneGrows(c, done, t, i, j);
    }
  }

  lemma CopyCells<V>(c: Config, f: Iterates<V>, done: seq<Task>, t: Task, s: map<Loc, V>, s': map<Loc, V>, i: int,
                     j: int)
    requires Sensible(c) && Exists(c, t) && t.Cpb? && Full(c, s) && Full(c, s') && InGrid(c, i, j)
    requires UCell(c, f, Phase(t), done, s, i, j) && HCell(c, f, Phase(t), done, s, i, j)
    requires s'[H(i, j)] == s[H(i, j)]
    requires s'[U(i, j)] == if InChunk(c, t.x, t.y, i, j) then s[H(i, j)] else s[U(i, j)]
    ensures UCell(c, f, Phase(t), done + [t], s', i, j) && HCell(c, f, Phase(t), done + [t], s', i, j)
  {
    ChunksCover(c, t.x, t.y, i, j);
    if Inner(c, i, j) {
      DoneGrows(c, done, t, i, j);
    }
  }

  lemma PhaseCell<V>(c: Config, avg: Average<V>, f: Iterates<V>, done: seq<Task>, t: Task, s: map<Loc, V>,
                     s': map<Loc, V>, i: int, j: int)
    requires Sensible(c) && Exists(c, t) && Jacobi(c, avg, f) && Halfway(c, f, Phase(t), done, s) && Full(c, s)
    requires s' == Exec(TaskOp(c, avg, t), s) && Full(c, s') && InGrid(c, i, j)
    ensures UCell(c, f, Phase(t), done + [t], s', i, j) && HCell(c, f, Phase(t), done + [t], s', i, j)
  {
    if t.Stc? {
      StencilCell(c, avg, f, done, t, s, s', i, j);
    } else {
      CellsOf(c, f, Phase(t), done, s, i, j);
      ExecCopy(c, avg, t, s, i, j);
      CopyCells(c, f, done, t, s, s', i, j);
    }
  }

  /** What a stencil task writes is the value of the next sweep. */
  lemma StencilWrites<V>(c: Config, avg: Average<V>, f: Iterates<V>, done: seq<Task>, t: Task, s: map<Loc, V>,
                         s': map<Loc, V>, i: int, j: int)
    requires Sensible(c) && Exists(c, t) && Jacobi(c, avg, f) && Halfway(c, f, Phase(t), done, s) && Full(c, s)
    requires t.Stc? && s' == Exec(TaskOp(c, avg, t), s) && Full(c, s') && Inner(c, i, j)
    requires InChunk(c, t.x, t.y, i, j)
    ensures s'[H(i, j)] == f(t.it + 1, i, j)
  {
    StencilValue(c, avg, f, done, t.it, s, i, j);
    ExecStencil(c, avg, t, s, i, j);
  }

  lemma StencilElsewhere<V>(c: Config, avg: Average<V>, t: Task, s: map<Loc, V>, s': map<Loc, V>, i: int, j: int)
    requires Sensible(c) && Exists(c, t) && Full(c, s) && Full(c, s') && InGrid(c, i, j)
    requires t.Stc? && s' == Exec(TaskOp(c, avg, t), s)
    ensures s'[U(i, j)] == s[U(i, j)] && (!InChunk(c, t.x, t.y, i, j) ==> s'[H(i, j)] == s[H(i, j)])
  {
    ExecStencil(c, avg, t, s, i, j);
  }

  lemma StencilCell<V>(c: Config, avg: Average<V>, f: Iterates<V>, done: seq<Task>, t: Task, s: map<Loc, V>,
                       s': map<Loc, V>, i: int, j: int)
    requires Sensible(c) && Exists(c, t) && Jacobi(c, avg, f) && Halfway(c, f, Phase(t), done, s) && Full(c, s)
    requires t.Stc? && s' == Exec(TaskOp(c, avg, t), s) && Full(c, s') && InGrid(c, i, j)
    ensures UCell(c, f, Phase(t), done + [t], s', i, j) && HCell(c, f, Phase(t), done + [t], s', i, j)
  {
    CellsOf(c, f, Phase(t), done, s, i, j);
    StencilElsewhere(c, avg, t, s, s', i, j);
    if Inner(c, i, j) && InChunk(c, t.x, t.y, i, j) {
      StencilWrites(c, avg, f, done, t, s, s', i, j);
    }
    StencilCells(c, f, done, t, s, s', i, j);
  }

  /** A task of the phase advances the cells of its chunk. */
  lemma PhaseStep<V>(c: Config, avg: Average<V>, f: Iterates<V>, done: seq<Task>, t: Task, s: map<Loc, V>,
                     s': map<Loc, V>)
    requires Sensible(c) && Exists(c, t) && Jacobi(c, avg, f) && Halfway(c, f, Phase(t), done, s)
    requires s' == Exec(TaskOp(c, avg, t), s)
    ensures Halfway(c, f, Phase(t), done + [t], s')
  {
    StepKeepsFull(c, avg, t, s);
    forall i, j | InGrid(c, i, j)
      ensures UCell(c, f, Phase(t), done + [t], s', i, j) && HCell(c, f, Phase(t), done + [t], s', i, j)
    {
      PhaseCell(c, avg, f, done, t, s, s', i, j);
    }
  }

  lemma StepKeepsFull<V>(c: Config, avg: Average<V>, t: Task, s: map<Loc, V>)
    requires Sensible(c) && Exists(c, t) && Full(c, s)
    ensures Full(c, Exec(TaskOp(c, avg, t), s))
  {
    assert s.Keys <= Exec(TaskOp(c, avg, t), s).Keys;
  }

  /** When all tasks of a phase are done and none of the next one is, the next phase begins. */
  lemma PhaseEnds<V>(c: Config, avg: Average<V>, f: Iterates<V>, phase: nat, done: seq<Task>, s: map<Loc, V>)
    requires Sensible(c) && Jacobi(c, avg, f) && Halfway(c, f, phase, done, s)
    requires forall x: nat, y: nat :: x < c.ex && y < c.ey ==> TaskAt(phase, x, y) in done
    requires forall t :: t in done ==> Phase(t) <= phase
    ensures Halfway(c, f, phase + 1, done, s)
  {
    forall i, j | InGrid(c, i, j)
      ensures UCell(c, f, phase + 1, done, s, i, j) && HCell(c, f, phase + 1, done, s, i, j)
    {
      assert UCell(c, f, phase, done, s, i, j) && HCell(c, f, phase, done, s, i, j);
      assert Sweeps(c, avg, f, phase / 2, i, j);
      ChunksCover(c, 0, 0, i, j);
      if Inner(c, i, j) {
        assert Done(c, phase, done, i, j);
      }
      NotYet(c, phase + 1, done, i, j);
    }
  }

  lemma NotYet(c: Config, phase: nat, done: seq<Task>, i: int, j: int)
    requires Sensible(c) && forall t :: t in done ==> Phase(t) < phase
    ensures !Done(c, phase, done, i, j)
  {
  }

  function PhaseAt(c: Config, tasks: seq<Task>, k: nat): nat {
    if k < |tasks| then Phase(tasks[k]) else 2 * c.iters
  }

  lemma PhaseGrows(c: Config, tasks: seq<Task>, k: nat)
    requires Sensible(c) && Listing(c, tasks) && k < |tasks|
    ensures PhaseAt(c, tasks, k + 1) == Phase(tasks[k]) || PhaseAt(c, tasks, k + 1) == Phase(tasks[k]) + 1
  {
    var p := Phase(tasks[k]);
    assert p < 2 * c.iters;
    if p + 1 < 2 * c.iters {
      var t := TaskAt(p + 1, 0, 0);
      assert Exists(c, t);
      assert t in tasks;
      var m :| 0 <= m < |tasks| && tasks[m] == t;
      assert Phase(tasks[m]) > p;
      assert m > k;
    }
  }

  /** Every task of a phase that is over has been done. */
  lemma PhaseOver(c: Config, tasks: seq<Task>, k: nat, x: nat, y: nat)
    requires Sensible(c) && Listing(c, tasks) && k < |tasks| && PhaseAt(c, tasks, k + 1) == Phase(tasks[k]) + 1
    requires x < c.ex && y < c.ey
    ensures TaskAt(Phase(tasks[k]), x, y) in tasks[..k + 1]
  {
    var t := TaskAt(Phase(tasks[k]), x, y);
    assert Exists(c, tasks[k]);
    assert t in tasks;
    var m :| 0 <= m < |tasks| && tasks[m] == t;
    NotBehind(c, tasks, k + 1, m);
    assert tasks[..k + 1][m] == t;
  }

  lemma NotBehind(c: Config, tasks: seq<Task>, k: nat, m: nat)
    requires Listing(c, tasks) && m < |tasks| && Phase(tasks[m]) < PhaseAt(c, tasks, k)
    ensures m < k || k >= |tasks|
  {
  }

  lemma SerialStep<V>(c: Config, avg: Average<V>, tasks: seq<Task>, f: Iterates<V>, k: nat, s: map<Loc, V>,
                      s': map<Loc, V>)
    requires Sensible(c) && Listing(c, tasks) && k < |tasks| && Jacobi(c, avg, f)
    requires Halfway(c, f, Phase(tasks[k]), tasks[..k], s) && s' == Exec(TaskOp(c, avg, tasks[k]), s)
    ensures Halfway(c, f, PhaseAt(c, tasks, k + 1), tasks[..k + 1], s')
  {
    var done := tasks[..k + 1];
    assert done == tasks[..k] + [tasks[k]];
    PhaseStep(c, avg, f, tasks[..k], tasks[k], s, s');
    PhaseAfter(c, avg, tasks, f, k, done, s');
  }

  lemma PhaseAfter<V>(c: Config, avg: Average<V>, tasks: seq<Task>, f: Iterates<V>, k: nat, done: seq<Task>,
                      s: map<Loc, V>)
    requires Sensible(c) && Listing(c, tasks) && k < |tasks| && Jacobi(c, avg, f) && done == tasks[..k + 1]
    requires Halfway(c, f, Phase(tasks[k]), done, s)
    ensures Halfway(c, f, PhaseAt(c, tasks, k + 1), done, s)
  {
    PhaseGrows(c, tasks, k);
    if PhaseAt(c, tasks, k + 1) == Phase(tasks[k]) + 1 {
      PhaseDone(c, tasks, k);
      NoLater(c, tasks, k, done);
      PhaseEnds(c, avg, f, Phase(tasks[k]), done, s);
    }
  }

  lemma NoLater(c: Config, tasks: seq<Task>, k: nat, done: seq<Task>)
    requires Listing(c, tasks) && k < |tasks| && done == tasks[..k + 1]
    ensures forall t :: t in done ==> Phase(t) <= Phase(tasks[k])
  {
  }

  lemma PhaseDone(c: Config, tasks: seq<Task>, k: nat)
    requires Listing(c, tasks) && k < |tasks| && Sensible(c)
    requires PhaseAt(c, tasks, k + 1) == Phase(tasks[k]) + 1
    ensures forall x: nat, y: nat :: x < c.ex && y < c.ey ==> TaskAt(Phase(tasks[k]), x, y) in tasks[..k + 1]
  {
    forall x: nat, y: nat | x < c.ex && y < c.ey
      ensures TaskAt(Phase(tasks[k]), x, y) in tasks[..k + 1]
    {
      PhaseOver(c, tasks, k, x, y);
    }
  }

  lemma {:induction false} SerialHalfway<V>(c: Config, avg: Average<V>, tasks: seq<Task>, f: Iterates<V>,
                                            s0: map<Loc, V>, k: nat)
    requires Sensible(c) && Listing(c, tasks) && k <= |tasks| && Jacobi(c, avg, f) && Full(c, s0)
    requires forall i, j :: InGrid(c, i, j) ==> s0[U(i, j)] == f(0, i, j)
    ensures forall x :: 0 <= x < k ==> UpTo(k)[x] < |tasks|
    ensures Halfway(c, f, PhaseAt(c, tasks, k), tasks[..k], Run(TaskOps(c, avg, tasks), UpTo(k), s0))
  {
    if k == 0 {
      FirstPhase(c, tasks);
    } else {
      var ops, before := TaskOps(c, avg, tasks), UpTo(k - 1);
      SerialHalfway(c, avg, tasks, f, s0, k - 1);
      assert UpTo(k) == before + [k - 1];
      RunAppend(ops, before, k - 1, s0);
      SerialStep(c, avg, tasks, f, k - 1, Run(ops, before, s0), Run(ops, UpTo(k), s0));
    }
  }

  lemma FirstPhase(c: Config, tasks: seq<Task>)
    requires Sensible(c) && Listing(c, tasks)
    ensures PhaseAt(c, tasks, 0) == 0
  {
    assert Exists(c, TaskAt(0, 0, 0));
    assert TaskAt(0, 0, 0) in tasks;
  }

  /** The iterates that start from the contents of `u`. */
  lemma IteratesFrom<V>(c: Config, avg: Average<V>, s: map<Loc, V>) returns (f: Iterates<V>)
    requires Sensible(c) && Full(c, s)
    ensures Jacobi(c, avg, f) && forall n: nat, i, j :: InGrid(c, i, j) ==> f(n, i, j) == After(c, avg, s, n, i, j)
    ensures forall i, j :: InGrid(c, i, j) ==> s[U(i, j)] == f(0, i, j)
  {
    assert InGrid(c, 0, 0);
    f := (n: nat, i, j) => if InGrid(c, i, j) then After(c, avg, s, n, i, j) else s[U(0, 0)];
    forall n: nat, i, j | InGrid(c, i, j)
      ensures Sweeps(c, avg, f, n, i, j)
    {
      AfterStep(c, avg, s, n, i, j);
    }
  }

  lemma AfterStep<V>(c: Config, avg: Average<V>, s: map<Loc, V>, n: nat, i: int, j: int)
    requires Full(c, s) && InGrid(c, i, j)
    ensures After(c, avg, s, n + 1, i, j) ==
            if Inner(c, i, j) then avg(After(c, avg, s, n, i, j - 1), After(c, avg, s, n, i, j + 1),
                                       After(c, avg, s, n, i - 1, j), After(c, avg, s, n, i + 1, j))
            else After(c, avg, s, n, i, j)
  {
  }

  /** Main result: any topological order of the graph leaves `u` as `iters` full Jacobi sweeps do, border included. */
  lemma DagIsJacobi<V>(c: Config, avg: Average<V>, tasks: seq<Task>, order: seq<nat>, s: map<Loc, V>, i: int, j: int)
    requires Sensible(c) && Listing(c, tasks) && Topological(order, |tasks|, EdgesOf(tasks)) && Full(c, s)
    requires InGrid(c, i, j)
    ensures var end := Run(TaskOps(c, avg, tasks), order, s);
            U(i, j) in end && end[U(i, j)] == After(c, avg, s, c.iters, i, j)
  {
    var n := |tasks|;
    AnyOrderIsSerial(c, avg, tasks, order, s);
    var f := IteratesFrom(c, avg, s);
    SerialHalfway(c, avg, tasks, f, s, n);
    var end := Run(TaskOps(c, avg, tasks), UpTo(n), s);
    assert UCell(c, f, 2 * c.iters, tasks[..n], end, i, j);
  }
}
