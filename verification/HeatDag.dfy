/** The program around the stencil graph: the loops that create nodes and edges, and the two kernels over the arrays.

    The builder creates the stencils of the first iteration without edges, then alternates between a layer of copies
    and a layer of stencils, and ends with a layer of copies; every node of a layer gets edges from the same chunk and
    the neighbouring chunks of the layer before. The kernels run over the inner positions of a chunk of a square array.
    Running them in any order that respects the edges is shown to be what the graph computes on the store. */
module HeatDag {
  import opened DagExecution
  import opened HeatStencil

  /** Everything created before chunk (x, y) of a phase. */
  ghost predicate Before(t: Task, phase: nat, x: nat, y: nat) {
    Phase(t) < phase || (Phase(t) == phase && (t.x < x || (t.x == x && t.y < y)))
  }

  ghost predicate Created(c: Config, tasks: seq<Task>, phase: nat, x: nat, y: nat) {
    var holds :=
      && AllExist(c, tasks) && NoRepeats(tasks) && PhaseByPhase(tasks)
      && (forall t :: t in tasks <==> Exists(c, t) && Before(t, phase, x, y));
    holds
  }

  /** The node arrays point at the tasks. */
  ghost predicate Indexed(tasks: seq<Task>, node: map<Task, nat>) {
    var holds :=
      && (forall t :: t in tasks ==> t in node && node[t] < |tasks| && tasks[node[t]] == t);
    holds
  }

  ghost predicate Connected(tasks: seq<Task>, edges: seq<(nat, nat)>) {
    var holds :=
      && (forall e :: e in edges <==> e in EdgesOf(tasks))
      && (forall i, j :: 0 <= i < j < |edges| ==> edges[i] != edges[j]);
    holds
  }

  /** The nodes that get an edge to `t`: the cell itself, its row, then its column. */
  function Sources(c: Config, t: Task): seq<Task> {
    if Phase(t) == 0 then [] else SourcesInX(c, Phase(t) - 1, t.x, t.y) + SourcesInY(c, Phase(t) - 1, t.x, t.y)
  }

  lemma SourcesSplit(c: Config, t: Task, p: nat)
    requires Phase(t) >= 1 && p == Phase(t) - 1
    ensures Sources(c, t) == SourcesInX(c, p, t.x, t.y) + SourcesInY(c, p, t.x, t.y)
    ensures forall u :: u in Sources(c, t) <==> u in SourcesInX(c, p, t.x, t.y) || u in SourcesInY(c, p, t.x, t.y)
  {
  }

  function SourcesInX(c: Config, p: nat, x: nat, y: nat): seq<Task> {
    [TaskAt(p, x, y)] + (if x >= 1 then [TaskAt(p, x - 1, y)] else []) +
    (if x + 1 < c.ex then [TaskAt(p, x + 1, y)] else [])
  }

  function SourcesInY(c: Config, p: nat, x: nat, y: nat): seq<Task> {
    (if y >= 1 then [TaskAt(p, x, y - 1)] else []) + (if y + 1 < c.ey then [TaskAt(p, x, y + 1)] else [])
  }

  lemma SourcesAreLinked(c: Config, t: Task, u: Task)
    requires Exists(c, t)
    ensures u in Sources(c, t) <==> u.x < c.ex && u.y < c.ey && Linked(u, t)
  {
    TaskIs(u);
  }

  lemma SourcesDistinct(c: Config, t: Task)
    ensures NoRepeats(Sources(c, t))
  {
  }

  lemma CreatedNext(c: Config, tasks: seq<Task>, phase: nat, x: nat, y: nat)
    requires Created(c, tasks, phase, x, y) && phase < 2 * c.iters && x < c.ex && y < c.ey
    ensures Created(c, tasks + [TaskAt(phase, x, y)], phase, x, y + 1)
  {
    var t := TaskAt(phase, x, y);
    assert !Before(t, phase, x, y);
    forall u
      ensures u in tasks + [t] <==> Exists(c, u) && Before(u, phase, x, y + 1)
    {
      TaskIs(u);
    }
  }

  lemma RowEnds(c: Config, tasks: seq<Task>, phase: nat, x: nat)
    requires Created(c, tasks, phase, x, c.ey)
    ensures Created(c, tasks, phase, x + 1, 0)
  {
  }

  lemma PhaseCreated(c: Config, tasks: seq<Task>, phase: nat)
    requires Created(c, tasks, phase, c.ex, 0)
    ensures Created(c, tasks, phase + 1, 0, 0)
  {
  }

  lemma AllCreated(c: Config, tasks: seq<Task>)
    requires Created(c, tasks, 2 * c.iters, 0, 0)
    ensures Listing(c, tasks)
  {
  }

  ghost predicate Named(node: map<Task, nat>, us: seq<Task>) {
    forall k :: 0 <= k < |us| ==> us[k] in node
  }

  /** The edges from the nodes of `us` to node `n`. */
  ghost function EdgesTo(node: map<Task, nat>, us: seq<Task>, n: nat): (es: seq<(nat, nat)>)
    requires Named(node, us)
    ensures |es| == |us| && forall k :: 0 <= k < |us| ==> es[k] == (node[us[k]], n)
  {
    seq(|us|, k requires 0 <= k < |us| => (node[us[k]], n))
  }

  lemma EdgesToAppend(node: map<Task, nat>, us: seq<Task>, vs: seq<Task>, n: nat)
    requires Named(node, us) && Named(node, vs)
    ensures Named(node, us + vs) && EdgesTo(node, us + vs, n) == EdgesTo(node, us, n) + EdgesTo(node, vs, n)
  {
  }

  lemma SourcesIndexed(c: Config, tasks: seq<Task>, node: map<Task, nat>, t: Task)
    requires Created(c, tasks, Phase(t), t.x, t.y) && Indexed(tasks, node) && Exists(c, t)
    ensures forall u :: u in Sources(c, t) ==> u in tasks && u in node && node[u] < |tasks| && tasks[node[u]] == u
  {
    forall u | u in Sources(c, t)
      ensures u in tasks
    {
      SourcesAreLinked(c, t, u);
    }
  }

  /** A new last task adds the edges that lead to it and no other ones. */
  lemma EdgesOfNext(c: Config, tasks: seq<Task>, t: Task, a: nat, b: nat)
    requires Created(c, tasks, Phase(t), t.x, t.y)
    ensures (a, b) in EdgesOf(tasks + [t]) <==>
            (a, b) in EdgesOf(tasks) || (b == |tasks| && a < |tasks| && Linked(tasks[a], t))
  {
    var all := tasks + [t];
    if a == |tasks| && b < |tasks| {
      assert tasks[b] in tasks;
    }
  }

  /** The new edges are those from the sources. */
  lemma NewEdgesAre(c: Config, tasks: seq<Task>, node: map<Task, nat>, t: Task, a: nat, b: nat)
    requires Created(c, tasks, Phase(t), t.x, t.y) && Indexed(tasks, node) && Exists(c, t)
    requires forall u :: u in Sources(c, t) ==> u in tasks && u in node && node[u] < |tasks| && tasks[node[u]] == u
    ensures (a, b) in EdgesTo(node, Sources(c, t), |tasks|) <==> b == |tasks| && a < |tasks| && Linked(tasks[a], t)
  {
    var us := Sources(c, t);
    var es := EdgesTo(node, us, |tasks|);
    if (a, b) in es {
      var k :| 0 <= k < |es| && es[k] == (a, b);
      SourcesAreLinked(c, t, us[k]);
      assert us[k] in us;
    }
    if b == |tasks| && a < |tasks| && Linked(tasks[a], t) {
      assert tasks[a] in tasks;
      SourcesAreLinked(c, t, tasks[a]);
      var k :| 0 <= k < |us| && us[k] == tasks[a];
      assert es[k] == (node[tasks[a]], b);
      assert node[tasks[a]] == a;
    }
  }

  lemma NewEdgesDistinct(c: Config, tasks: seq<Task>, node: map<Task, nat>, t: Task)
    requires forall u :: u in Sources(c, t) ==> u in node && node[u] < |tasks| && tasks[node[u]] == u
    ensures var es := EdgesTo(node, Sources(c, t), |tasks|); forall i, j :: 0 <= i < j < |es| ==> es[i] != es[j]
  {
    SourcesDistinct(c, t);
    var us := Sources(c, t);
    var es := EdgesTo(node, us, |tasks|);
    forall i, j | 0 <= i < j < |es|
      ensures es[i] != es[j]
    {
      assert us[i] in us && us[j] in us && us[i] != us[j];
    }
  }

  lemma ConnectedNext(c: Config, tasks: seq<Task>, edges: seq<(nat, nat)>, node: map<Task, nat>, t: Task)
    requires Created(c, tasks, Phase(t), t.x, t.y) && Indexed(tasks, node) && Connected(tasks, edges) && Exists(c, t)
    ensures forall u :: u in Sources(c, t) ==> u in node
    ensures Connected(tasks + [t], edges + EdgesTo(node, Sources(c, t), |tasks|))
  {
    SourcesIndexed(c, tasks, node, t);
    var es := EdgesTo(node, Sources(c, t), |tasks|);
    forall e: (nat, nat)
      ensures e in edges + es <==> e in EdgesOf(tasks + [t])
    {
      EdgesOfNext(c, tasks, t, e.0, e.1);
      NewEdgesAre(c, tasks, node, t, e.0, e.1);
    }
    NewEdgesDistinct(c, tasks, node, t);
    OldEdgesApart(tasks, edges, es);
  }

  lemma OldEdgesApart(tasks: seq<Task>, edges: seq<(nat, nat)>, es: seq<(nat, nat)>)
    requires Connected(tasks, edges) && forall k :: 0 <= k < |es| ==> es[k].1 == |tasks|
    requires forall i, j :: 0 <= i < j < |es| ==> es[i] != es[j]
    ensures forall i, j :: 0 <= i < j < |edges + es| ==> (edges + es)[i] != (edges + es)[j]
  {
    forall i | 0 <= i < |edges|
      ensures edges[i].1 < |tasks|
    {
      assert edges[i] in EdgesOf(tasks);
    }
  }

  class Builder {
    const c: Config
    var tasks: seq<Task>
    var edges: seq<(nat, nat)>
    var node: map<Task, nat>

    constructor (config: Config)
      ensures c == config && tasks == [] && edges == [] && node == map[]
    {
      c, tasks, edges, node := config, [], [], map[];
    }

    ghost predicate At(phase: nat, x: nat, y: nat)
      reads this
    {
      var holds :=
        Sensible(c) && Created(c, tasks, phase, x, y) && Indexed(tasks, node) && Connected(tasks, edges);
      holds
    }

    /** `make_edge` from the node of `u` to node `n`. */
    method MakeEdge(u: Task, n: nat)
      requires u in node
      modifies this`edges
      ensures edges == old(edges) + EdgesTo(node, [u], n)
    {
      edges := edges + [(node[u], n)];
    }

    /** The edges from the same chunk and its neighbours in x, as far as they exist. */
    method ConnectInX(p: nat, x: nat, y: nat, n: nat)
      requires forall u :: u in SourcesInX(c, p, x, y) ==> u in node
      modifies this`edges
      ensures Named(node, SourcesInX(c, p, x, y)) && edges == old(edges) + EdgesTo(node, SourcesInX(c, p, x, y), n)
    {
      ghost var was := edges;
      MakeEdge(TaskAt(p, x, y), n);
      ghost var us := [TaskAt(p, x, y)];
      if x >= 1 {
        EdgesToAppend(node, us, [TaskAt(p, x - 1, y)], n);
        us := us + [TaskAt(p, x - 1, y)];
        MakeEdge(TaskAt(p, x - 1, y), n);
      }
      assert edges == was + EdgesTo(node, us, n);
      if x + 1 < c.ex {
        EdgesToAppend(node, us, [TaskAt(p, x + 1, y)], n);
        us := us + [TaskAt(p, x + 1, y)];
        MakeEdge(TaskAt(p, x + 1, y), n);
      }
      assert us == SourcesInX(c, p, x, y);
    }

    /** The edges from the neighbours in y. */
    method ConnectInY(p: nat, x: nat, y: nat, n: nat)
      requires forall u :: u in SourcesInY(c, p, x, y) ==> u in node
      modifies this`edges
      ensures Named(node, SourcesInY(c, p, x, y)) && edges == old(edges) + EdgesTo(node, SourcesInY(c, p, x, y), n)
    {
      ghost var us := [];
      if y >= 1 {
        us := [TaskAt(p, x, y - 1)];
        MakeEdge(TaskAt(p, x, y - 1), n);
      }
      if y + 1 < c.ey {
        EdgesToAppend(node, us, [TaskAt(p, x, y + 1)], n);
        us := us + [TaskAt(p, x, y + 1)];
        MakeEdge(TaskAt(p, x, y + 1), n);
      }
      assert us == SourcesInY(c, p, x, y);
    }

    /** All incoming edges of the node of `t`. */
    method Connect(t: Task, n: nat)
      requires Phase(t) >= 1 && forall u :: u in Sources(c, t) ==> u in node
      modifies this`edges
      ensures Named(node, Sources(c, t)) && edges == old(edges) + EdgesTo(node, Sources(c, t), n)
    {
      ghost var p := Phase(t) - 1;
      SourcesSplit(c, t, p);
      ConnectInX(Phase(t) - 1, t.x, t.y, n);
      ConnectInY(Phase(t) - 1, t.x, t.y, n);
      EdgesToAppend(node, SourcesInX(c, p, t.x, t.y), SourcesInY(c, p, t.x, t.y), n);
    }

    /** A new node with its incoming edges. */
    method Add(phase: nat, x: nat, y: nat)
      requires At(phase, x, y) && phase < 2 * c.iters && x < c.ex && y < c.ey
      modifies this
      ensures At(phase, x, y + 1)
    {
      var t := TaskAt(phase, x, y);
      ConnectedNext(c, tasks, edges, node, t);
      CreatedNext(c, tasks, phase, x, y);
      if phase > 0 {
        Connect(t, |tasks|);
      }
      node := node[t := |tasks|];
      tasks := tasks + [t];
    }

    /** One double loop over the chunks: all stencils or all copies of an iteration. */
    method AddLayer(phase: nat)
      requires At(phase, 0, 0) && phase < 2 * c.iters
      modifies this
      ensures At(phase + 1, 0, 0)
    {
      for x := 0 to c.ex
        invariant At(phase, x, 0)
      {
        for y := 0 to c.ey
          invariant At(phase, x, y)
        {
          Add(phase, x, y);
        }
        RowEnds(c, tasks, phase, x);
      }
      PhaseCreated(c, tasks, phase);
    }

    /** The whole graph: every task once, phase after phase, and exactly the edges to the next phase. */
    method Build()
      requires Sensible(c) && tasks == [] && edges == [] && node == map[]
      modifies this
      ensures Listing(c, tasks) && Connected(tasks, edges)
    {
      AddLayer(0);
      var iter := 0;
      while iter < c.iters - 1
        invariant iter < c.iters && At(2 * iter + 1, 0, 0)
      {
        AddLayer(2 * iter + 1);
        iter := iter + 1;
        AddLayer(2 * iter);
      }
      AddLayer(2 * iter + 1);
      AllCreated(c, tasks);
    }
  }

  // ---------------------------------------------------------------- the kernels

  ghost predicate Square<V>(c: Config, a: array2<V>)
    reads a
  {
    a.Length0 == c.np && a.Length1 == c.np
  }

  /** The two arrays as a store. */
  ghost function StoreOf<V>(c: Config, u: array2<V>, h: array2<V>): map<Loc, V>
    requires Square(c, u) && Square(c, h)
    reads u, h
  {
    (map i, j | 0 <= i < c.np && 0 <= j < c.np :: U(i, j) := u[i, j])
    + (map i, j | 0 <= i < c.np && 0 <= j < c.np :: H(i, j) := h[i, j])
  }

  /** One stencil chunk: every cell of the chunk gets the average of its neighbours in `src`, nothing else changes. */
  method Jacobi2D<V>(avg: Average<V>, src: array2<V>, dst: array2<V>, rows: int, cols: int,
                     offx: int, offy: int, chunkx: int, chunky: int)
    requires src != dst && src.Length0 == dst.Length0 == rows && src.Length1 == dst.Length1 == cols
    requires offx >= 0 && offy >= 0
    modifies dst
    ensures forall i, j :: 0 <= i < rows && 0 <= j < cols ==>
              dst[i, j] == if InSpan(i, offx, chunkx, rows) && InSpan(j, offy, chunky, cols)
                           then avg(src[i, j - 1], src[i, j + 1], src[i - 1, j], src[i + 1, j]) else old(dst[i, j])
  {
    var xstart := if offx == 0 then 1 else offx;
    var ystart := if offy == 0 then 1 else offy;
    var xstop := if offx + chunkx >= rows then rows - 1 else offx + chunkx;
    var ystop := if offy + chunky >= cols then cols - 1 else offy + chunky;
    var x := xstart;
    while x < xstop
      invariant xstart <= x && (x <= xstop || x == xstart)
      invariant forall i, j :: 0 <= i < rows && 0 <= j < cols ==>
                  dst[i, j] == if xstart <= i < x && ystart <= j < ystop
                               then avg(src[i, j - 1], src[i, j + 1], src[i - 1, j], src[i + 1, j]) else old(dst[i, j])
    {
      var y := ystart;
      while y < ystop
        invariant ystart <= y && (y <= ystop || y == ystart)
        invariant forall i, j :: 0 <= i < rows && 0 <= j < cols ==>
                    dst[i, j] == if (xstart <= i < x && ystart <= j < ystop) || (i == x && ystart <= j < y)
                                 then avg(src[i, j - 1], src[i, j + 1], src[i - 1, j], src[i + 1, j])
                                 else old(dst[i, j])
      {
        dst[x, y] := avg(src[x, y - 1], src[x, y + 1], src[x - 1, y], src[x + 1, y]);
        y := y + 1;
      }
      x := x + 1;
    }
  }

  /** One copy chunk. */
  method Copy2D<V>(src: array2<V>, dst: array2<V>, rows: int, cols: int, offx: int, offy: int, chunkx: int, chunky: int)
    requires src != dst && src.Length0 == dst.Length0 == rows && src.Length1 == dst.Length1 == cols
    requires offx >= 0 && offy >= 0
    modifies dst
    ensures forall i, j :: 0 <= i < rows && 0 <= j < cols ==>
              dst[i, j] ==
              if InSpan(i, offx, chunkx, rows) && InSpan(j, offy, chunky, cols) then src[i, j] else old(dst[i, j])
  {
    var xstart := if offx == 0 then 1 else offx;
    var ystart := if offy == 0 then 1 else offy;
    var xstop := if offx + chunkx >= rows then rows - 1 else offx + chunkx;
    var ystop := if offy + chunky >= cols then cols - 1 else offy + chunky;
    var x := xstart;
    while x < xstop
      invariant xstart <= x && (x <= xstop || x == xstart)
      invariant forall i, j :: 0 <= i < rows && 0 <= j < cols ==>
                  dst[i, j] == if xstart <= i < x && ystart <= j < ystop then src[i, j] else old(dst[i, j])
    {
      var y := ystart;
      while y < ystop
        invariant ystart <= y && (y <= ystop || y == ystart)
        invariant forall i, j :: 0 <= i < rows && 0 <= j < cols ==>
                    dst[i, j] == if (xstart <= i < x && ystart <= j < ystop) || (i == x && ystart <= j < y)
                                 then src[i, j] else old(dst[i, j])
      {
        dst[x, y] := src[x, y];
        y := y + 1;
      }
      x := x + 1;
    }
  }

  lemma ExecKeys<V>(c: Config, avg: Average<V>, t: Task, s: map<Loc, V>)
    requires Sensible(c) && Exists(c, t) && Full(c, s)
    ensures Exec(TaskOp(c, avg, t), s).Keys == s.Keys
  {
  }

  lemma StoreKeys<V>(c: Config, u: array2<V>, h: array2<V>)
    requires Square(c, u) && Square(c, h)
    ensures Full(c, StoreOf(c, u, h)) && forall l :: l in StoreOf(c, u, h) <==> InGrid(c, l.i, l.j)
  {
  }

  lemma StoreAt<V>(c: Config, u: array2<V>, h: array2<V>, i: int, j: int)
    requires Square(c, u) && Square(c, h) && InGrid(c, i, j)
    ensures Shows(StoreOf(c, u, h), u, h, i, j)
  {
  }

  ghost predicate Shows<V>(m: map<Loc, V>, u: array2<V>, h: array2<V>, i: int, j: int)
    reads u, h
  {
    && 0 <= i < u.Length0 && 0 <= j < u.Length1 && 0 <= i < h.Length0 && 0 <= j < h.Length1
    && U(i, j) in m && H(i, j) in m && m[U(i, j)] == u[i, j] && m[H(i, j)] == h[i, j]
  }

  lemma StoreIs<V>(c: Config, u: array2<V>, h: array2<V>, s: map<Loc, V>, m: map<Loc, V>)
    requires Square(c, u) && Square(c, h) && s == StoreOf(c, u, h)
    requires forall i, j :: InGrid(c, i, j) ==> Shows(m, u, h, i, j)
    requires forall l :: l in m ==> InGrid(c, l.i, l.j)
    ensures s == m
  {
    StoreKeys(c, u, h);
    forall l: Loc | InGrid(c, l.i, l.j)
      ensures l in m && l in s && m[l] == s[l]
    {
      assert Shows(m, u, h, l.i, l.j);
      StoreAt(c, u, h, l.i, l.j);
    }
  }

  method RunStencil<V>(c: Config, avg: Average<V>, t: Task, u: array2<V>, h: array2<V>)
    requires Sensible(c) && Exists(c, t) && t.Stc? && u != h && Square(c, u) && Square(c, h)
    modifies h
    ensures StoreOf(c, u, h) == Exec(TaskOp(c, avg, t), old(StoreOf(c, u, h)))
  {
    ghost var s := StoreOf(c, u, h);
    ghost var s' := Exec(TaskOp(c, avg, t), s);
    StoreKeys(c, u, h);
    ExecKeys(c, avg, t, s);
    forall i, j | InGrid(c, i, j)
      ensures Shows(s, u, h, i, j)
    {
      StoreAt(c, u, h, i, j);
    }
    var cx, cy := CeilDiv(c.np, c.ex), CeilDiv(c.np, c.ey);
    Jacobi2D(avg, u, h, c.np, c.np, t.x * cx, t.y * cy, cx, cy);
    forall i, j | InGrid(c, i, j)
      ensures Shows(s', u, h, i, j)
    {
      assert old(Shows(s, u, h, i, j));
      ExecStencil(c, avg, t, s, i, j);
      if InChunk(c, t.x, t.y, i, j) {
        assert old(Shows(s, u, h, i, j - 1)) && old(Shows(s, u, h, i, j + 1));
        assert old(Shows(s, u, h, i - 1, j)) && old(Shows(s, u, h, i + 1, j));
      }
    }
    StoreIs(c, u, h, StoreOf(c, u, h), s');
  }

  method RunCopy<V>(c: Config, avg: Average<V>, t: Task, u: array2<V>, h: array2<V>)
    requires Sensible(c) && Exists(c, t) && t.Cpb? && u != h && Square(c, u) && Square(c, h)
    modifies u
    ensures StoreOf(c, u, h) == Exec(TaskOp(c, avg, t), old(StoreOf(c, u, h)))
  {
    ghost var s := StoreOf(c, u, h);
    ghost var s' := Exec(TaskOp(c, avg, t), s);
    StoreKeys(c, u, h);
    ExecKeys(c, avg, t, s);
    forall i, j | InGrid(c, i, j)
      ensures Shows(s, u, h, i, j)
    {
      StoreAt(c, u, h, i, j);
    }
    var cx, cy := CeilDiv(c.np, c.ex), CeilDiv(c.np, c.ey);
    Copy2D(h, u, c.np, c.np, t.x * cx, t.y * cy, cx, cy);
    forall i, j | InGrid(c, i, j)
      ensures Shows(s', u, h, i, j)
    {
      assert old(Shows(s, u, h, i, j));
      ExecCopy(c, avg, t, s, i, j);
    }
    StoreIs(c, u, h, StoreOf(c, u, h), s');
  }

  /** Running a task on the arrays is its operation on the store. */
  method RunTask<V>(c: Config, avg: Average<V>, t: Task, u: array2<V>, h: array2<V>)
    requires Sensible(c) && Exists(c, t) && u != h && Square(c, u) && Square(c, h)
    modifies u, h
    ensures StoreOf(c, u, h) == Exec(TaskOp(c, avg, t), old(StoreOf(c, u, h)))
  {
    if t.Stc? {
      RunStencil(c, avg, t, u, h);
    } else {
      RunCopy(c, avg, t, u, h);
    }
  }

  lemma RunNext<V>(c: Config, avg: Average<V>, tasks: seq<Task>, order: seq<nat>, k: nat, s: map<Loc, V>)
    requires Sensible(c) && AllExist(c, tasks) && k < |order| && forall i :: 0 <= i < |order| ==> order[i] < |tasks|
    ensures Run(TaskOps(c, avg, tasks), order[..k + 1], s) ==
            Exec(TaskOp(c, avg, tasks[order[k]]), Run(TaskOps(c, avg, tasks), order[..k], s))
  {
    assert order[..k + 1] == order[..k] + [order[k]];
    RunAppend(TaskOps(c, avg, tasks), order[..k], order[k], s);
  }

  /** The tasks run in any topological order leave the iterates in `u`, border untouched. */
  method Solve<V>(c: Config, avg: Average<V>, tasks: seq<Task>, order: seq<nat>, u: array2<V>, h: array2<V>)
    requires Sensible(c) && Listing(c, tasks) && Topological(order, |tasks|, EdgesOf(tasks))
    requires u != h && Square(c, u) && Square(c, h)
    modifies u, h
    ensures Full(c, old(StoreOf(c, u, h)))
    ensures forall i, j :: InGrid(c, i, j) ==> u[i, j] == After(c, avg, old(StoreOf(c, u, h)), c.iters, i, j)
  {
    ghost var s := StoreOf(c, u, h);
    StoreKeys(c, u, h);
    for k := 0 to |order|
      invariant StoreOf(c, u, h) == Run(TaskOps(c, avg, tasks), order[..k], s)
    {
      RunNext(c, avg, tasks, order, k, s);
      RunTask(c, avg, tasks[order[k]], u, h);
    }
    assert order[..|order|] == order;
    forall i, j | InGrid(c, i, j)
      ensures u[i, j] == After(c, avg, s, c.iters, i, j)
    {
      DagIsJacobi(c, avg, tasks, order, s, i, j);
      StoreAt(c, u, h, i, j);
    }
  }
}
