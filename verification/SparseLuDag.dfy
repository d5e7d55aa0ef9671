/** The parallel loop of sparse LU: it runs no kernel, it creates the tasks and their edges from the table of last
    writers, and releases the tasks that wait for nothing.

    The builder keeps one entry per block, the task that has written it last. A new task gets an edge from the entries
    of the blocks it depends on, takes over the entry of its own block, and is pushed if it found no entry at all. The
    loops visit the blocks as the serial loop does, allocating null targets on the way, so the tasks come out in the
    order in which the serial loop would run their kernels. */
module SparseLuDag {
  import opened Collections
  import opened DagExecution
  import opened SparseLu
  import opened SparseLuLoops

  ghost predicate NoRepeats<T>(s: seq<T>) {
    forall i, j :: 0 <= i < j < |s| ==> s[i] != s[j]
  }

  /** No edge leads to the task: it can start at once. */
  ghost predicate Source(edges: set<(nat, nat)>, t: nat) {
    forall a: nat :: (a, t) !in edges
  }

  /** `made`, the calls of make_edge in their order, are exactly the edges of the task list, each made once. */
  ghost predicate EdgesMade(made: seq<(nat, nat)>, edges: set<(nat, nat)>) {
    NoRepeats(made) && forall e :: e in made <==> e in edges
  }

  /** `pushed` are exactly the sources, each pushed once. */
  ghost predicate SourcesPushed(pushed: seq<nat>, n: nat, edges: set<(nat, nat)>) {
    NoRepeats(pushed) && forall t: nat :: t in pushed <==> t < n && Source(edges, t)
  }

  lemma LastWriterAppend(tasks: seq<Task>, t: Task, x: Pos)
    ensures LastWriter(tasks + [t], x) == if Target(t) == x then |tasks| else LastWriter(tasks, x)
  {
    assert (tasks + [t])[..|tasks|] == tasks;
  }

  lemma EdgesAppend(tasks: seq<Task>, t: Task)
    ensures EdgesOf(tasks + [t]) == EdgesOf(tasks) + NewEdges(tasks, t)
  {
    assert (tasks + [t])[..|tasks|] == tasks;
  }

  /** The edges that the lookups `xs` of a new task add, one after the other. */
  function EdgesFor(tasks: seq<Task>, xs: seq<Pos>): seq<(nat, nat)> {
    if xs == [] then []
    else
      EdgesFor(tasks, xs[..|xs| - 1]) +
      (if LastWriter(tasks, xs[|xs| - 1]) >= 0 then [(LastWriter(tasks, xs[|xs| - 1]) as nat, |tasks|)] else [])
  }

  lemma {:induction false} EdgesForAre(tasks: seq<Task>, xs: seq<Pos>)
    ensures forall e: (nat, nat) :: e in EdgesFor(tasks, xs) <==>
              e.1 == |tasks| && exists x :: x in xs && LastWriter(tasks, x) == e.0
  {
    if xs != [] {
      var n := |xs| - 1;
      EdgesForAre(tasks, xs[..n]);
      assert forall x :: x in xs <==> x in xs[..n] || x == xs[n];
    }
  }

  /** Two different blocks never have the same last writer. */
  lemma {:induction false} EdgesForDistinct(tasks: seq<Task>, xs: seq<Pos>)
    requires NoRepeats(xs)
    ensures NoRepeats(EdgesFor(tasks, xs))
  {
    if xs != [] {
      var n := |xs| - 1;
      EdgesForDistinct(tasks, xs[..n]);
      EdgesForAre(tasks, xs[..n]);
      var w := LastWriter(tasks, xs[n]);
      assert forall x :: x in xs[..n] ==> x != xs[n];
      forall x | x in xs
        ensures LastWriter(tasks, x) >= 0 ==> Target(tasks[LastWriter(tasks, x)]) == x
      {
        LastWriterIsLast(tasks, x);
      }
      assert w >= 0 ==> (w, |tasks|) !in EdgesFor(tasks, xs[..n]);
    }
  }

  lemma LookupsDistinct(t: Task)
    requires WellPlaced(t)
    ensures NoRepeats(Lookups(t))
  {
  }

  lemma EdgesMadeAppend(made: seq<(nat, nat)>, tasks: seq<Task>, t: Task)
    requires WellPlaced(t) && EdgesMade(made, EdgesOf(tasks))
    ensures EdgesMade(made + EdgesFor(tasks, Lookups(t)), EdgesOf(tasks + [t]))
  {
    var new_ := EdgesFor(tasks, Lookups(t));
    TouchedIsLookups(t);
    EdgesForAre(tasks, Lookups(t));
    LookupsDistinct(t);
    EdgesForDistinct(tasks, Lookups(t));
    EdgesInRange(tasks);
    EdgesAppend(tasks, t);
    forall e: (nat, nat)
      ensures e in new_ <==> e in NewEdges(tasks, t)
    {
      if e in new_ {
        var x :| x in Lookups(t) && LastWriter(tasks, x) == e.0;
        assert x in Touched(t);
        assert e == (LastWriter(tasks, x), |tasks|);
      }
    }
    NoRepeatsAppend(made, new_);
  }

  lemma NoRepeatsAppend<T>(s: seq<T>, t: seq<T>)
    requires NoRepeats(s) && NoRepeats(t) && forall x :: x in s ==> x !in t
    ensures NoRepeats(s + t)
  {
    forall i, j | 0 <= i < j < |s + t|
      ensures (s + t)[i] != (s + t)[j]
    {
      if i < |s| <= j {
        assert s[i] in s && t[j - |s|] in t;
      }
    }
  }

  /** A new task adds no edge to an older one, and is itself a source exactly if none of its lookups finds a writer. */
  lemma SourcesAppend(tasks: seq<Task>, t: Task)
    ensures forall u: nat :: u < |tasks| ==> Source(EdgesOf(tasks + [t]), u) == Source(EdgesOf(tasks), u)
    ensures Source(EdgesOf(tasks + [t]), |tasks|) <==> forall x :: x in Lookups(t) ==> LastWriter(tasks, x) < 0
  {
    TouchedIsLookups(t);
    EdgesAppend(tasks, t);
    EdgesInRange(tasks);
    var e' := EdgesOf(tasks + [t]);
    forall x | x in Lookups(t) && LastWriter(tasks, x) >= 0
      ensures !Source(e', |tasks|)
    {
      assert x in Touched(t);
      assert (LastWriter(tasks, x), |tasks|) in e';
    }
    forall u: nat, a: nat | (a, u) in NewEdges(tasks, t)
      ensures u == |tasks| && exists x :: x in Lookups(t) && LastWriter(tasks, x) >= 0
    {
      var x :| x in Touched(t) && LastWriter(tasks, x) >= 0 && (a, u) == (LastWriter(tasks, x), |tasks|);
      assert x in Lookups(t);
    }
  }

  lemma PushedAppend(pushed: seq<nat>, tasks: seq<Task>, t: Task, pushIt: bool)
    requires SourcesPushed(pushed, |tasks|, EdgesOf(tasks))
    requires pushIt <==> forall x :: x in Lookups(t) ==> LastWriter(tasks, x) < 0
    ensures SourcesPushed(if pushIt then pushed + [|tasks|] else pushed, |tasks + [t]|, EdgesOf(tasks + [t]))
  {
    SourcesAppend(tasks, t);
    assert |tasks| !in pushed;
    if pushIt {
      NoRepeatsAppend(pushed, [|tasks|]);
    }
  }

  /** `table` holds the last writer of every block. */
  ghost predicate Latest(table: array2<int>, nb: nat, tasks: seq<Task>)
    reads table
  {
    && table.Length0 == nb && table.Length1 == nb
    && forall i: nat, j: nat :: i < nb && j < nb ==> table[i, j] == LastWriter(tasks, (i, j))
  }

  method RecordWriter(table: array2<int>, nb: nat, tasks: seq<Task>, t: Task)
    requires Latest(table, nb, tasks) && Target(t).0 < nb && Target(t).1 < nb
    modifies table
    ensures Latest(table, nb, tasks + [t])
  {
    table[Target(t).0, Target(t).1] := |tasks|;
    forall i: nat, j: nat | i < nb && j < nb
      ensures table[i, j] == LastWriter(tasks + [t], (i, j))
    {
      LastWriterAppend(tasks, t, (i, j));
    }
  }

  class DagBuilder {
    const nb: nat
    /** Which blocks exist; fill-in adds some while the graph is built. */
    const block: array2<bool>
    /** The last task that writes each block so far, -1 if there is none. */
    const writer: array2<int>
    var tasks: seq<Task>
    var edges: seq<(nat, nat)>
    var pushed: seq<nat>

    ghost predicate Valid()
      reads this, writer
    {
      var holds :=
        && block.Length0 == nb && block.Length1 == nb && Latest(writer, nb, tasks)
        && EdgesMade(edges, EdgesOf(tasks))
        && SourcesPushed(pushed, |tasks|, EdgesOf(tasks));
      holds
    }

    /** `p` says which blocks exist. */
    ghost predicate Exist(p: set<Pos>)
      reads block
    {
      forall i: nat, j: nat :: (i, j) in p <==> i < block.Length0 && j < block.Length1 && block[i, j]
    }

    /** The new task is a source exactly if it is pushed, and its edges are those its lookups call for. */
    ghost predicate Ready(t: Task, pushIt: bool, was: seq<(nat, nat)>)
      reads this
    {
      && edges == was + EdgesFor(tasks, Lookups(t))
      && EdgesMade(was, EdgesOf(tasks))
      && (pushIt <==> forall x :: x in Lookups(t) ==> LastWriter(tasks, x) < 0)
      && SourcesPushed(pushed, |tasks|, EdgesOf(tasks))
    }

    constructor (nb: nat, block: array2<bool>)
      requires block.Length0 == nb && block.Length1 == nb
      ensures Valid() && fresh(writer) && this.nb == nb && this.block == block && tasks == []
    {
      this.nb := nb;
      this.block := block;
      writer := new int[nb, nb]((i, j) => -1);
      tasks, edges, pushed := [], [], [];
    }

    /** Edge to the task under construction from the last writer of block `x`, if there is one. */
    method Depend(x: Pos)
      requires x.0 < nb && x.1 < nb && Latest(writer, nb, tasks)
      modifies this`edges
      ensures edges == old(edges) +
                       if LastWriter(tasks, x) >= 0 then [(LastWriter(tasks, x) as nat, |tasks|)] else []
    {
      if writer[x.0, x.1] >= 0 {
        edges := edges + [(writer[x.0, x.1], |tasks|)];
      }
    }

    /** The task is complete: it is the last writer of its block from here on. */
    method Enter(t: Task, pushIt: bool, ghost was: seq<(nat, nat)>)
      requires block.Length0 == nb && block.Length1 == nb && Latest(writer, nb, tasks)
      requires WellPlaced(t) && Target(t).0 < nb && Target(t).1 < nb
      requires Ready(t, pushIt, was)
      modifies this`tasks, this`pushed, writer
      ensures Valid() && tasks == old(tasks) + [t]
    {
      EdgesMadeAppend(was, tasks, t);
      PushedAppend(pushed, tasks, t, pushIt);
      RecordWriter(writer, nb, tasks, t);
      if pushIt {
        pushed := pushed + [|tasks|];
      }
      tasks := tasks + [t];
    }

    method AddLu0(k: nat)
      requires Valid() && k < nb
      modifies this`tasks, this`edges, this`pushed, writer
      ensures Valid() && tasks == old(tasks) + [LU0(k)]
      ensures LastWriter(tasks, (k, k)) >= 0
    {
      ghost var was := edges;
      Depend((k, k));
      EdgesForAppend(tasks, [], (k, k));
      Enter(LU0(k), writer[k, k] < 0, was);
      LastWriterAppend(old(tasks), LU0(k), (k, k));
    }

    /** Edges from the last writers of two blocks. */
    method DependBoth(x: Pos, y: Pos)
      requires x.0 < nb && x.1 < nb && y.0 < nb && y.1 < nb && Latest(writer, nb, tasks)
      modifies this`edges
      ensures edges == old(edges) + EdgesFor(tasks, [x, y])
    {
      Depend(x);
      Depend(y);
      EdgesForAppend(tasks, [], x);
      EdgesForAppend(tasks, [x], y);
      assert [x, y] == [x] + [y];
    }

    method AddFwd(k: nat, j: nat)
      requires Valid() && k < j < nb && LastWriter(tasks, (k, k)) >= 0
      modifies this`tasks, this`edges, this`pushed, writer
      ensures Valid() && tasks == old(tasks) + [FWD(k, j)]
    {
      ghost var was := edges;
      DependBoth((k, k), (k, j));
      Enter(FWD(k, j), false, was);
    }

    method AddBdiv(i: nat, k: nat)
      requires Valid() && k < i < nb && LastWriter(tasks, (k, k)) >= 0
      modifies this`tasks, this`edges, this`pushed, writer
      ensures Valid() && tasks == old(tasks) + [BDIV(i, k)]
    {
      ghost var was := edges;
      DependBoth((k, k), (i, k));
      Enter(BDIV(i, k), false, was);
    }

    /** A null target block is allocated before its task is created. */
    method Allocate(i: nat, j: nat, ghost p: set<Pos>)
      requires Exist(p) && i < block.Length0 && j < block.Length1
      modifies block
      ensures Exist(p + {(i, j)})
    {
      if !block[i, j] {
        block[i, j] := true;
      }
    }

    method AddBmod(i: nat, j: nat, k: nat)
      requires Valid() && k < i < nb && k < j < nb && LastWriter(tasks, (i, k)) >= 0
      modifies this`tasks, this`edges, this`pushed, writer
      ensures Valid() && tasks == old(tasks) + [BMOD(i, j, k)]
    {
      ghost var was := edges;
      DependBoth((i, k), (k, j));
      Depend((i, j));
      EdgesForAppend(tasks, [(i, k), (k, j)], (i, j));
      assert Lookups(BMOD(i, j, k)) == [(i, k), (k, j)] + [(i, j)];
      Enter(BMOD(i, j, k), false, was);
    }

    /** The state of the builder: which blocks exist and which tasks have been created. */
    ghost predicate At(p: set<Pos>, ts: seq<Task>)
      reads this, writer, block
    {
      var holds := Valid() && Exist(p) && tasks == ts;
      holds
    }

    method FwdCell(k: nat, j: nat, ghost ts: seq<Task>, ghost p: set<Pos>)
      requires At(p, ts + Fwds(p, k, j)) && k < j < nb && LastWriter(ts, (k, k)) >= 0
      modifies this`tasks, this`edges, this`pushed, writer
      ensures At(p, ts + Fwds(p, k, j + 1))
    {
      assert (k, j) in p <==> block[k, j];
      if block[k, j] {
        WrittenStays(ts, Fwds(p, k, j), (k, k));
        AddFwd(k, j);
      }
    }

    method FwdPhase(k: nat, ghost ts: seq<Task>, ghost p: set<Pos>)
      requires At(p, ts) && k < nb && LastWriter(ts, (k, k)) >= 0
      modifies this`tasks, this`edges, this`pushed, writer
      ensures At(p, ts + Fwds(p, k, nb))
    {
      assert ts + Fwds(p, k, k + 1) == ts;
      for j := k + 1 to nb
        invariant At(p, ts + Fwds(p, k, j))
      {
        FwdCell(k, j, ts, p);
      }
    }

    method BdivCell(k: nat, i: nat, ghost ts: seq<Task>, ghost p: set<Pos>)
      requires At(p, ts + Bdivs(p, k, i)) && k < i < nb && LastWriter(ts, (k, k)) >= 0
      modifies this`tasks, this`edges, this`pushed, writer
      ensures At(p, ts + Bdivs(p, k, i + 1))
    {
      assert (i, k) in p <==> block[i, k];
      if block[i, k] {
        WrittenStays(ts, Bdivs(p, k, i), (k, k));
        AddBdiv(i, k);
      }
    }

    method BdivPhase(k: nat, ghost ts: seq<Task>, ghost p: set<Pos>)
      requires At(p, ts) && k < nb && LastWriter(ts, (k, k)) >= 0
      modifies this`tasks, this`edges, this`pushed, writer
      ensures At(p, ts + Bdivs(p, k, nb))
    {
      assert ts + Bdivs(p, k, k + 1) == ts;
      for i := k + 1 to nb
        invariant At(p, ts + Bdivs(p, k, i))
      {
        BdivCell(k, i, ts, p);
      }
    }

    method BmodCell(k: nat, i: nat, j: nat, ghost ts: seq<Task>, ghost p: set<Pos>)
      requires At(p, ts) && k < i < nb && k < j < nb && LastWriter(ts, (i, k)) >= 0
      modifies this`tasks, this`edges, this`pushed, writer, block
      ensures At(if (k, j) in p then p + {(i, j)} else p, if (k, j) in p then ts + [BMOD(i, j, k)] else ts)
    {
      assert (k, j) in p <==> block[k, j];
      if block[k, j] {
        Allocate(i, j, p);
        AddBmod(i, j, k);
      }
    }

    method BmodNext(k: nat, i: nat, j: nat, ghost ts: seq<Task>, ghost p: set<Pos>, ghost t: seq<Task>,
                    ghost q: set<Pos>)
      returns (ghost t': seq<Task>, ghost q': set<Pos>, next: nat)
      requires At(q, t) && k < i < nb && k < j < nb && LastWriter(ts, (i, k)) >= 0
      requires q == p + RowFill(p, k, i, j) && t == ts + BmodRow(p, k, i, j)
      modifies this`tasks, this`edges, this`pushed, writer, block
      ensures next == j + 1 && At(q', t') && q' == p + RowFill(p, k, i, next) && t' == ts + BmodRow(p, k, i, next)
    {
      WrittenStays(ts, BmodRow(p, k, i, j), (i, k));
      BmodCellDone(p, k, i, j, ts);
      BmodCell(k, i, j, t, q);
      next := j + 1;
      t', q' := tasks, p + RowFill(p, k, i, next);
    }

    method BmodRowPhase(k: nat, i: nat, ghost ts: seq<Task>, ghost p: set<Pos>)
      requires At(p, ts) && k < i < nb && LastWriter(ts, (i, k)) >= 0
      modifies this`tasks, this`edges, this`pushed, writer, block
      ensures At(p + RowFill(p, k, i, nb), ts + BmodRow(p, k, i, nb))
    {
      BmodRowStart(p, k, i, k + 1, ts);
      ghost var t, q := ts, p;
      var j := k + 1;
      while j < nb
        invariant j <= nb && At(q, t) && q == p + RowFill(p, k, i, j) && t == ts + BmodRow(p, k, i, j)
      {
        t, q, j := BmodNext(k, i, j, ts, p, t, q);
      }
    }

    method BmodLine(k: nat, i: nat, ghost ts: seq<Task>, ghost p: set<Pos>)
      requires At(p, ts) && k < i < nb && ((i, k) in p ==> LastWriter(ts, (i, k)) >= 0)
      modifies this`tasks, this`edges, this`pushed, writer, block
      ensures At(if (i, k) in p then p + RowFill(p, k, i, nb) else p,
                 if (i, k) in p then ts + BmodRow(p, k, i, nb) else ts)
    {
      assert (i, k) in p <==> block[i, k];
      if block[i, k] {
        BmodRowPhase(k, i, ts, p);
      }
    }

    method BmodLineNext(k: nat, i: nat, ghost ts: seq<Task>, ghost p: set<Pos>)
      requires At(p + RowsFill(p, k, i, nb), ts + Bmods(p, k, i, nb)) && k < i < nb
      requires (i, k) in p ==> LastWriter(ts, (i, k)) >= 0
      modifies this`tasks, this`edges, this`pushed, writer, block
      ensures At(p + RowsFill(p, k, i + 1, nb), ts + Bmods(p, k, i + 1, nb))
    {
      BmodLineReady(p, k, i, nb, ts);
      BmodLineDone(p, k, i, nb, ts);
      BmodLine(k, i, ts + Bmods(p, k, i, nb), p + RowsFill(p, k, i, nb));
    }

    method BmodPhase(k: nat, ghost ts: seq<Task>, ghost p: set<Pos>)
      requires At(p, ts) && k < nb
      requires forall i: nat :: k < i < nb && (i, k) in p ==> LastWriter(ts, (i, k)) >= 0
      modifies this`tasks, this`edges, this`pushed, writer, block
      ensures At(Fill(p, k, nb), ts + Bmods(p, k, nb, nb))
    {
      FillIsRows(p, k, nb);
      assert ts + Bmods(p, k, k + 1, nb) == ts;
      for i := k + 1 to nb
        invariant At(p + RowsFill(p, k, i, nb), ts + Bmods(p, k, i, nb))
      {
        BmodLineNext(k, i, ts, p);
      }
    }

    /** The body of the outer loop. */
    method BuildStep(k: nat, ghost ts: seq<Task>, ghost p: set<Pos>)
      requires At(p, ts) && k < nb
      modifies this`tasks, this`edges, this`pushed, writer, block
      ensures At(Fill(p, k, nb), ts + StepTasks(p, k, nb))
    {
      ghost var t1 := ts + [LU0(k)];
      ghost var t2 := t1 + Fwds(p, k, nb);
      ghost var t3 := t2 + Bdivs(p, k, nb);
      AddLu0(k);
      FwdPhase(k, t1, p);
      WrittenStays(t1, Fwds(p, k, nb), (k, k));
      BdivPhase(k, t2, p);
      BdivsWrite(t2, p, k, nb);
      BmodPhase(k, t3, p);
      StepTasksAre(ts, p, k, nb);
    }

    /** The whole parallel loop: its tasks are those of the serial loop in the same order, its calls of make_edge
        are the edges of the last-writer table, and exactly the tasks without predecessor are pushed. */
    method Build(ghost p: set<Pos>)
      requires Valid() && Exist(p) && tasks == []
      requires forall k: nat :: k < nb ==> (k, k) in p
      modifies this`tasks, this`edges, this`pushed, writer, block
      ensures tasks == Tasks(p, nb, nb)
      ensures EdgesMade(edges, EdgesOf(Tasks(p, nb, nb)))
      ensures SourcesPushed(pushed, |Tasks(p, nb, nb)|, EdgesOf(Tasks(p, nb, nb)))
      ensures Exist(Pattern(p, nb, nb))
    {
      for k := 0 to nb
        invariant At(Pattern(p, nb, k), Tasks(p, nb, k))
      {
        BuildStep(k, Tasks(p, nb, k), Pattern(p, nb, k));
      }
    }
  }

  lemma EdgesForAppend(tasks: seq<Task>, xs: seq<Pos>, x: Pos)
    ensures EdgesFor(tasks, xs + [x]) ==
            EdgesFor(tasks, xs) + if LastWriter(tasks, x) >= 0 then [(LastWriter(tasks, x) as nat, |tasks|)] else []
  {
    assert (xs + [x])[..|xs|] == xs;
  }

  lemma BmodRowStart(p: set<Pos>, k: nat, i: nat, first: nat, ts: seq<Task>)
    requires first == k + 1
    ensures p + RowFill(p, k, i, first) == p && ts + BmodRow(p, k, i, first) == ts
  {
  }

  lemma BmodLineReady(p: set<Pos>, k: nat, i: nat, nb: nat, ts: seq<Task>)
    requires k < i < nb && ((i, k) in p ==> LastWriter(ts, (i, k)) >= 0)
    ensures (i, k) in p + RowsFill(p, k, i, nb) ==> LastWriter(ts + Bmods(p, k, i, nb), (i, k)) >= 0
  {
    RowsFillKeeps(p, k, i, nb);
    if (i, k) in p {
      WrittenStays(ts, Bmods(p, k, i, nb), (i, k));
    }
  }

  lemma FillIsRows(p: set<Pos>, k: nat, nb: nat)
    ensures p + RowsFill(p, k, k + 1, nb) == p
    ensures p + RowsFill(p, k, nb, nb) == Fill(p, k, nb)
  {
    SamePattern(p + RowsFill(p, k, nb, nb), Fill(p, k, nb));
  }

  lemma BmodCellDone(p: set<Pos>, k: nat, i: nat, j: nat, ts: seq<Task>)
    requires k < i && k < j
    ensures var q := p + RowFill(p, k, i, j);
            && p + RowFill(p, k, i, j + 1) == (if (k, j) in q then q + {(i, j)} else q)
            && ts + BmodRow(p, k, i, j + 1) ==
                 (if (k, j) in q then ts + BmodRow(p, k, i, j) + [BMOD(i, j, k)] else ts + BmodRow(p, k, i, j))
  {
    RowFillNext(p, k, i, j);
  }

  lemma BmodLineDone(p: set<Pos>, k: nat, i: nat, nb: nat, ts: seq<Task>)
    requires k < i < nb
    ensures var q := p + RowsFill(p, k, i, nb);
            && p + RowsFill(p, k, i + 1, nb) == (if (i, k) in q then q + RowFill(q, k, i, nb) else q)
            && ts + Bmods(p, k, i + 1, nb) ==
                 (if (i, k) in q then ts + Bmods(p, k, i, nb) + BmodRow(q, k, i, nb) else ts + Bmods(p, k, i, nb))
  {
    var q := p + RowsFill(p, k, i, nb);
    RowsFillKeeps(p, k, i, nb);
    RowsFillNext(p, k, i, nb);
    BmodRowSame(p, q, k, i, nb);
  }

  lemma StepTasksAre(ts: seq<Task>, p: set<Pos>, k: nat, nb: nat)
    ensures ts + StepTasks(p, k, nb) == ts + [LU0(k)] + Fwds(p, k, nb) + Bdivs(p, k, nb) + Bmods(p, k, nb, nb)
  {
  }

  lemma {:induction false} BdivsWrite(ts: seq<Task>, p: set<Pos>, k: nat, hi: nat)
    ensures forall i: nat :: k < i < hi && (i, k) in p ==> LastWriter(ts + Bdivs(p, k, hi), (i, k)) >= 0
  {
    if hi > k + 1 {
      BdivsWrite(ts, p, k, hi - 1);
      if (hi - 1, k) in p {
        var us := ts + Bdivs(p, k, hi - 1);
        assert ts + Bdivs(p, k, hi) == us + [BDIV(hi - 1, k)];
        forall i: nat | k < i < hi && (i, k) in p
          ensures LastWriter(us + [BDIV(hi - 1, k)], (i, k)) >= 0
        {
          LastWriterAppend(us, BDIV(hi - 1, k), (i, k));
        }
      } else {
        assert Bdivs(p, k, hi) == Bdivs(p, k, hi - 1);
      }
    }
  }

  lemma {:induction false} WrittenStays(tasks: seq<Task>, more: seq<Task>, x: Pos)
    requires LastWriter(tasks, x) >= 0
    ensures LastWriter(tasks + more, x) >= 0
  {
    LastWriterIsLast(tasks, x);
    LastWriterIsLast(tasks + more, x);
    var w := LastWriter(tasks, x);
    assert (tasks + more)[w] == tasks[w];
  }
}
