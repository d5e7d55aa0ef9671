/** The serial loop of the sparse LU benchmark, over a matrix of blocks that may be null.

    The loop tests for null blocks while it fills some of them in, so which kernels run depends on the blocks that
    earlier steps have allocated. Here the matrix is an array of optional blocks, updated in place; beside it a map
    gives the value of every block, a null one read as zero, and a set gives the blocks that are not null. Each phase
    of a step is shown to run the kernels of its part of the task list on that map, and the set to grow as the fill-in
    of the step says. */
module SparseLuLoops {
  import opened Collections
  import opened DagExecution
  import opened SparseLu

  // ---------------------------------------------------------------- running one task list after another

  lemma {:induction false} RunSeqAppend<V>(kernels: Kernels<V>, ts: seq<Task>, us: seq<Task>, s: map<Pos, V>)
    ensures RunSeq(kernels, ts + us, s) == RunSeq(kernels, us, RunSeq(kernels, ts, s))
    decreases |us|
  {
    if us == [] {
      assert ts + us == ts;
    } else {
      var n := |us| - 1;
      RunSeqAppend(kernels, ts, us[..n], s);
      assert (ts + us)[..|ts + us| - 1] == ts + us[..n];
    }
  }

  lemma RunSeqOne<V>(kernels: Kernels<V>, t: Task, s: map<Pos, V>)
    requires Touched(t) <= s.Keys
    ensures RunSeq(kernels, [t], s) == s[Target(t) := Compute(kernels, t, s)]
  {
    assert RunSeq(kernels, [t][..0], s) == s;
    StepIsUpdate(kernels, t, s);
  }

  // ---------------------------------------------------------------- the serial loop

  function Read<V>(b: Option<V>, zero: V): V {
    match b
    case Some(x) => x
    case None => zero
  }

  /** The matrix holds the blocks `m`, a null block read as `zero`, and `p` says which blocks are not null. */
  ghost predicate Holds<V>(a: array2<Option<V>>, zero: V, m: map<Pos, V>, p: set<Pos>)
    reads a
  {
    && (forall i: nat, j: nat :: (i, j) in m <==> i < a.Length0 && j < a.Length1)
    && (forall i: nat, j: nat :: i < a.Length0 && j < a.Length1 ==> m[(i, j)] == Read(a[i, j], zero))
    && (forall i: nat, j: nat :: (i, j) in p <==> i < a.Length0 && j < a.Length1 && a[i, j].Some?)
  }

  lemma SamePattern(p: set<Pos>, q: set<Pos>)
    requires forall i: nat, j: nat :: (i, j) in p <==> (i, j) in q
    ensures p == q
  {
    forall x: Pos
      ensures x in p <==> x in q
    {
      assert x == (x.0, x.1);
    }
  }

  /** Overwriting one block of the matrix. */
  method Write<V>(zero: V, a: array2<Option<V>>, i: nat, j: nat, x: V, ghost m: map<Pos, V>, ghost p: set<Pos>)
    requires i < a.Length0 && j < a.Length1 && Holds(a, zero, m, p)
    modifies a
    ensures Holds(a, zero, m[(i, j) := x], p + {(i, j)})
  {
    a[i, j] := Some(x);
  }

  method FactorDiagonal<V>(kernels: Kernels<V>, zero: V, a: array2<Option<V>>, k: nat,
                           ghost m: map<Pos, V>, ghost p: set<Pos>)
    requires a.Length0 == a.Length1 && k < a.Length0 && (k, k) in p && Holds(a, zero, m, p)
    modifies a
    ensures Holds(a, zero, RunSeq(kernels, [LU0(k)], m), p)
  {
    RunSeqOne(kernels, LU0(k), m);
    assert p + {(k, k)} == p;
    Write(zero, a, k, k, kernels.lu0(a[k, k].value), m, p);
  }

  method FwdBlock<V>(kernels: Kernels<V>, zero: V, a: array2<Option<V>>, k: nat, j: nat,
                     ghost m: map<Pos, V>, ghost p: set<Pos>)
    requires a.Length0 == a.Length1 && k < j < a.Length0 && (k, k) in p && (k, j) in p && Holds(a, zero, m, p)
    modifies a
    ensures Holds(a, zero, RunSeq(kernels, [FWD(k, j)], m), p)
  {
    RunSeqOne(kernels, FWD(k, j), m);
    assert p + {(k, j)} == p;
    Write(zero, a, k, j, kernels.fwd(a[k, k].value, a[k, j].value), m, p);
  }

  method BdivBlock<V>(kernels: Kernels<V>, zero: V, a: array2<Option<V>>, i: nat, k: nat,
                      ghost m: map<Pos, V>, ghost p: set<Pos>)
    requires a.Length0 == a.Length1 && k < i < a.Length0 && (k, k) in p && (i, k) in p && Holds(a, zero, m, p)
    modifies a
    ensures Holds(a, zero, RunSeq(kernels, [BDIV(i, k)], m), p)
  {
    RunSeqOne(kernels, BDIV(i, k), m);
    assert p + {(i, k)} == p;
    Write(zero, a, i, k, kernels.bdiv(a[k, k].value, a[i, k].value), m, p);
  }

  /** A null target is first replaced by a clean block. */
  method BmodBlock<V>(kernels: Kernels<V>, zero: V, a: array2<Option<V>>, i: nat, j: nat, k: nat,
                      ghost m: map<Pos, V>, ghost p: set<Pos>)
    requires a.Length0 == a.Length1 && k < i < a.Length0 && k < j < a.Length0
    requires (i, k) in p && (k, j) in p && Holds(a, zero, m, p)
    modifies a
    ensures Holds(a, zero, RunSeq(kernels, [BMOD(i, j, k)], m), p + {(i, j)})
  {
    RunSeqOne(kernels, BMOD(i, j, k), m);
    if a[i, j].None? {
      a[i, j] := Some(zero);
    }
    Write(zero, a, i, j, kernels.bmod(a[i, k].value, a[k, j].value, a[i, j].value), m, p + {(i, j)});
    assert p + {(i, j)} + {(i, j)} == p + {(i, j)};
  }

  /** The first blocks of the phase, before number `j`, are done. */
  ghost predicate FwdsDone<V>(kernels: Kernels<V>, zero: V, a: array2<Option<V>>, k: nat, j: nat,
                             m: map<Pos, V>, p: set<Pos>)
    reads a
  {
    var holds := Holds(a, zero, RunSeq(kernels, Fwds(p, k, j), m), p);
    holds
  }

  method FwdNext<V>(kernels: Kernels<V>, zero: V, a: array2<Option<V>>, nb: nat, k: nat, j: nat,
                    ghost m: map<Pos, V>, ghost p: set<Pos>)
    returns (next: nat)
    requires a.Length0 == nb && a.Length1 == nb && k < j < nb && (k, k) in p
    requires FwdsDone(kernels, zero, a, k, j, m, p)
    modifies a
    ensures next == j + 1 && FwdsDone(kernels, zero, a, k, next, m, p)
  {
    next := j + 1;
    assert (k, j) in p <==> a[k, j].Some?;
    if a[k, j].Some? {
      FwdBlock(kernels, zero, a, k, j, RunSeq(kernels, Fwds(p, k, j), m), p);
      RunSeqAppend(kernels, Fwds(p, k, j), [FWD(k, j)], m);
    } else {
      assert Fwds(p, k, j + 1) == Fwds(p, k, j);
    }
  }

  method FwdLoop<V>(kernels: Kernels<V>, zero: V, a: array2<Option<V>>, nb: nat, k: nat,
                    ghost m: map<Pos, V>, ghost p: set<Pos>)
    requires a.Length0 == nb && a.Length1 == nb && k < nb && (k, k) in p && FwdsDone(kernels, zero, a, k, k + 1, m, p)
    modifies a
    ensures FwdsDone(kernels, zero, a, k, nb, m, p)
  {
    var j := k + 1;
    while j < nb
      invariant k < j <= nb && FwdsDone(kernels, zero, a, k, j, m, p)
    {
      j := FwdNext(kernels, zero, a, nb, k, j, m, p);
    }
  }

  lemma FwdsStart<V>(kernels: Kernels<V>, zero: V, a: array2<Option<V>>, k: nat, j: nat, m: map<Pos, V>, p: set<Pos>)
    requires j == k + 1 && Holds(a, zero, m, p)
    ensures FwdsDone(kernels, zero, a, k, j, m, p)
  {
  }

  method FwdPhase<V>(kernels: Kernels<V>, zero: V, a: array2<Option<V>>, nb: nat, k: nat,
                     ghost m: map<Pos, V>, ghost p: set<Pos>)
    requires a.Length0 == nb && a.Length1 == nb && k < nb && (k, k) in p && Holds(a, zero, m, p)
    modifies a
    ensures Holds(a, zero, RunSeq(kernels, Fwds(p, k, nb), m), p)
  {
    FwdsStart(kernels, zero, a, k, k + 1, m, p);
    FwdLoop(kernels, zero, a, nb, k, m, p);
  }

  /** The first blocks of the phase, before number `i`, are done. */
  ghost predicate BdivsDone<V>(kernels: Kernels<V>, zero: V, a: array2<Option<V>>, k: nat, i: nat,
                              m: map<Pos, V>, p: set<Pos>)
    reads a
  {
    var holds := Holds(a, zero, RunSeq(kernels, Bdivs(p, k, i), m), p);
    holds
  }

  method BdivNext<V>(kernels: Kernels<V>, zero: V, a: array2<Option<V>>, nb: nat, k: nat, i: nat,
                     ghost m: map<Pos, V>, ghost p: set<Pos>)
    returns (next: nat)
    requires a.Length0 == nb && a.Length1 == nb && k < i < nb && (k, k) in p
    requires BdivsDone(kernels, zero, a, k, i, m, p)
    modifies a
    ensures next == i + 1 && BdivsDone(kernels, zero, a, k, next, m, p)
  {
    next := i + 1;
    assert (i, k) in p <==> a[i, k].Some?;
    if a[i, k].Some? {
      BdivBlock(kernels, zero, a, i, k, RunSeq(kernels, Bdivs(p, k, i), m), p);
      RunSeqAppend(kernels, Bdivs(p, k, i), [BDIV(i, k)], m);
    } else {
      assert Bdivs(p, k, i + 1) == Bdivs(p, k, i);
    }
  }

  method BdivLoop<V>(kernels: Kernels<V>, zero: V, a: array2<Option<V>>, nb: nat, k: nat,
                     ghost m: map<Pos, V>, ghost p: set<Pos>)
    requires a.Length0 == nb && a.Length1 == nb && k < nb && (k, k) in p && BdivsDone(kernels, zero, a, k, k + 1, m, p)
    modifies a
    ensures BdivsDone(kernels, zero, a, k, nb, m, p)
  {
    var i := k + 1;
    while i < nb
      invariant k < i <= nb && BdivsDone(kernels, zero, a, k, i, m, p)
    {
      i := BdivNext(kernels, zero, a, nb, k, i, m, p);
    }
  }

  lemma BdivsStart<V>(kernels: Kernels<V>, zero: V, a: array2<Option<V>>, k: nat, i: nat, m: map<Pos, V>, p: set<Pos>)
    requires i == k + 1 && Holds(a, zero, m, p)
    ensures BdivsDone(kernels, zero, a, k, i, m, p)
  {
  }

  method BdivPhase<V>(kernels: Kernels<V>, zero: V, a: array2<Option<V>>, nb: nat, k: nat,
                      ghost m: map<Pos, V>, ghost p: set<Pos>)
    requires a.Length0 == nb && a.Length1 == nb && k < nb && (k, k) in p && Holds(a, zero, m, p)
    modifies a
    ensures Holds(a, zero, RunSeq(kernels, Bdivs(p, k, nb), m), p)
  {
    BdivsStart(kernels, zero, a, k, k + 1, m, p);
    BdivLoop(kernels, zero, a, nb, k, m, p);
  }

  /** The blocks of row `i` that step `k` fills before column `hi`. */
  ghost function RowFill(p: set<Pos>, k: nat, i: nat, hi: nat): set<Pos> {
    set j: nat | k < j < hi && (k, j) in p :: (i, j)
  }

  method BmodRowPhase<V>(kernels: Kernels<V>, zero: V, a: array2<Option<V>>, nb: nat, k: nat, i: nat,
                         ghost m: map<Pos, V>, ghost p: set<Pos>)
    requires a.Length0 == nb && a.Length1 == nb && k < i < nb && (i, k) in p && Holds(a, zero, m, p)
    modifies a
    ensures Holds(a, zero, RunSeq(kernels, BmodRow(p, k, i, nb), m), p + RowFill(p, k, i, nb))
  {
    assert p + RowFill(p, k, i, k + 1) == p;
    for j := k + 1 to nb
      invariant Holds(a, zero, RunSeq(kernels, BmodRow(p, k, i, j), m), p + RowFill(p, k, i, j))
    {
      RowFillNext(p, k, i, j);
      assert (k, j) in p + RowFill(p, k, i, j) <==> a[k, j].Some?;
      if a[k, j].Some? {
        BmodBlock(kernels, zero, a, i, j, k, RunSeq(kernels, BmodRow(p, k, i, j), m), p + RowFill(p, k, i, j));
        RunSeqAppend(kernels, BmodRow(p, k, i, j), [BMOD(i, j, k)], m);
      } else {
        assert BmodRow(p, k, i, j + 1) == BmodRow(p, k, i, j);
      }
    }
  }

  lemma RowFillNext(p: set<Pos>, k: nat, i: nat, j: nat)
    requires k < i && k < j
    ensures (k, j) in p + RowFill(p, k, i, j) <==> (k, j) in p
    ensures (k, j) in p ==> p + RowFill(p, k, i, j + 1) == p + RowFill(p, k, i, j) + {(i, j)}
    ensures (k, j) !in p ==> RowFill(p, k, i, j + 1) == RowFill(p, k, i, j)
  {
  }

  lemma {:induction false} BmodRowSame(p: set<Pos>, q: set<Pos>, k: nat, i: nat, hi: nat)
    requires forall j: nat :: (k, j) in p <==> (k, j) in q
    ensures BmodRow(p, k, i, hi) == BmodRow(q, k, i, hi)
  {
    if hi > k + 1 {
      BmodRowSame(p, q, k, i, hi - 1);
    }
  }

  /** The blocks that step `k` fills in the rows before `hi`. */
  ghost function RowsFill(p: set<Pos>, k: nat, hi: nat, nb: nat): set<Pos> {
    set i: nat, j: nat | k < i < hi && k < j < nb && (i, k) in p && (k, j) in p :: (i, j)
  }

  lemma RowsFillNext(p: set<Pos>, k: nat, i: nat, nb: nat)
    requires k < i < nb
    ensures (i, k) in p ==>
              p + RowsFill(p, k, i, nb) + RowFill(p + RowsFill(p, k, i, nb), k, i, nb) == p + RowsFill(p, k, i + 1, nb)
    ensures (i, k) !in p ==> RowsFill(p, k, i + 1, nb) == RowsFill(p, k, i, nb)
  {
    var q := p + RowsFill(p, k, i, nb);
    RowsFillKeeps(p, k, i, nb);
    if (i, k) in p {
      SamePattern(q + RowFill(q, k, i, nb), p + RowsFill(p, k, i + 1, nb));
    } else {
      SamePattern(RowsFill(p, k, i + 1, nb), RowsFill(p, k, i, nb));
    }
  }

  /** Fill-in at step `k` leaves row `k` and column `k` alone. */
  lemma RowsFillKeeps(p: set<Pos>, k: nat, hi: nat, nb: nat)
    ensures forall j: nat :: (k, j) in p + RowsFill(p, k, hi, nb) <==> (k, j) in p
    ensures forall i: nat :: (i, k) in p + RowsFill(p, k, hi, nb) <==> (i, k) in p
  {
  }

  /** What the first `i` rows of step `k` leave. */
  ghost predicate RowsDone<V>(kernels: Kernels<V>, zero: V, a: array2<Option<V>>, nb: nat, k: nat, i: nat,
                              m: map<Pos, V>, p: set<Pos>)
    reads a
  {
    var holds := Holds(a, zero, RunSeq(kernels, Bmods(p, k, i, nb), m), p + RowsFill(p, k, i, nb));
    holds
  }

  method BmodNextRow<V>(kernels: Kernels<V>, zero: V, a: array2<Option<V>>, nb: nat, k: nat, i: nat,
                        ghost m: map<Pos, V>, ghost p: set<Pos>)
    requires a.Length0 == nb && a.Length1 == nb && k < i < nb && RowsDone(kernels, zero, a, nb, k, i, m, p)
    modifies a
    ensures RowsDone(kernels, zero, a, nb, k, i + 1, m, p)
  {
    ghost var q := p + RowsFill(p, k, i, nb);
    RowsFillKeeps(p, k, i, nb);
    RowsFillNext(p, k, i, nb);
    assert (i, k) in q <==> a[i, k].Some?;
    if a[i, k].Some? {
      BmodRowPhase(kernels, zero, a, nb, k, i, RunSeq(kernels, Bmods(p, k, i, nb), m), q);
      BmodRowSame(p, q, k, i, nb);
      RunSeqAppend(kernels, Bmods(p, k, i, nb), BmodRow(p, k, i, nb), m);
    } else {
      assert Bmods(p, k, i + 1, nb) == Bmods(p, k, i, nb);
    }
  }

  lemma RowsStart<V>(kernels: Kernels<V>, zero: V, a: array2<Option<V>>, nb: nat, k: nat, i: nat,
                     m: map<Pos, V>, p: set<Pos>)
    requires i == k + 1 && Holds(a, zero, m, p)
    ensures RowsDone(kernels, zero, a, nb, k, i, m, p)
  {
    assert p + RowsFill(p, k, i, nb) == p;
  }

  lemma RowsEnd<V>(kernels: Kernels<V>, zero: V, a: array2<Option<V>>, nb: nat, k: nat, m: map<Pos, V>, p: set<Pos>)
    requires RowsDone(kernels, zero, a, nb, k, nb, m, p)
    ensures Holds(a, zero, RunSeq(kernels, Bmods(p, k, nb, nb), m), Fill(p, k, nb))
  {
    SamePattern(p + RowsFill(p, k, nb, nb), Fill(p, k, nb));
  }

  method BmodRows<V>(kernels: Kernels<V>, zero: V, a: array2<Option<V>>, nb: nat, k: nat,
                     ghost m: map<Pos, V>, ghost p: set<Pos>)
    requires a.Length0 == nb && a.Length1 == nb && k < nb && RowsDone(kernels, zero, a, nb, k, k + 1, m, p)
    modifies a
    ensures RowsDone(kernels, zero, a, nb, k, nb, m, p)
  {
    for i := k + 1 to nb
      invariant RowsDone(kernels, zero, a, nb, k, i, m, p)
    {
      BmodNextRow(kernels, zero, a, nb, k, i, m, p);
    }
  }

  method BmodPhase<V>(kernels: Kernels<V>, zero: V, a: array2<Option<V>>, nb: nat, k: nat,
                      ghost m: map<Pos, V>, ghost p: set<Pos>)
    requires a.Length0 == nb && a.Length1 == nb && k < nb && Holds(a, zero, m, p)
    modifies a
    ensures Holds(a, zero, RunSeq(kernels, Bmods(p, k, nb, nb), m), Fill(p, k, nb))
  {
    RowsStart(kernels, zero, a, nb, k, k + 1, m, p);
    BmodRows(kernels, zero, a, nb, k, m, p);
    RowsEnd(kernels, zero, a, nb, k, m, p);
  }

  lemma {:induction false} PatternGrows(p: set<Pos>, nb: nat, k: nat)
    ensures p <= Pattern(p, nb, k)
  {
    if k > 0 {
      PatternGrows(p, nb, k - 1);
    }
  }

  /** The serial loop runs exactly the tasks of the list, in its order, and ends with the pattern of the last step. */
  method Serial<V>(kernels: Kernels<V>, zero: V, a: array2<Option<V>>, nb: nat, ghost m: map<Pos, V>, ghost p: set<Pos>)
    requires a.Length0 == nb && a.Length1 == nb && Holds(a, zero, m, p)
    requires forall k: nat :: k < nb ==> (k, k) in p
    modifies a
    ensures Holds(a, zero, RunSeq(kernels, Tasks(p, nb, nb), m), Pattern(p, nb, nb))
  {
    ghost var now, q := m, p;
    for k := 0 to nb
      invariant Holds(a, zero, now, q) && now == RunSeq(kernels, Tasks(p, nb, k), m) && q == Pattern(p, nb, k)
    {
      PatternGrows(p, nb, k);
      SerialStep(kernels, zero, a, nb, k, now, q);
      now, q := SerialNext(kernels, nb, k, m, p, now, q);
    }
  }

  lemma SerialNext<V>(kernels: Kernels<V>, nb: nat, k: nat, m: map<Pos, V>, p: set<Pos>, now: map<Pos, V>, q: set<Pos>)
    returns (now': map<Pos, V>, q': set<Pos>)
    requires now == RunSeq(kernels, Tasks(p, nb, k), m) && q == Pattern(p, nb, k)
    ensures now' == RunSeq(kernels, StepTasks(q, k, nb), now) && q' == Fill(q, k, nb)
    ensures now' == RunSeq(kernels, Tasks(p, nb, k + 1), m) && q' == Pattern(p, nb, k + 1)
  {
    now', q' := RunSeq(kernels, StepTasks(q, k, nb), now), Fill(q, k, nb);
    RunSeqAppend(kernels, Tasks(p, nb, k), StepTasks(q, k, nb), m);
  }

  /** The body of the outer loop. */
  method SerialStep<V>(kernels: Kernels<V>, zero: V, a: array2<Option<V>>, nb: nat, k: nat,
                       ghost m: map<Pos, V>, ghost p: set<Pos>)
    requires a.Length0 == nb && a.Length1 == nb && k < nb && (k, k) in p && Holds(a, zero, m, p)
    modifies a
    ensures Holds(a, zero, RunSeq(kernels, StepTasks(p, k, nb), m), Fill(p, k, nb))
  {
    ghost var m1 := RunSeq(kernels, [LU0(k)], m);
    ghost var m2 := RunSeq(kernels, Fwds(p, k, nb), m1);
    ghost var m3 := RunSeq(kernels, Bdivs(p, k, nb), m2);
    FactorDiagonal(kernels, zero, a, k, m, p);
    FwdPhase(kernels, zero, a, nb, k, m1, p);
    BdivPhase(kernels, zero, a, nb, k, m2, p);
    BmodPhase(kernels, zero, a, nb, k, m3, p);
    RunSeqAppend(kernels, [LU0(k)], Fwds(p, k, nb), m);
    RunSeqAppend(kernels, [LU0(k)] + Fwds(p, k, nb), Bdivs(p, k, nb), m);
    RunSeqAppend(kernels, [LU0(k)] + Fwds(p, k, nb) + Bdivs(p, k, nb), Bmods(p, k, nb, nb), m);
  }
}
