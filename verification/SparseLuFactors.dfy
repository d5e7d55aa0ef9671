/** Blocked sparse LU is a factorization: the blocks left behind multiply back to the matrix. */
module SparseLuFactors {
  // Over exact reals, with nonzero pivots and null blocks read as zero; for the loop and for any order of its graph.

  import opened Collections
  import opened DagExecution
  import opened SparseLu
  import opened SparseLuLoops
  import opened BlockKernels

  /** The four kernels of block size `n`. */
  ghost function RealKernels(n: nat): Kernels<Mat> {
    Kernels((a: Mat) => Lu0(n, a), (d: Mat, a: Mat) => Fwd(n, d, a), (d: Mat, a: Mat) => Bdiv(n, d, a),
            (r: Mat, c: Mat, a: Mat) => Bmod(n, r, c, a))
  }

  /** A block of size `n` at every position. */
  ghost predicate Full(s: map<Pos, Mat>, nb: nat, n: nat) {
    forall i: nat, j: nat :: i < nb && j < nb ==> (i, j) in s && Square(s[(i, j)], n)
  }

  ghost predicate NullIsZero(s: map<Pos, Mat>, p: set<Pos>, nb: nat, n: nat)
    requires Full(s, nb, n)
  {
    forall i: nat, j: nat :: i < nb && j < nb && (i, j) !in p ==> s[(i, j)] == Zero(n)
  }

  // ---------------------------------------------------------------- a zero block stays zero, and is no use as a factor

  lemma {:induction false} FwdEntryZero(n: nat, d: Mat, k: nat, i: nat, j: nat)
    ensures FwdEntry(d, Zero(n), k, i, j) == 0.0
  {
    if k > 0 {
      FwdEntryZero(n, d, k - 1, i, j);
      if i >= k {
        FwdEntryZero(n, d, k - 1, k - 1, j);
      }
    }
  }

  lemma FwdZero(n: nat, d: Mat)
    ensures Fwd(n, d, Zero(n)) == Zero(n)
  {
    forall i: nat, j: nat | i < n && j < n
      ensures At(Fwd(n, d, Zero(n)), i, j) == At(Zero(n), i, j)
    {
      FwdEntryZero(n, d, n, i, j);
    }
    SameEntries(Fwd(n, d, Zero(n)), Zero(n), n);
  }

  lemma {:induction false} BdivEntryZero(n: nat, d: Mat, k: nat, i: nat, j: nat)
    ensures BdivEntry(d, Zero(n), k, i, j) == 0.0
    decreases k, j
  {
    if k > 0 {
      BdivEntryZero(n, d, k - 1, i, j);
      if j >= k {
        BdivEntryZero(n, d, k, i, k - 1);
      }
    }
  }

  lemma BdivZero(n: nat, d: Mat)
    ensures Bdiv(n, d, Zero(n)) == Zero(n)
  {
    forall i: nat, j: nat | i < n && j < n
      ensures At(Bdiv(n, d, Zero(n)), i, j) == At(Zero(n), i, j)
    {
      BdivEntryZero(n, d, n, i, j);
    }
    SameEntries(Bdiv(n, d, Zero(n)), Zero(n), n);
  }

  lemma {:induction false} BmodEntryZero(n: nat, r: Mat, c: Mat, a: Mat, k: nat, i: nat, j: nat)
    requires r == Zero(n) || c == Zero(n)
    ensures BmodEntry(r, c, a, k, i, j) == At(a, i, j)
  {
    if k > 0 {
      BmodEntryZero(n, r, c, a, k - 1, i, j);
      ZeroFactor(At(r, i, k - 1), At(c, k - 1, j));
    }
  }

  lemma BmodZero(n: nat, r: Mat, c: Mat, a: Mat)
    requires (r == Zero(n) || c == Zero(n)) && Square(a, n)
    ensures Bmod(n, r, c, a) == a
  {
    forall i: nat, j: nat | i < n && j < n
      ensures At(Bmod(n, r, c, a), i, j) == At(a, i, j)
    {
      BmodEntryZero(n, r, c, a, n, i, j);
    }
    SameEntries(Bmod(n, r, c, a), a, n);
  }

  // ---------------------------------------------------------------- the phases, block by block

  /** What a phase leaves at (i, j), had there been no null blocks: the forward substitutions of row `k` before
      column `hi`, the divisions of column `k` before row `hi`, the products of row `r` before column `hi`. */
  function AfterFwd(n: nat, s: map<Pos, Mat>, nb: nat, k: nat, hi: nat, i: nat, j: nat): Mat
    requires Full(s, nb, n) && k < nb && i < nb && j < nb
  {
    if i == k && k < j < hi then Fwd(n, s[(k, k)], s[(k, j)]) else s[(i, j)]
  }

  function AfterBdiv(n: nat, s: map<Pos, Mat>, nb: nat, k: nat, hi: nat, i: nat, j: nat): Mat
    requires Full(s, nb, n) && k < nb && i < nb && j < nb
  {
    if j == k && k < i < hi then Bdiv(n, s[(k, k)], s[(i, k)]) else s[(i, j)]
  }

  function AfterRow(n: nat, s: map<Pos, Mat>, nb: nat, k: nat, r: nat, hi: nat, i: nat, j: nat): Mat
    requires Full(s, nb, n) && k < nb && r < nb && i < nb && j < nb
  {
    if i == r && k < j < hi then Bmod(n, s[(r, k)], s[(k, j)], s[(r, j)]) else s[(i, j)]
  }

  function AfterBmod(n: nat, s: map<Pos, Mat>, nb: nat, k: nat, hi: nat, i: nat, j: nat): Mat
    requires Full(s, nb, n) && k < nb && i < nb && j < nb
  {
    if k < i < hi && k < j then Bmod(n, s[(i, k)], s[(k, j)], s[(i, j)]) else s[(i, j)]
  }

  ghost predicate FwdAt(n: nat, s: map<Pos, Mat>, nb: nat, k: nat, hi: nat, s': map<Pos, Mat>, i: nat, j: nat)
    requires Full(s, nb, n) && k < nb && i < nb && j < nb
  {
    (i, j) in s' && s'[(i, j)] == AfterFwd(n, s, nb, k, hi, i, j)
  }

  ghost predicate FwdDone(n: nat, s: map<Pos, Mat>, nb: nat, k: nat, hi: nat, s': map<Pos, Mat>)
    requires Full(s, nb, n) && k < nb
  {
    && Full(s', nb, n)
    && forall i: nat, j: nat :: i < nb && j < nb ==> FwdAt(n, s, nb, k, hi, s', i, j)
  }

  ghost predicate BdivAt(n: nat, s: map<Pos, Mat>, nb: nat, k: nat, hi: nat, s': map<Pos, Mat>, i: nat, j: nat)
    requires Full(s, nb, n) && k < nb && i < nb && j < nb
  {
    (i, j) in s' && s'[(i, j)] == AfterBdiv(n, s, nb, k, hi, i, j)
  }

  ghost predicate BdivDone(n: nat, s: map<Pos, Mat>, nb: nat, k: nat, hi: nat, s': map<Pos, Mat>)
    requires Full(s, nb, n) && k < nb
  {
    && Full(s', nb, n)
    && forall i: nat, j: nat :: i < nb && j < nb ==> BdivAt(n, s, nb, k, hi, s', i, j)
  }

  ghost predicate RowAt(n: nat, s: map<Pos, Mat>, nb: nat, k: nat, r: nat, hi: nat, s': map<Pos, Mat>, i: nat, j: nat)
    requires Full(s, nb, n) && k < nb && i < nb && j < nb && r < nb
  {
    (i, j) in s' && s'[(i, j)] == AfterRow(n, s, nb, k, r, hi, i, j)
  }

  ghost predicate RowDone(n: nat, s: map<Pos, Mat>, nb: nat, k: nat, r: nat, hi: nat, s': map<Pos, Mat>)
    requires Full(s, nb, n) && k < nb && r < nb
  {
    && Full(s', nb, n)
    && forall i: nat, j: nat :: i < nb && j < nb ==> RowAt(n, s, nb, k, r, hi, s', i, j)
  }

  ghost predicate BmodAt(n: nat, s: map<Pos, Mat>, nb: nat, k: nat, hi: nat, s': map<Pos, Mat>, i: nat, j: nat)
    requires Full(s, nb, n) && k < nb && i < nb && j < nb
  {
    (i, j) in s' && s'[(i, j)] == AfterBmod(n, s, nb, k, hi, i, j)
  }

  ghost predicate BmodDone(n: nat, s: map<Pos, Mat>, nb: nat, k: nat, hi: nat, s': map<Pos, Mat>)
    requires Full(s, nb, n) && k < nb
  {
    && Full(s', nb, n)
    && forall i: nat, j: nat :: i < nb && j < nb ==> BmodAt(n, s, nb, k, hi, s', i, j)
  }

  lemma StepIs(n: nat, t: Task, s: map<Pos, Mat>, nb: nat)
    requires Full(s, nb, n)
    requires forall x :: x in Lookups(t) ==> x.0 < nb && x.1 < nb
    ensures Touched(t) <= s.Keys
    ensures RunSeq(RealKernels(n), [t], s) == s[Target(t) := Compute(RealKernels(n), t, s)]
  {
    forall x | x in Touched(t)
      ensures x in s
    {
      TouchedIsLookups(t);
      assert (x.0, x.1) in s;
    }
    RunSeqOne(RealKernels(n), t, s);
  }

  lemma FwdOne(n: nat, nb: nat, k: nat, j: nat, s: map<Pos, Mat>, m: map<Pos, Mat>)
    requires Full(s, nb, n) && k < j < nb && FwdDone(n, s, nb, k, j, m)
    ensures FwdDone(n, s, nb, k, j + 1, RunSeq(RealKernels(n), [FWD(k, j)], m))
  {
    StepIs(n, FWD(k, j), m, nb);
    var m' := RunSeq(RealKernels(n), [FWD(k, j)], m);
    var next := j + 1;
    forall u: nat, v: nat | u < nb && v < nb
      ensures FwdAt(n, s, nb, k, next, m', u, v)
    {
      assert FwdAt(n, s, nb, k, j, m, u, v);
      assert FwdAt(n, s, nb, k, j, m, k, k) && FwdAt(n, s, nb, k, j, m, k, j);
    }
  }

  lemma FwdSkips(n: nat, nb: nat, k: nat, j: nat, s: map<Pos, Mat>, m: map<Pos, Mat>)
    requires Full(s, nb, n) && k < j < nb && FwdDone(n, s, nb, k, j, m) && s[(k, j)] == Zero(n)
    ensures FwdDone(n, s, nb, k, j + 1, m)
  {
    FwdZero(n, s[(k, k)]);
    var next := j + 1;
    forall u: nat, v: nat | u < nb && v < nb
      ensures FwdAt(n, s, nb, k, next, m, u, v)
    {
      assert FwdAt(n, s, nb, k, j, m, u, v);
    }
  }

  lemma FwdsNext<V>(kernels: Kernels<V>, p: set<Pos>, k: nat, j: nat, s: map<Pos, V>)
    requires k < j
    ensures var m := RunSeq(kernels, Fwds(p, k, j), s);
            RunSeq(kernels, Fwds(p, k, j + 1), s) == if (k, j) in p then RunSeq(kernels, [FWD(k, j)], m) else m
  {
    RunSeqAppend(kernels, Fwds(p, k, j), if (k, j) in p then [FWD(k, j)] else [], s);
  }

  ghost predicate FwdsRun(n: nat, p: set<Pos>, nb: nat, k: nat, hi: nat, s: map<Pos, Mat>)
    requires Full(s, nb, n) && k < nb
  {
    var holds := FwdDone(n, s, nb, k, hi, RunSeq(RealKernels(n), Fwds(p, k, hi), s));
    holds
  }

  lemma FwdsAdvance(n: nat, p: set<Pos>, nb: nat, k: nat, j: nat, s: map<Pos, Mat>)
    requires Full(s, nb, n) && NullIsZero(s, p, nb, n) && k < j < nb
    requires FwdsRun(n, p, nb, k, j, s)
    ensures FwdsRun(n, p, nb, k, j + 1, s)
  {
    var m := RunSeq(RealKernels(n), Fwds(p, k, j), s);
    FwdsNext(RealKernels(n), p, k, j, s);
    if (k, j) in p {
      FwdOne(n, nb, k, j, s, m);
    } else {
      FwdSkips(n, nb, k, j, s, m);
    }
  }

  lemma FwdsStart(n: nat, p: set<Pos>, nb: nat, k: nat, s: map<Pos, Mat>)
    requires Full(s, nb, n) && k < nb
    ensures FwdsRun(n, p, nb, k, k + 1, s)
  {
    assert Fwds(p, k, k + 1) == [];
  }

  lemma FwdsEffect(n: nat, p: set<Pos>, nb: nat, k: nat, hi: nat, s: map<Pos, Mat>)
    requires Full(s, nb, n) && NullIsZero(s, p, nb, n) && k < hi <= nb
    ensures FwdsRun(n, p, nb, k, hi, s)
  {
    FwdsStart(n, p, nb, k, s);
    for i := k + 1 to hi
      invariant FwdsRun(n, p, nb, k, i, s)
    {
      FwdsAdvance(n, p, nb, k, i, s);
    }
  }

  lemma BdivOne(n: nat, nb: nat, k: nat, i: nat, s: map<Pos, Mat>, m: map<Pos, Mat>)
    requires Full(s, nb, n) && k < i < nb && BdivDone(n, s, nb, k, i, m)
    ensures BdivDone(n, s, nb, k, i + 1, RunSeq(RealKernels(n), [BDIV(i, k)], m))
  {
    StepIs(n, BDIV(i, k), m, nb);
    var m' := RunSeq(RealKernels(n), [BDIV(i, k)], m);
    var next := i + 1;
    forall u: nat, v: nat | u < nb && v < nb
      ensures BdivAt(n, s, nb, k, next, m', u, v)
    {
      assert BdivAt(n, s, nb, k, i, m, u, v);
      assert BdivAt(n, s, nb, k, i, m, k, k) && BdivAt(n, s, nb, k, i, m, i, k);
    }
  }

  lemma BdivSkips(n: nat, nb: nat, k: nat, i: nat, s: map<Pos, Mat>, m: map<Pos, Mat>)
    requires Full(s, nb, n) && k < i < nb && BdivDone(n, s, nb, k, i, m) && s[(i, k)] == Zero(n)
    ensures BdivDone(n, s, nb, k, i + 1, m)
  {
    BdivZero(n, s[(k, k)]);
    var next := i + 1;
    forall u: nat, v: nat | u < nb && v < nb
      ensures BdivAt(n, s, nb, k, next, m, u, v)
    {
      assert BdivAt(n, s, nb, k, i, m, u, v);
    }
  }

  lemma BdivsNext<V>(kernels: Kernels<V>, p: set<Pos>, k: nat, i: nat, s: map<Pos, V>)
    requires k < i
    ensures var m := RunSeq(kernels, Bdivs(p, k, i), s);
            RunSeq(kernels, Bdivs(p, k, i + 1), s) == if (i, k) in p then RunSeq(kernels, [BDIV(i, k)], m) else m
  {
    RunSeqAppend(kernels, Bdivs(p, k, i), if (i, k) in p then [BDIV(i, k)] else [], s);
  }

  ghost predicate BdivsRun(n: nat, p: set<Pos>, nb: nat, k: nat, hi: nat, s: map<Pos, Mat>)
    requires Full(s, nb, n) && k < nb
  {
    var holds := BdivDone(n, s, nb, k, hi, RunSeq(RealKernels(n), Bdivs(p, k, hi), s));
    holds
  }

  lemma BdivsAdvance(n: nat, p: set<Pos>, nb: nat, k: nat, i: nat, s: map<Pos, Mat>)
    requires Full(s, nb, n) && NullIsZero(s, p, nb, n) && k < i < nb
    requires BdivsRun(n, p, nb, k, i, s)
    ensures BdivsRun(n, p, nb, k, i + 1, s)
  {
    var m := RunSeq(RealKernels(n), Bdivs(p, k, i), s);
    BdivsNext(RealKernels(n), p, k, i, s);
    if (i, k) in p {
      BdivOne(n, nb, k, i, s, m);
    } else {
      BdivSkips(n, nb, k, i, s, m);
    }
  }

  lemma BdivsStart(n: nat, p: set<Pos>, nb: nat, k: nat, s: map<Pos, Mat>)
    requires Full(s, nb, n) && k < nb
    ensures BdivsRun(n, p, nb, k, k + 1, s)
  {
    assert Bdivs(p, k, k + 1) == [];
  }

  lemma BdivsEffect(n: nat, p: set<Pos>, nb: nat, k: nat, hi: nat, s: map<Pos, Mat>)
    requires Full(s, nb, n) && NullIsZero(s, p, nb, n) && k < hi <= nb
    ensures BdivsRun(n, p, nb, k, hi, s)
  {
    BdivsStart(n, p, nb, k, s);
    for i := k + 1 to hi
      invariant BdivsRun(n, p, nb, k, i, s)
    {
      BdivsAdvance(n, p, nb, k, i, s);
    }
  }

  lemma BmodOne(n: nat, nb: nat, k: nat, r: nat, j: nat, s: map<Pos, Mat>, m: map<Pos, Mat>)
    requires Full(s, nb, n) && k < r < nb && k < j < nb && RowDone(n, s, nb, k, r, j, m)
    ensures RowDone(n, s, nb, k, r, j + 1, RunSeq(RealKernels(n), [BMOD(r, j, k)], m))
  {
    StepIs(n, BMOD(r, j, k), m, nb);
    var m' := RunSeq(RealKernels(n), [BMOD(r, j, k)], m);
    var next := j + 1;
    forall u: nat, v: nat | u < nb && v < nb
      ensures RowAt(n, s, nb, k, r, next, m', u, v)
    {
      assert RowAt(n, s, nb, k, r, j, m, u, v);
      assert RowAt(n, s, nb, k, r, j, m, r, k) && RowAt(n, s, nb, k, r, j, m, k, j)
          && RowAt(n, s, nb, k, r, j, m, r, j);
    }
  }

  lemma BmodSkips(n: nat, nb: nat, k: nat, r: nat, j: nat, s: map<Pos, Mat>, m: map<Pos, Mat>)
    requires Full(s, nb, n) && k < r < nb && k < j < nb && RowDone(n, s, nb, k, r, j, m) && s[(k, j)] == Zero(n)
    ensures RowDone(n, s, nb, k, r, j + 1, m)
  {
    BmodZero(n, s[(r, k)], s[(k, j)], s[(r, j)]);
    var next := j + 1;
    forall u: nat, v: nat | u < nb && v < nb
      ensures RowAt(n, s, nb, k, r, next, m, u, v)
    {
      assert RowAt(n, s, nb, k, r, j, m, u, v);
    }
  }

  lemma BmodRowNext<V>(kernels: Kernels<V>, p: set<Pos>, k: nat, r: nat, j: nat, s: map<Pos, V>)
    requires k < j
    ensures var m := RunSeq(kernels, BmodRow(p, k, r, j), s);
            RunSeq(kernels, BmodRow(p, k, r, j + 1), s) ==
            if (k, j) in p then RunSeq(kernels, [BMOD(r, j, k)], m) else m
  {
    RunSeqAppend(kernels, BmodRow(p, k, r, j), if (k, j) in p then [BMOD(r, j, k)] else [], s);
  }

  ghost predicate RowRun(n: nat, p: set<Pos>, nb: nat, k: nat, r: nat, hi: nat, s: map<Pos, Mat>)
    requires Full(s, nb, n) && k < nb && r < nb
  {
    var holds := RowDone(n, s, nb, k, r, hi, RunSeq(RealKernels(n), BmodRow(p, k, r, hi), s));
    holds
  }

  lemma RowAdvance(n: nat, p: set<Pos>, nb: nat, k: nat, r: nat, j: nat, s: map<Pos, Mat>)
    requires Full(s, nb, n) && NullIsZero(s, p, nb, n) && k < j < nb && k < r < nb
    requires RowRun(n, p, nb, k, r, j, s)
    ensures RowRun(n, p, nb, k, r, j + 1, s)
  {
    var m := RunSeq(RealKernels(n), BmodRow(p, k, r, j), s);
    BmodRowNext(RealKernels(n), p, k, r, j, s);
    if (k, j) in p {
      BmodOne(n, nb, k, r, j, s, m);
    } else {
      BmodSkips(n, nb, k, r, j, s, m);
    }
  }

  lemma RowStart(n: nat, p: set<Pos>, nb: nat, k: nat, r: nat, s: map<Pos, Mat>)
    requires Full(s, nb, n) && k < nb && r < nb
    ensures RowRun(n, p, nb, k, r, k + 1, s)
  {
    assert BmodRow(p, k, r, k + 1) == [];
  }

  lemma RowEffect(n: nat, p: set<Pos>, nb: nat, k: nat, r: nat, hi: nat, s: map<Pos, Mat>)
    requires Full(s, nb, n) && NullIsZero(s, p, nb, n) && k < hi <= nb && k < r < nb
    ensures RowRun(n, p, nb, k, r, hi, s)
  {
    RowStart(n, p, nb, k, r, s);
    for j := k + 1 to hi
      invariant RowRun(n, p, nb, k, r, j, s)
    {
      RowAdvance(n, p, nb, k, r, j, s);
    }
  }

  /** The null blocks of row `k` and column `k` are what a product needs; they do not change while products run. */
  lemma RowNulls(n: nat, p: set<Pos>, nb: nat, k: nat, r: nat, s: map<Pos, Mat>, m: map<Pos, Mat>)
    requires Full(s, nb, n) && NullIsZero(s, p, nb, n) && k < r < nb && BmodDone(n, s, nb, k, r, m)
    ensures Full(m, nb, n) && NullIsZero(m, p + FilledBefore(k, r, nb), nb, n)
  {
    forall i: nat, j: nat | i < nb && j < nb && (i, j) !in p + FilledBefore(k, r, nb)
      ensures m[(i, j)] == Zero(n)
    {
      assert BmodAt(n, s, nb, k, r, m, i, j);
    }
  }

  /** The blocks that products of step `k` may have written in the rows before `r`. */
  ghost function FilledBefore(k: nat, r: nat, nb: nat): set<Pos> {
    set i: nat, j: nat | k < i < r && k < j < nb :: (i, j)
  }

  lemma RowJoins(n: nat, nb: nat, k: nat, r: nat, s: map<Pos, Mat>, m: map<Pos, Mat>, m': map<Pos, Mat>)
    requires Full(s, nb, n) && k < r < nb && BmodDone(n, s, nb, k, r, m) && RowDone(n, m, nb, k, r, nb, m')
    ensures BmodDone(n, s, nb, k, r + 1, m')
  {
    var next := r + 1;
    forall i: nat, j: nat | i < nb && j < nb
      ensures BmodAt(n, s, nb, k, next, m', i, j)
    {
      assert RowAt(n, m, nb, k, r, nb, m', i, j);
      assert BmodAt(n, s, nb, k, r, m, i, j);
      assert BmodAt(n, s, nb, k, r, m, k, j);
      assert BmodAt(n, s, nb, k, r, m, r, k);
    }
  }

  /** A row whose factor is null is left out, and running it would have changed nothing. */
  lemma RowSkips(n: nat, nb: nat, k: nat, r: nat, s: map<Pos, Mat>, m: map<Pos, Mat>)
    requires Full(s, nb, n) && k < r < nb && BmodDone(n, s, nb, k, r, m) && s[(r, k)] == Zero(n)
    ensures BmodDone(n, s, nb, k, r + 1, m)
  {
    var next := r + 1;
    forall i: nat, j: nat | i < nb && j < nb
      ensures BmodAt(n, s, nb, k, next, m, i, j)
    {
      assert BmodAt(n, s, nb, k, r, m, i, j);
      if i == r && k < j {
        BmodZero(n, s[(r, k)], s[(k, j)], s[(r, j)]);
      }
    }
  }

  lemma BmodsNext<V>(kernels: Kernels<V>, p: set<Pos>, k: nat, r: nat, nb: nat, s: map<Pos, V>)
    requires k < r
    ensures var m := RunSeq(kernels, Bmods(p, k, r, nb), s);
            RunSeq(kernels, Bmods(p, k, r + 1, nb), s) ==
            if (r, k) in p then RunSeq(kernels, BmodRow(p, k, r, nb), m) else m
  {
    RunSeqAppend(kernels, Bmods(p, k, r, nb), if (r, k) in p then BmodRow(p, k, r, nb) else [], s);
  }

  lemma RowRuns(n: nat, p: set<Pos>, nb: nat, k: nat, r: nat, s: map<Pos, Mat>, m: map<Pos, Mat>)
    requires Full(s, nb, n) && NullIsZero(s, p, nb, n) && k < r < nb && BmodDone(n, s, nb, k, r, m)
    ensures BmodDone(n, s, nb, k, r + 1, RunSeq(RealKernels(n), BmodRow(p, k, r, nb), m))
  {
    RowNulls(n, p, nb, k, r, s, m);
    var q := p + FilledBefore(k, r, nb);
    RowEffect(n, q, nb, k, r, nb, m);
    BmodRowSame(p, q, k, r, nb);
    RowJoins(n, nb, k, r, s, m, RunSeq(RealKernels(n), BmodRow(p, k, r, nb), m));
  }

  ghost predicate BmodsRun(n: nat, p: set<Pos>, nb: nat, k: nat, hi: nat, s: map<Pos, Mat>)
    requires Full(s, nb, n) && k < nb
  {
    BmodDone(n, s, nb, k, hi, RunSeq(RealKernels(n), Bmods(p, k, hi, nb), s))
  }

  lemma BmodsAdvance(n: nat, p: set<Pos>, nb: nat, k: nat, r: nat, s: map<Pos, Mat>)
    requires Full(s, nb, n) && NullIsZero(s, p, nb, n) && k < r < nb
    requires BmodsRun(n, p, nb, k, r, s)
    ensures BmodsRun(n, p, nb, k, r + 1, s)
  {
    var m := RunSeq(RealKernels(n), Bmods(p, k, r, nb), s);
    BmodsNext(RealKernels(n), p, k, r, nb, s);
    if (r, k) in p {
      RowRuns(n, p, nb, k, r, s, m);
    } else {
      RowSkips(n, nb, k, r, s, m);
    }
  }

  lemma BmodsStart(n: nat, p: set<Pos>, nb: nat, k: nat, s: map<Pos, Mat>)
    requires Full(s, nb, n) && k < nb
    ensures BmodsRun(n, p, nb, k, k + 1, s)
  {
    assert Bmods(p, k, k + 1, nb) == [];
  }

  lemma {:induction false} BmodsEffect(n: nat, p: set<Pos>, nb: nat, k: nat, hi: nat, s: map<Pos, Mat>)
    requires Full(s, nb, n) && NullIsZero(s, p, nb, n) && k < hi <= nb
    ensures BmodsRun(n, p, nb, k, hi, s)
    decreases hi, 1
  {
    if hi == k + 1 {
      BmodsStart(n, p, nb, k, s);
    } else {
      BmodsLater(n, p, nb, k, hi, s);
    }
  }

  lemma {:induction false} BmodsLater(n: nat, p: set<Pos>, nb: nat, k: nat, hi: nat, s: map<Pos, Mat>)
    requires Full(s, nb, n) && NullIsZero(s, p, nb, n) && k + 1 < hi <= nb
    ensures BmodsRun(n, p, nb, k, hi, s)
    decreases hi, 0
  {
    BmodsEffect(n, p, nb, k, hi - 1, s);
    BmodsAdvance(n, p, nb, k, hi - 1, s);
  }

  // ---------------------------------------------------------------- whole steps

  /** Block (i, j) after the first `k` steps, in closed form and without mention of null blocks. */
  function Block(n: nat, s: map<Pos, Mat>, nb: nat, k: nat, i: nat, j: nat): Mat
    requires Full(s, nb, n) && k <= nb && i < nb && j < nb
    decreases k, i + j
  {
    if k == 0 then s[(i, j)]
    else if i < k - 1 || j < k - 1 then Block(n, s, nb, k - 1, i, j)
    else if i == k - 1 && j == k - 1 then Lu0(n, Block(n, s, nb, k - 1, i, j))
    else if i == k - 1 then Fwd(n, Block(n, s, nb, k, i, i), Block(n, s, nb, k - 1, i, j))
    else if j == k - 1 then Bdiv(n, Block(n, s, nb, k, j, j), Block(n, s, nb, k - 1, i, j))
    else Bmod(n, Block(n, s, nb, k, i, k - 1), Block(n, s, nb, k, k - 1, j), Block(n, s, nb, k - 1, i, j))
  }

  ghost predicate StepsDone(n: nat, s: map<Pos, Mat>, nb: nat, k: nat, s': map<Pos, Mat>)
    requires Full(s, nb, n) && k <= nb
  {
    && Full(s', nb, n)
    && forall i: nat, j: nat {:trigger s'[(i, j)]} :: i < nb && j < nb ==> s'[(i, j)] == Block(n, s, nb, k, i, j)
  }

  /** Step `k`, phase after phase, on blocks that are already those of the first `k` steps. */
  lemma PhasesJoin(n: nat, s: map<Pos, Mat>, nb: nat, k: nat, m: map<Pos, Mat>, m0: map<Pos, Mat>, m1: map<Pos, Mat>,
                   m2: map<Pos, Mat>, m3: map<Pos, Mat>)
    requires Full(s, nb, n) && k < nb && StepsDone(n, s, nb, k, m)
    requires m0 == m[(k, k) := Lu0(n, m[(k, k)])] && Full(m0, nb, n)
    requires FwdDone(n, m0, nb, k, nb, m1) && BdivDone(n, m1, nb, k, nb, m2) && BmodDone(n, m2, nb, k, nb, m3)
    ensures StepsDone(n, s, nb, k + 1, m3)
  {
    forall i: nat, j: nat | i < nb && j < nb
      ensures m3[(i, j)] == Block(n, s, nb, k + 1, i, j)
    {
      PhaseTwo(n, s, nb, k, m, m0, m1, m2, i, j);
      if k < i && k < j {
        PhaseTwo(n, s, nb, k, m, m0, m1, m2, i, k);
        PhaseTwo(n, s, nb, k, m, m0, m1, m2, k, j);
      }
      assert BmodAt(n, m2, nb, k, nb, m3, i, j);
    }
  }

  lemma PhaseTwo(n: nat, s: map<Pos, Mat>, nb: nat, k: nat, m: map<Pos, Mat>, m0: map<Pos, Mat>, m1: map<Pos, Mat>,
                 m2: map<Pos, Mat>, i: nat, j: nat)
    requires Full(s, nb, n) && k < nb && StepsDone(n, s, nb, k, m) && i < nb && j < nb
    requires m0 == m[(k, k) := Lu0(n, m[(k, k)])] && Full(m0, nb, n)
    requires FwdDone(n, m0, nb, k, nb, m1) && BdivDone(n, m1, nb, k, nb, m2)
    ensures m2[(i, j)] == if k < i && k < j then Block(n, s, nb, k, i, j) else Block(n, s, nb, k + 1, i, j)
  {
    assert BdivAt(n, m1, nb, k, nb, m2, i, j);
    assert FwdAt(n, m0, nb, k, nb, m1, i, j);
    assert FwdAt(n, m0, nb, k, nb, m1, k, k);
    assert m[(i, j)] == Block(n, s, nb, k, i, j);
    assert m0[(k, k)] == Block(n, s, nb, k + 1, k, k);
  }

  lemma NullsAfterFwd(n: nat, s: map<Pos, Mat>, p: set<Pos>, nb: nat, k: nat, m: map<Pos, Mat>)
    requires Full(s, nb, n) && k < nb && NullIsZero(s, p, nb, n) && FwdDone(n, s, nb, k, nb, m)
    ensures NullIsZero(m, p, nb, n)
  {
    FwdZero(n, s[(k, k)]);
    forall i: nat, j: nat | i < nb && j < nb && (i, j) !in p
      ensures m[(i, j)] == Zero(n)
    {
      assert FwdAt(n, s, nb, k, nb, m, i, j);
    }
  }

  lemma NullsAfterBdiv(n: nat, s: map<Pos, Mat>, p: set<Pos>, nb: nat, k: nat, m: map<Pos, Mat>)
    requires Full(s, nb, n) && k < nb && NullIsZero(s, p, nb, n) && BdivDone(n, s, nb, k, nb, m)
    ensures NullIsZero(m, p, nb, n)
  {
    BdivZero(n, s[(k, k)]);
    forall i: nat, j: nat | i < nb && j < nb && (i, j) !in p
      ensures m[(i, j)] == Zero(n)
    {
      assert BdivAt(n, s, nb, k, nb, m, i, j);
    }
  }

  lemma NullsAfterBmod(n: nat, s: map<Pos, Mat>, p: set<Pos>, nb: nat, k: nat, m: map<Pos, Mat>)
    requires Full(s, nb, n) && k < nb && NullIsZero(s, p, nb, n) && BmodDone(n, s, nb, k, nb, m)
    ensures NullIsZero(m, Fill(p, k, nb), nb, n)
  {
    forall i: nat, j: nat | i < nb && j < nb && (i, j) !in Fill(p, k, nb)
      ensures m[(i, j)] == Zero(n)
    {
      assert BmodAt(n, s, nb, k, nb, m, i, j);
      if k < i && k < j {
        assert (i, k) !in p || (k, j) !in p;
        BmodZero(n, s[(i, k)], s[(k, j)], s[(i, j)]);
      }
    }
  }

  lemma DiagonalEffect(n: nat, p: set<Pos>, nb: nat, k: nat, m: map<Pos, Mat>)
    requires Full(m, nb, n) && NullIsZero(m, p, nb, n) && k < nb && (k, k) in p
    ensures var m0 := RunSeq(RealKernels(n), [LU0(k)], m);
            m0 == m[(k, k) := Lu0(n, m[(k, k)])] && Full(m0, nb, n) && NullIsZero(m0, p, nb, n)
  {
    StepIs(n, LU0(k), m, nb);
  }

  lemma StepEffect(n: nat, p: set<Pos>, nb: nat, k: nat, s: map<Pos, Mat>, m: map<Pos, Mat>)
    requires Full(s, nb, n) && k < nb && StepsDone(n, s, nb, k, m) && NullIsZero(m, p, nb, n) && (k, k) in p
    ensures var m3 := RunSeq(RealKernels(n), StepTasks(p, k, nb), m);
            StepsDone(n, s, nb, k + 1, m3) && NullIsZero(m3, Fill(p, k, nb), nb, n)
  {
    var kn := RealKernels(n);
    DiagonalEffect(n, p, nb, k, m);
    var m0 := RunSeq(kn, [LU0(k)], m);
    FwdsEffect(n, p, nb, k, nb, m0);
    var m1 := RunSeq(kn, Fwds(p, k, nb), m0);
    NullsAfterFwd(n, m0, p, nb, k, m1);
    BdivsEffect(n, p, nb, k, nb, m1);
    var m2 := RunSeq(kn, Bdivs(p, k, nb), m1);
    NullsAfterBdiv(n, m1, p, nb, k, m2);
    BmodsEffect(n, p, nb, k, nb, m2);
    var m3 := RunSeq(kn, Bmods(p, k, nb, nb), m2);
    NullsAfterBmod(n, m2, p, nb, k, m3);
    PhasesJoin(n, s, nb, k, m, m0, m1, m2, m3);
    StepSplits(kn, p, k, nb, m);
  }

  lemma StepSplits<V>(kernels: Kernels<V>, p: set<Pos>, k: nat, nb: nat, m: map<Pos, V>)
    ensures RunSeq(kernels, StepTasks(p, k, nb), m) ==
            RunSeq(kernels, Bmods(p, k, nb, nb),
                   RunSeq(kernels, Bdivs(p, k, nb), RunSeq(kernels, Fwds(p, k, nb), RunSeq(kernels, [LU0(k)], m))))
  {
    RunSeqAppend(kernels, [LU0(k)], Fwds(p, k, nb), m);
    RunSeqAppend(kernels, [LU0(k)] + Fwds(p, k, nb), Bdivs(p, k, nb), m);
    RunSeqAppend(kernels, [LU0(k)] + Fwds(p, k, nb) + Bdivs(p, k, nb), Bmods(p, k, nb, nb), m);
  }

  ghost predicate DenseSoFar(n: nat, p: set<Pos>, nb: nat, k: nat, s: map<Pos, Mat>)
    requires Full(s, nb, n) && k <= nb
  {
    var s' := RunSeq(RealKernels(n), Tasks(p, nb, k), s);
    StepsDone(n, s, nb, k, s') && NullIsZero(s', Pattern(p, nb, k), nb, n)
  }

  lemma DenseStart(n: nat, p: set<Pos>, nb: nat, s: map<Pos, Mat>)
    requires Full(s, nb, n) && NullIsZero(s, p, nb, n)
    ensures DenseSoFar(n, p, nb, 0, s)
  {
    assert RunSeq(RealKernels(n), Tasks(p, nb, 0), s) == s;
  }

  lemma DenseAdvance(n: nat, p: set<Pos>, nb: nat, k: nat, s: map<Pos, Mat>)
    requires Full(s, nb, n) && k < nb && (k, k) in p && DenseSoFar(n, p, nb, k, s)
    ensures DenseSoFar(n, p, nb, k + 1, s)
  {
    PatternGrows(p, nb, k);
    RunSeqAppend(RealKernels(n), Tasks(p, nb, k), StepTasks(Pattern(p, nb, k), k, nb), s);
    StepEffect(n, Pattern(p, nb, k), nb, k, s, RunSeq(RealKernels(n), Tasks(p, nb, k), s));
  }

  /** Skipping the null blocks loses nothing: the sparse run ends with the blocks of dense elimination. */
  lemma SparseIsDense(n: nat, p: set<Pos>, nb: nat, k: nat, s: map<Pos, Mat>)
    requires Full(s, nb, n) && k <= nb && NullIsZero(s, p, nb, n)
    requires forall d: nat :: d < nb ==> (d, d) in p
    ensures DenseSoFar(n, p, nb, k, s)
  {
    DenseStart(n, p, nb, s);
    for j := 0 to k
      invariant DenseSoFar(n, p, nb, j, s)
    {
      assert (j, j) in p;
      DenseAdvance(n, p, nb, j, s);
    }
  }

  // ---------------------------------------------------------------- the factors

  /** Block (i, m) of the unit lower factor and block (m, j) of the upper one, as entries. */
  ghost function LowerBlock(s: map<Pos, Mat>, nb: nat, n: nat, i: nat, m: nat): (nat, nat) -> real
    requires Full(s, nb, n) && i < nb && m < nb
  {
    if m < i then EntryOf(s[(i, m)]) else if m == i then LowerOf(s[(i, i)]) else EntryOf(Zero(n))
  }

  ghost function UpperBlock(s: map<Pos, Mat>, nb: nat, n: nat, m: nat, j: nat): (nat, nat) -> real
    requires Full(s, nb, n) && m < nb && j < nb
  {
    if m < j then EntryOf(s[(m, j)]) else if m == j then UpperOf(s[(j, j)]) else EntryOf(Zero(n))
  }

  /** Entry (r, c) of the product of block (i, m) and block (m, j). */
  ghost function FactorTerm(s: map<Pos, Mat>, nb: nat, n: nat, i: nat, j: nat, r: nat, c: nat): nat -> real
    requires Full(s, nb, n) && i < nb && j < nb
  {
    (m: nat) => if m < nb then Product(n, LowerBlock(s, nb, n, i, m), UpperBlock(s, nb, n, m, j), r, c) else 0.0
  }

  /** Entry (r, c) of block (i, j) of the product of the two block triangles. */
  ghost function FactorProduct(s: map<Pos, Mat>, nb: nat, n: nat, i: nat, j: nat, r: nat, c: nat): real
    requires Full(s, nb, n) && i < nb && j < nb
  {
    SumTo(nb, FactorTerm(s, nb, n, i, j, r, c))
  }

  ghost function BlockTerm(n: nat, s: map<Pos, Mat>, nb: nat, i: nat, j: nat, r: nat, c: nat): nat -> real
    requires Full(s, nb, n) && i < nb && j < nb
  {
    (m: nat) =>
      if m < i && m < j
      then Product(n, EntryOf(Block(n, s, nb, m + 1, i, m)), EntryOf(Block(n, s, nb, m + 1, m, j)), r, c) else 0.0
  }

  /** One step subtracts one product from a block of the active part. */
  lemma BlockStep(n: nat, s: map<Pos, Mat>, nb: nat, k: nat, i: nat, j: nat, r: nat, c: nat)
    requires Full(s, nb, n) && k < i < nb && k < j < nb && r < n && c < n
    ensures At(Block(n, s, nb, k + 1, i, j), r, c) ==
            At(Block(n, s, nb, k, i, j), r, c) - BlockTerm(n, s, nb, i, j, r, c)(k)
  {
    var x, y, a := Block(n, s, nb, k + 1, i, k), Block(n, s, nb, k + 1, k, j), Block(n, s, nb, k, i, j);
    assert At(Bmod(n, x, y, a), r, c) == BmodEntry(x, y, a, n, r, c);
    BmodSubtracts(x, y, a, n, r, c);
  }

  ghost function BlockEntry(n: nat, s: map<Pos, Mat>, nb: nat, i: nat, j: nat, r: nat, c: nat): nat -> real
    requires Full(s, nb, n) && i < nb && j < nb
  {
    (k: nat) => if k <= nb then At(Block(n, s, nb, k, i, j), r, c) else 0.0
  }

  ghost predicate Falls(e: nat -> real, t: nat -> real, m: nat) {
    e(m + 1) == e(m) - t(m)
  }

  lemma {:induction false} Telescope(k: nat, e: nat -> real, t: nat -> real)
    requires forall m: nat :: m < k ==> Falls(e, t, m)
    ensures e(k) == e(0) - SumTo(k, t)
  {
    if k > 0 {
      Telescope(k - 1, e, t);
      assert Falls(e, t, k - 1);
    }
  }

  lemma BlockFalls(n: nat, s: map<Pos, Mat>, nb: nat, k: nat, i: nat, j: nat, r: nat, c: nat)
    requires Full(s, nb, n) && k < i < nb && k < j < nb && r < n && c < n
    ensures Falls(BlockEntry(n, s, nb, i, j, r, c), BlockTerm(n, s, nb, i, j, r, c), k)
  {
    BlockStep(n, s, nb, k, i, j, r, c);
  }

  /** Before its own step a block is the original minus the products subtracted so far. */
  lemma BlockActive(n: nat, s: map<Pos, Mat>, nb: nat, k: nat, i: nat, j: nat, r: nat, c: nat)
    requires Full(s, nb, n) && k <= i < nb && k <= j < nb && r < n && c < n
    ensures BlockEntry(n, s, nb, i, j, r, c)(k) == At(s[(i, j)], r, c) - SumTo(k, BlockTerm(n, s, nb, i, j, r, c))
  {
    var e, t := BlockEntry(n, s, nb, i, j, r, c), BlockTerm(n, s, nb, i, j, r, c);
    forall m: nat | m < k
      ensures Falls(e, t, m)
    {
      BlockFalls(n, s, nb, m, i, j, r, c);
    }
    Telescope(k, e, t);
    BlockStart(n, s, nb, i, j, r, c);
  }

  lemma BlockStart(n: nat, s: map<Pos, Mat>, nb: nat, i: nat, j: nat, r: nat, c: nat)
    requires Full(s, nb, n) && i < nb && j < nb
    ensures BlockEntry(n, s, nb, i, j, r, c)(0) == At(s[(i, j)], r, c)
  {
  }

  /** A block of row or column `k` is final after step `k`. */
  lemma {:induction false} BlockSettled(n: nat, s: map<Pos, Mat>, nb: nat, k: nat, l: nat, i: nat, j: nat)
    requires Full(s, nb, n) && k <= l <= nb && i < nb && j < nb && (i < k || j < k)
    ensures Block(n, s, nb, l, i, j) == Block(n, s, nb, k, i, j)
  {
    if k < l {
      BlockSettled(n, s, nb, k, l - 1, i, j);
    }
  }

  /** The products below the smaller index are those that elimination subtracted. */
  lemma EarlierTerms(n: nat, s: map<Pos, Mat>, nb: nat, f: map<Pos, Mat>, i: nat, j: nat, r: nat, c: nat, m: nat)
    requires Full(s, nb, n) && StepsDone(n, s, nb, nb, f) && i < nb && j < nb && m < i && m < j
    ensures FactorTerm(f, nb, n, i, j, r, c)(m) == BlockTerm(n, s, nb, i, j, r, c)(m)
  {
    BlockSettled(n, s, nb, m + 1, nb, i, m);
    BlockSettled(n, s, nb, m + 1, nb, m, j);
  }

  lemma LaterTerms(n: nat, nb: nat, f: map<Pos, Mat>, i: nat, j: nat, r: nat, c: nat, m: nat)
    requires Full(f, nb, n) && i < nb && j < nb && m < nb && (i < m || j < m) && r < n && c < n
    ensures FactorTerm(f, nb, n, i, j, r, c)(m) == 0.0
  {
    var x, y := LowerBlock(f, nb, n, i, m), UpperBlock(f, nb, n, m, j);
    forall q: nat | q < n
      ensures Term(x, y, r, c)(q) == 0.0
    {
      ZeroFactor(x(r, q), y(q, c));
    }
    SumTail(0, n, Term(x, y, r, c));
  }

  /** What the step of its own row or column does to a block. */
  lemma OwnStep(n: nat, s: map<Pos, Mat>, nb: nat, i: nat, j: nat, k: nat)
    requires Full(s, nb, n) && i < nb && j < nb && k == (if i <= j then i else j)
    ensures var d, b := Block(n, s, nb, k + 1, k, k), Block(n, s, nb, k, i, j);
            Block(n, s, nb, k + 1, i, j) ==
            if i == j then Lu0(n, b) else if i < j then Fwd(n, d, b) else Bdiv(n, d, b)
  {
  }

  /** The same about the final blocks. */
  lemma OwnBlocks(n: nat, s: map<Pos, Mat>, nb: nat, f: map<Pos, Mat>, i: nat, j: nat, k: nat)
    requires Full(s, nb, n) && StepsDone(n, s, nb, nb, f) && i < nb && j < nb && k == (if i <= j then i else j)
    ensures var b := Block(n, s, nb, k, i, j);
            f[(i, j)] == if i == j then Lu0(n, b) else if i < j then Fwd(n, f[(k, k)], b) else Bdiv(n, f[(k, k)], b)
  {
    BlockSettled(n, s, nb, k + 1, nb, i, j);
    BlockSettled(n, s, nb, k + 1, nb, k, k);
    OwnStep(n, s, nb, i, j, k);
    assert f[(k, k)] == Block(n, s, nb, nb, k, k);
    assert f[(i, j)] == Block(n, s, nb, nb, i, j);
  }

  /** The last product gives back what the block was before its own step. */
  lemma OwnProduct(n: nat, d: Mat, b: Mat, x: Mat, i: nat, j: nat, r: nat, c: nat)
    requires r < n && c < n && NonzeroPivots(d, n) && (i == j ==> d == x)
    requires x == if i == j then Lu0(n, b) else if i < j then Fwd(n, d, b) else Bdiv(n, d, b)
    ensures i == j ==> Product(n, LowerOf(d), UpperOf(d), r, c) == At(b, r, c)
    ensures i < j ==> Product(n, LowerOf(d), EntryOf(x), r, c) == At(b, r, c)
    ensures i > j ==> Product(n, EntryOf(x), UpperOf(d), r, c) == At(b, r, c)
  {
    if i == j {
      Lu0Factors(n, b, r, c);
    } else if i < j {
      FwdSolves(n, d, b, r, c);
    } else {
      BdivSolves(n, d, b, r, c);
    }
  }

  lemma OwnTerm(n: nat, s: map<Pos, Mat>, nb: nat, f: map<Pos, Mat>, i: nat, j: nat, k: nat, r: nat, c: nat)
    requires Full(s, nb, n) && StepsDone(n, s, nb, nb, f) && i < nb && j < nb && k == (if i <= j then i else j)
    requires r < n && c < n && NonzeroPivots(f[(k, k)], n)
    ensures FactorTerm(f, nb, n, i, j, r, c)(k) == At(Block(n, s, nb, k, i, j), r, c)
  {
    OwnBlocks(n, s, nb, f, i, j, k);
    OwnProduct(n, f[(k, k)], Block(n, s, nb, k, i, j), f[(i, j)], i, j, r, c);
  }

  /** Dense block elimination factors the matrix. */
  lemma DenseFactors(n: nat, s: map<Pos, Mat>, nb: nat, f: map<Pos, Mat>, i: nat, j: nat, r: nat, c: nat)
    requires Full(s, nb, n) && StepsDone(n, s, nb, nb, f) && i < nb && j < nb && r < n && c < n
    requires forall k: nat :: k < nb ==> NonzeroPivots(f[(k, k)], n)
    ensures FactorProduct(f, nb, n, i, j, r, c) == At(s[(i, j)], r, c)
  {
    var k := if i <= j then i else j;
    var t, g := FactorTerm(f, nb, n, i, j, r, c), BlockTerm(n, s, nb, i, j, r, c);
    forall m: nat | m < k
      ensures t(m) == g(m)
    {
      EarlierTerms(n, s, nb, f, i, j, r, c, m);
    }
    forall m: nat | k < m < nb
      ensures t(m) == 0.0
    {
      LaterTerms(n, nb, f, i, j, r, c, m);
    }
    TriangularSum(nb, t, k, g);
    OwnTerm(n, s, nb, f, i, j, k, r, c);
    BlockActive(n, s, nb, k, i, j, r, c);
  }

  /** The serial loop with fill-in is a factorization: the unit lower and upper block triangles it leaves multiply
      back to the original matrix, for every null pattern that keeps the diagonal. */
  lemma SerialFactors(n: nat, p: set<Pos>, nb: nat, s: map<Pos, Mat>, i: nat, j: nat, r: nat, c: nat)
    requires Full(s, nb, n) && NullIsZero(s, p, nb, n)
    requires forall d: nat :: d < nb ==> (d, d) in p
    requires i < nb && j < nb && r < n && c < n
    requires var f := RunSeq(RealKernels(n), Tasks(p, nb, nb), s);
             forall k: nat :: k < nb && (k, k) in f ==> NonzeroPivots(f[(k, k)], n)
    ensures var f := RunSeq(RealKernels(n), Tasks(p, nb, nb), s);
            && Full(f, nb, n)
            && FactorProduct(f, nb, n, i, j, r, c) == At(s[(i, j)], r, c)
  {
    SparseIsDense(n, p, nb, nb, s);
    DenseFactors(n, s, nb, RunSeq(RealKernels(n), Tasks(p, nb, nb), s), i, j, r, c);
  }

  /** So is every execution of the task graph, whatever order the runtime picks. */
  lemma DagFactors(n: nat, p: set<Pos>, nb: nat, s: map<Pos, Mat>, order: seq<nat>, i: nat, j: nat, r: nat, c: nat)
    requires Full(s, nb, n) && NullIsZero(s, p, nb, n)
    requires forall d: nat :: d < nb ==> (d, d) in p
    requires Topological(order, |Tasks(p, nb, nb)|, EdgesOf(Tasks(p, nb, nb)))
    requires i < nb && j < nb && r < n && c < n
    requires var f := Run(TaskOps(RealKernels(n), Tasks(p, nb, nb)), order, s);
             forall k: nat :: k < nb && (k, k) in f ==> NonzeroPivots(f[(k, k)], n)
    ensures var f := Run(TaskOps(RealKernels(n), Tasks(p, nb, nb)), order, s);
            && Full(f, nb, n)
            && FactorProduct(f, nb, n, i, j, r, c) == At(s[(i, j)], r, c)
  {
    DagMeansSerial(RealKernels(n), p, nb, order, s);
    SerialFactors(n, p, nb, s, i, j, r, c);
  }
}
