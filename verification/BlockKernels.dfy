/** The four block kernels of sparse LU over exact reals, in place, and what each solves. */
module BlockKernels {
  // A block is a matrix of reals. `Quot` is division made total: a zero pivot gives 0 (an IEEE double would give an
  // infinity or a NaN), and every algebraic result below asks for nonzero pivots.


  type Mat = seq<seq<real>>

  predicate Square(m: Mat, n: nat) {
    |m| == n && forall i :: 0 <= i < n ==> |m[i]| == n
  }

  /** Entry (i, j); 0 outside the matrix. */
  function At(m: Mat, i: nat, j: nat): real {
    if i < |m| && j < |m[i]| then m[i][j] else 0.0
  }

  function Quot(x: real, y: real): real {
    if y == 0.0 then 0.0 else x / y
  }

  function Tabulate(n: nat, f: (nat, nat) -> real): (m: Mat)
    ensures Square(m, n)
    ensures forall i: nat, j: nat :: i < n && j < n ==> At(m, i, j) == f(i, j)
  {
    seq(n, i requires i >= 0 => seq(n, j requires j >= 0 => f(i, j)))
  }

  function Zero(n: nat): Mat {
    Tabulate(n, (i: nat, j: nat) => 0.0)
  }

  lemma SameEntries(a: Mat, b: Mat, n: nat)
    requires Square(a, n) && Square(b, n)
    requires forall i: nat, j: nat :: i < n && j < n ==> At(a, i, j) == At(b, i, j)
    ensures a == b
  {
    forall i: nat | i < n
      ensures a[i] == b[i]
    {
      forall j: nat | j < n
        ensures a[i][j] == b[i][j]
      {
        assert At(a, i, j) == At(b, i, j);
      }
    }
  }

  /** The block stored in an array. */
  ghost function Val(a: array2<real>): (m: Mat)
    reads a
    ensures |m| == a.Length0
    ensures a.Length0 == a.Length1 ==> Square(m, a.Length0)
    ensures forall i: nat, j: nat :: i < a.Length0 && j < a.Length1 ==> At(m, i, j) == a[i, j]
  {
    seq(a.Length0, i requires 0 <= i < a.Length0 reads a =>
      seq(a.Length1, j requires 0 <= j < a.Length1 reads a => a[i, j]))
  }

  // ---------------------------------------------------------------- lu0

  /** Entry (i, j) of the diagonal block after the first `k` elimination steps. */
  function Lu0Entry(a: Mat, k: nat, i: nat, j: nat): real
    decreases k, j
  {
    if k == 0 then At(a, i, j)
    else if i < k || j < k - 1 then Lu0Entry(a, k - 1, i, j)
    else if j == k - 1 then Quot(Lu0Entry(a, k - 1, i, j), Lu0Entry(a, k - 1, k - 1, k - 1))
    else Lu0Entry(a, k - 1, i, j) - Lu0Entry(a, k, i, k - 1) * Lu0Entry(a, k - 1, k - 1, j)
  }

  function Lu0(n: nat, a: Mat): Mat {
    Tabulate(n, (i: nat, j: nat) => Lu0Entry(a, n, i, j))
  }

  /** Step `k` leaves the rows up to `k` and the columns before `k` alone. */
  lemma Lu0Kept(a: Mat, k: nat, r: nat, c: nat)
    requires r <= k || c < k
    ensures Lu0Entry(a, k + 1, r, c) == Lu0Entry(a, k, r, c)
  {
  }

  /** What step `k` does to row `i` below the pivot. */
  lemma Lu0Row(a: Mat, k: nat, i: nat, j: nat)
    requires i > k && j >= k
    ensures Lu0Entry(a, k + 1, i, k) == Quot(Lu0Entry(a, k, i, k), Lu0Entry(a, k, k, k))
    ensures j > k ==>
              Lu0Entry(a, k + 1, i, j) == Lu0Entry(a, k, i, j) - Lu0Entry(a, k + 1, i, k) * Lu0Entry(a, k, k, j)
  {
  }

  /** The body of the second loop of `lu0`: row `i` is eliminated against pivot row `k`. */
  method EliminateRow(diag: array2<real>, bsize: nat, k: nat, i: nat)
    requires diag.Length0 == bsize && diag.Length1 == bsize && k < i < bsize
    modifies diag
    ensures diag[i, k] == Quot(old(diag[i, k]), old(diag[k, k]))
    ensures forall j: nat :: k < j < bsize ==> diag[i, j] == old(diag[i, j]) - diag[i, k] * old(diag[k, j])
    ensures forall r: nat, c: nat :: r < bsize && c < bsize && (r != i || c < k) ==> diag[r, c] == old(diag[r, c])
  {
    diag[i, k] := Quot(diag[i, k], diag[k, k]);
    for j := k + 1 to bsize
      invariant diag[i, k] == Quot(old(diag[i, k]), old(diag[k, k]))
      invariant forall c: nat :: k < c < j ==> diag[i, c] == old(diag[i, c]) - diag[i, k] * old(diag[k, c])
      invariant forall c: nat :: j <= c < bsize ==> diag[i, c] == old(diag[i, c])
      invariant forall r: nat, c: nat :: r < bsize && c < bsize && (r != i || c < k) ==> diag[r, c] == old(diag[r, c])
    {
      diag[i, j] := diag[i, j] - diag[i, k] * diag[k, j];
    }
  }

  /** The block after `k` steps, the rows before `i` one step further. */
  ghost predicate Reached(m: array2<real>, bsize: nat, a: Mat, k: nat, i: nat)
    requires m.Length0 == bsize && m.Length1 == bsize
    reads m
  {
    forall r: nat, c: nat :: r < bsize && c < bsize ==> m[r, c] == Lu0Entry(a, if r < i then k + 1 else k, r, c)
  }

  /** One turn of that loop advances row `i`. */
  method AdvanceRow(diag: array2<real>, bsize: nat, k: nat, i: nat, ghost a: Mat)
    requires diag.Length0 == bsize && diag.Length1 == bsize && k < i < bsize && Reached(diag, bsize, a, k, i)
    modifies diag
    ensures Reached(diag, bsize, a, k, i + 1)
  {
    EliminateRow(diag, bsize, k, i);
    forall c: nat | c < bsize
      ensures diag[i, c] == Lu0Entry(a, k + 1, i, c)
    {
      if c < k {
        Lu0Kept(a, k, i, c);
      } else {
        Lu0Kept(a, k, k, c);
        Lu0Kept(a, k, k, k);
        Lu0Row(a, k, i, c);
      }
    }
  }

  /** The body of the outer loop of `lu0`: the rows below pivot `k` are eliminated one after the other. */
  method EliminateBelow(diag: array2<real>, bsize: nat, k: nat, ghost a: Mat)
    requires diag.Length0 == bsize && diag.Length1 == bsize && k < bsize && Reached(diag, bsize, a, k, 0)
    modifies diag
    ensures Reached(diag, bsize, a, k + 1, 0)
  {
    forall r: nat, c: nat | r <= k && c < bsize
      ensures Lu0Entry(a, k + 1, r, c) == Lu0Entry(a, k, r, c)
    {
      Lu0Kept(a, k, r, c);
    }
    for i := k + 1 to bsize
      invariant Reached(diag, bsize, a, k, i)
    {
      AdvanceRow(diag, bsize, k, i, a);
    }
  }

  method Lu0InPlace(diag: array2<real>, bsize: nat)
    requires diag.Length0 == bsize && diag.Length1 == bsize
    modifies diag
    ensures Val(diag) == Lu0(bsize, old(Val(diag)))
  {
    ghost var a := Val(diag);
    for k := 0 to bsize
      invariant Reached(diag, bsize, a, k, 0)
    {
      EliminateBelow(diag, bsize, k, a);
    }
    SameEntries(Val(diag), Lu0(bsize, a), bsize);
  }

  // ---------------------------------------------------------------- fwd

  /** Entry (i, j) of a block right of the diagonal after the first `k` steps of forward substitution. */
  function FwdEntry(d: Mat, a: Mat, k: nat, i: nat, j: nat): real
  {
    if k == 0 then At(a, i, j)
    else if i < k then FwdEntry(d, a, k - 1, i, j)
    else FwdEntry(d, a, k - 1, i, j) - At(d, i, k - 1) * FwdEntry(d, a, k - 1, k - 1, j)
  }

  function Fwd(n: nat, d: Mat, a: Mat): Mat {
    Tabulate(n, (i: nat, j: nat) => FwdEntry(d, a, n, i, j))
  }

  /** One row below row `k`. */
  method FwdRow(diag: array2<real>, col: array2<real>, bsize: nat, k: nat, i: nat)
    requires diag.Length0 == bsize && diag.Length1 == bsize && col.Length0 == bsize && col.Length1 == bsize
    requires diag != col && k < i < bsize
    modifies col
    ensures forall j: nat :: j < bsize ==> col[i, j] == old(col[i, j]) - diag[i, k] * col[k, j]
    ensures forall r: nat, j: nat :: r < bsize && r != i && j < bsize ==> col[r, j] == old(col[r, j])
  {
    for j := 0 to bsize
      invariant forall c: nat :: c < j ==> col[i, c] == old(col[i, c]) - diag[i, k] * col[k, c]
      invariant forall c: nat :: j <= c < bsize ==> col[i, c] == old(col[i, c])
      invariant forall r: nat, c: nat :: r < bsize && r != i && c < bsize ==> col[r, c] == old(col[r, c])
    {
      col[i, j] := col[i, j] - diag[i, k] * col[k, j];
    }
  }

  method FwdStep(diag: array2<real>, col: array2<real>, bsize: nat, k: nat)
    requires diag.Length0 == bsize && diag.Length1 == bsize && col.Length0 == bsize && col.Length1 == bsize
    requires diag != col && k < bsize
    modifies col
    ensures forall i: nat, j: nat ::
            k < i < bsize && j < bsize ==> col[i, j] == old(col[i, j]) - diag[i, k] * old(col[k, j])
    ensures forall i: nat, j: nat :: i <= k && j < bsize ==> col[i, j] == old(col[i, j])
  {
    for i := k + 1 to bsize
      invariant forall r: nat, j: nat ::
                k < r < i && j < bsize ==> col[r, j] == old(col[r, j]) - diag[r, k] * old(col[k, j])
      invariant forall r: nat, j: nat :: (r <= k || i <= r < bsize) && j < bsize ==> col[r, j] == old(col[r, j])
    {
      FwdRow(diag, col, bsize, k, i);
    }
  }

  method FwdInPlace(diag: array2<real>, col: array2<real>, bsize: nat)
    requires diag.Length0 == bsize && diag.Length1 == bsize && col.Length0 == bsize && col.Length1 == bsize
    requires diag != col
    modifies col
    ensures Val(col) == Fwd(bsize, Val(diag), old(Val(col)))
  {
    ghost var d, a := Val(diag), Val(col);
    for k := 0 to bsize
      invariant forall r: nat, c: nat :: r < bsize && c < bsize ==> col[r, c] == FwdEntry(d, a, k, r, c)
    {
      FwdStep(diag, col, bsize, k);
      forall r: nat, c: nat | r < bsize && c < bsize
        ensures col[r, c] == FwdEntry(d, a, k + 1, r, c)
      {
        assert At(d, r, k) == diag[r, k];
      }
    }
    SameEntries(Val(col), Fwd(bsize, d, a), bsize);
  }

  // ---------------------------------------------------------------- bdiv

  /** Entry (i, j) of a block below the diagonal after row `i` has gone through the first `k` steps. */
  function BdivEntry(d: Mat, a: Mat, k: nat, i: nat, j: nat): real
    decreases k, j
  {
    if k == 0 then At(a, i, j)
    else if j < k - 1 then BdivEntry(d, a, k - 1, i, j)
    else if j == k - 1 then Quot(BdivEntry(d, a, k - 1, i, j), At(d, k - 1, k - 1))
    else BdivEntry(d, a, k - 1, i, j) - BdivEntry(d, a, k, i, k - 1) * At(d, k - 1, j)
  }

  function Bdiv(n: nat, d: Mat, a: Mat): Mat {
    Tabulate(n, (i: nat, j: nat) => BdivEntry(d, a, n, i, j))
  }

  method BdivStep(diag: array2<real>, row: array2<real>, bsize: nat, i: nat, k: nat)
    requires diag.Length0 == bsize && diag.Length1 == bsize && row.Length0 == bsize && row.Length1 == bsize
    requires diag != row && i < bsize && k < bsize
    modifies row
    ensures row[i, k] == Quot(old(row[i, k]), diag[k, k])
    ensures forall j: nat :: k < j < bsize ==> row[i, j] == old(row[i, j]) - row[i, k] * diag[k, j]
    ensures forall r: nat, c: nat :: r < bsize && c < bsize && (r != i || c < k) ==> row[r, c] == old(row[r, c])
  {
    row[i, k] := Quot(row[i, k], diag[k, k]);
    for j := k + 1 to bsize
      invariant row[i, k] == Quot(old(row[i, k]), diag[k, k])
      invariant forall c: nat :: k < c < j ==> row[i, c] == old(row[i, c]) - row[i, k] * diag[k, c]
      invariant forall c: nat :: j <= c < bsize ==> row[i, c] == old(row[i, c])
      invariant forall r: nat, c: nat :: r < bsize && c < bsize && (r != i || c < k) ==> row[r, c] == old(row[r, c])
    {
      row[i, j] := row[i, j] - row[i, k] * diag[k, j];
    }
  }

  method BdivRow(diag: array2<real>, row: array2<real>, bsize: nat, i: nat)
    requires diag.Length0 == bsize && diag.Length1 == bsize && row.Length0 == bsize && row.Length1 == bsize
    requires diag != row && i < bsize
    modifies row
    ensures forall c: nat :: c < bsize ==> row[i, c] == BdivEntry(Val(diag), old(Val(row)), bsize, i, c)
    ensures forall r: nat, c: nat :: r < bsize && c < bsize && r != i ==> row[r, c] == old(row[r, c])
  {
    ghost var d, a := Val(diag), Val(row);
    for k := 0 to bsize
      invariant forall c: nat :: c < bsize ==> row[i, c] == BdivEntry(d, a, k, i, c)
      invariant forall r: nat, c: nat :: r < bsize && c < bsize && r != i ==> row[r, c] == old(row[r, c])
    {
      BdivStep(diag, row, bsize, i, k);
      forall c: nat | c < bsize
        ensures row[i, c] == BdivEntry(d, a, k + 1, i, c)
      {
        BdivColumn(d, a, k, i, c);
      }
    }
  }

  lemma BdivColumn(d: Mat, a: Mat, k: nat, i: nat, j: nat)
    ensures j < k ==> BdivEntry(d, a, k + 1, i, j) == BdivEntry(d, a, k, i, j)
    ensures BdivEntry(d, a, k + 1, i, k) == Quot(BdivEntry(d, a, k, i, k), At(d, k, k))
    ensures j > k ==>
            BdivEntry(d, a, k + 1, i, j) == BdivEntry(d, a, k, i, j) - BdivEntry(d, a, k + 1, i, k) * At(d, k, j)
  {
  }

  method BdivInPlace(diag: array2<real>, row: array2<real>, bsize: nat)
    requires diag.Length0 == bsize && diag.Length1 == bsize && row.Length0 == bsize && row.Length1 == bsize
    requires diag != row
    modifies row
    ensures Val(row) == Bdiv(bsize, Val(diag), old(Val(row)))
  {
    ghost var d, a := Val(diag), Val(row);
    for i := 0 to bsize
      invariant forall r: nat, c: nat :: r < i && c < bsize ==> row[r, c] == BdivEntry(d, a, bsize, r, c)
      invariant forall r: nat, c: nat :: i <= r < bsize && c < bsize ==> row[r, c] == At(a, r, c)
    {
      ghost var b := Val(row);
      BdivRow(diag, row, bsize, i);
      forall c: nat | c < bsize
        ensures row[i, c] == BdivEntry(d, a, bsize, i, c)
      {
        BdivLocal(d, a, b, bsize, i, c);
      }
    }
    SameEntries(Val(row), Bdiv(bsize, d, a), bsize);
  }

  /** Each row is solved on its own. */
  lemma {:induction false} BdivLocal(d: Mat, a: Mat, b: Mat, k: nat, i: nat, j: nat)
    requires |a| == |b| && i < |a| && |a[i]| == |b[i]| && forall c: nat :: At(a, i, c) == At(b, i, c)
    ensures BdivEntry(d, a, k, i, j) == BdivEntry(d, b, k, i, j)
    decreases k, j
  {
    if k > 0 {
      BdivLocal(d, a, b, k - 1, i, j);
      if j > k - 1 {
        BdivLocal(d, a, b, k, i, k - 1);
      }
    }
  }

  // ---------------------------------------------------------------- bmod

  /** Entry (i, j) of an inner block after the first `k` products have been subtracted. */
  function BmodEntry(r: Mat, c: Mat, a: Mat, k: nat, i: nat, j: nat): real {
    if k == 0 then At(a, i, j) else BmodEntry(r, c, a, k - 1, i, j) - At(r, i, k - 1) * At(c, k - 1, j)
  }

  function Bmod(n: nat, r: Mat, c: Mat, a: Mat): Mat {
    Tabulate(n, (i: nat, j: nat) => BmodEntry(r, c, a, n, i, j))
  }

  method SubtractRow(row: array2<real>, col: array2<real>, inner: array2<real>, bsize: nat, i: nat)
    requires row.Length0 == bsize && row.Length1 == bsize && col.Length0 == bsize && col.Length1 == bsize
    requires inner.Length0 == bsize && inner.Length1 == bsize && inner != row && inner != col && i < bsize
    modifies inner
    ensures forall c: nat :: c < bsize ==> inner[i, c] == BmodEntry(Val(row), Val(col), old(Val(inner)), bsize, i, c)
    ensures forall r: nat, c: nat :: r < bsize && c < bsize && r != i ==> inner[r, c] == old(inner[r, c])
  {
    ghost var vr, vc, a := Val(row), Val(col), Val(inner);
    for k := 0 to bsize
      invariant forall c: nat :: c < bsize ==> inner[i, c] == BmodEntry(vr, vc, a, k, i, c)
      invariant forall r: nat, c: nat :: r < bsize && c < bsize && r != i ==> inner[r, c] == old(inner[r, c])
    {
      for j := 0 to bsize
        invariant forall c: nat :: c < j ==> inner[i, c] == BmodEntry(vr, vc, a, k + 1, i, c)
        invariant forall c: nat :: j <= c < bsize ==> inner[i, c] == BmodEntry(vr, vc, a, k, i, c)
        invariant forall r: nat, c: nat :: r < bsize && c < bsize && r != i ==> inner[r, c] == old(inner[r, c])
      {
        assert At(vr, i, k) == row[i, k] && At(vc, k, j) == col[k, j];
        inner[i, j] := inner[i, j] - row[i, k] * col[k, j];
      }
    }
  }

  method BmodInPlace(row: array2<real>, col: array2<real>, inner: array2<real>, bsize: nat)
    requires row.Length0 == bsize && row.Length1 == bsize && col.Length0 == bsize && col.Length1 == bsize
    requires inner.Length0 == bsize && inner.Length1 == bsize && inner != row && inner != col
    modifies inner
    ensures Val(inner) == Bmod(bsize, Val(row), Val(col), old(Val(inner)))
  {
    ghost var vr, vc, a := Val(row), Val(col), Val(inner);
    for i := 0 to bsize
      invariant forall r: nat, c: nat :: r < i && c < bsize ==> inner[r, c] == BmodEntry(vr, vc, a, bsize, r, c)
      invariant forall r: nat, c: nat :: i <= r < bsize && c < bsize ==> inner[r, c] == At(a, r, c)
    {
      ghost var b := Val(inner);
      SubtractRow(row, col, inner, bsize, i);
      forall c: nat | c < bsize
        ensures inner[i, c] == BmodEntry(vr, vc, a, bsize, i, c)
      {
        BmodLocal(vr, vc, a, b, bsize, i, c);
      }
    }
    SameEntries(Val(inner), Bmod(bsize, vr, vc, a), bsize);
  }

  lemma {:induction false} BmodLocal(r: Mat, c: Mat, a: Mat, b: Mat, k: nat, i: nat, j: nat)
    requires At(a, i, j) == At(b, i, j)
    ensures BmodEntry(r, c, a, k, i, j) == BmodEntry(r, c, b, k, i, j)
  {
    if k > 0 {
      BmodLocal(r, c, a, b, k - 1, i, j);
    }
  }

  // ---------------------------------------------------------------- what the kernels solve

  /** Sum over m < k of f(m). */
  ghost function SumTo(k: nat, f: nat -> real): real {
    if k == 0 then 0.0 else SumTo(k - 1, f) + f(k - 1)
  }

  /** The unit lower and the upper triangle of a factored diagonal block. */
  function Lower(m: Mat, i: nat, j: nat): real {
    if i == j then 1.0 else if j < i then At(m, i, j) else 0.0
  }

  function Upper(m: Mat, i: nat, j: nat): real {
    if i <= j then At(m, i, j) else 0.0
  }

  ghost function LowerOf(m: Mat): (nat, nat) -> real {
    (i: nat, j: nat) => Lower(m, i, j)
  }

  ghost function UpperOf(m: Mat): (nat, nat) -> real {
    (i: nat, j: nat) => Upper(m, i, j)
  }

  ghost function EntryOf(m: Mat): (nat, nat) -> real {
    (i: nat, j: nat) => At(m, i, j)
  }

  /** Entry (i, j) of the product of the two n by n matrices with entries `x` and `y`. */
  ghost function Product(n: nat, x: (nat, nat) -> real, y: (nat, nat) -> real, i: nat, j: nat): real {
    SumTo(n, Term(x, y, i, j))
  }

  ghost function Term(x: (nat, nat) -> real, y: (nat, nat) -> real, i: nat, j: nat): nat -> real {
    (m: nat) => x(i, m) * y(m, j)
  }

  ghost predicate NonzeroPivots(d: Mat, n: nat) {
    forall k: nat :: k < n ==> At(d, k, k) != 0.0
  }

  lemma {:induction false} SumSame(k: nat, f: nat -> real, g: nat -> real)
    requires forall m: nat :: m < k ==> f(m) == g(m)
    ensures SumTo(k, f) == SumTo(k, g)
  {
    if k > 0 {
      SumSame(k - 1, f, g);
    }
  }

  lemma {:induction false} SumTail(k: nat, n: nat, f: nat -> real)
    requires k <= n && forall m: nat :: k <= m < n ==> f(m) == 0.0
    ensures SumTo(n, f) == SumTo(k, f)
  {
    if k < n {
      SumTail(k, n - 1, f);
    }
  }

  /** A triangular product stops at the smaller of the two indices. */
  lemma TriangularSum(n: nat, f: nat -> real, k: nat, g: nat -> real)
    requires k < n && (forall m: nat :: k < m < n ==> f(m) == 0.0) && (forall m: nat :: m < k ==> f(m) == g(m))
    ensures SumTo(n, f) == SumTo(k, g) + f(k)
  {
    SumTail(k + 1, n, f);
    SumSame(k, f, g);
    assert SumTo(k + 1, f) == SumTo(k, f) + f(k);
  }

  lemma ZeroFactor(x: real, y: real)
    requires x == 0.0 || y == 0.0
    ensures x * y == 0.0
  {
  }

  ghost function Lu0Term(a: Mat, i: nat, j: nat): nat -> real {
    (m: nat) => Lu0Entry(a, m + 1, i, m) * Lu0Entry(a, m, m, j)
  }

  /** Before step `k` the active part is the input minus the products already subtracted. */
  lemma {:induction false} Lu0Active(a: Mat, k: nat, i: nat, j: nat)
    requires i >= k && j >= k
    ensures Lu0Entry(a, k, i, j) == At(a, i, j) - SumTo(k, Lu0Term(a, i, j))
  {
    if k > 0 {
      Lu0Active(a, k - 1, i, j);
      Lu0Row(a, k - 1, i, j);
    }
  }

  /** After step `j` (or row `i`'s own turn) an entry does not change any more. */
  lemma {:induction false} Lu0Settled(a: Mat, k: nat, n: nat, i: nat, j: nat)
    requires k <= n && (i <= k || j < k)
    ensures Lu0Entry(a, n, i, j) == Lu0Entry(a, k, i, j)
  {
    if k < n {
      Lu0Settled(a, k, n - 1, i, j);
      Lu0Kept(a, n - 1, i, j);
    }
  }

  lemma QuotTimes(x: real, y: real)
    requires y != 0.0
    ensures Quot(x, y) * y == x
  {
  }

  ghost function Lu0Sum(n: nat, r: Mat, i: nat, j: nat): nat -> real {
    Term(LowerOf(r), UpperOf(r), i, j)
  }

  lemma Lu0SumSplit(n: nat, a: Mat, i: nat, j: nat, k: nat)
    requires i < n && j < n && k == (if i <= j then i else j)
    ensures SumTo(n, Lu0Sum(n, Lu0(n, a), i, j)) == SumTo(k, Lu0Term(a, i, j)) + Lu0Sum(n, Lu0(n, a), i, j)(k)
  {
    var r := Lu0(n, a);
    var f := Lu0Sum(n, r, i, j);
    forall m: nat | k < m < n
      ensures f(m) == 0.0
    {
      ZeroFactor(Lower(r, i, m), Upper(r, m, j));
    }
    forall m: nat | m < k
      ensures f(m) == Lu0Term(a, i, j)(m)
    {
      Lu0Settled(a, m + 1, n, i, m);
      Lu0Settled(a, m, n, m, j);
    }
    TriangularSum(n, f, k, Lu0Term(a, i, j));
  }

  /** The last term of the product: the entry itself on and above the diagonal, entry times pivot below. */
  lemma Lu0Diagonal(n: nat, a: Mat, i: nat, j: nat, k: nat)
    requires i < n && j < n && k == (if i <= j then i else j) && NonzeroPivots(Lu0(n, a), n)
    ensures Lu0Sum(n, Lu0(n, a), i, j)(k) == Lu0Entry(a, k, i, j)
  {
    var r := Lu0(n, a);
    if i <= j {
      Lu0Settled(a, i, n, i, j);
    } else {
      Lu0Settled(a, j + 1, n, i, j);
      Lu0Settled(a, j, n, j, j);
      Lu0Row(a, j, i, j);
      assert At(r, j, j) != 0.0;
      QuotTimes(Lu0Entry(a, j, i, j), Lu0Entry(a, j, j, j));
    }
  }

  /** `lu0` factors the block: unit lower times upper triangle of the result is the input. */
  lemma Lu0Factors(n: nat, a: Mat, i: nat, j: nat)
    requires i < n && j < n && NonzeroPivots(Lu0(n, a), n)
    ensures var r := Lu0(n, a);
            Product(n, LowerOf(r), UpperOf(r), i, j) == At(a, i, j)
  {
    var k := if i <= j then i else j;
    Lu0SumSplit(n, a, i, j, k);
    Lu0Diagonal(n, a, i, j, k);
    Lu0Active(a, k, i, j);
  }

  ghost function FwdTerm(d: Mat, a: Mat, i: nat, j: nat): nat -> real {
    (m: nat) => At(d, i, m) * FwdEntry(d, a, m, m, j)
  }

  lemma {:induction false} FwdActive(d: Mat, a: Mat, k: nat, i: nat, j: nat)
    requires i >= k
    ensures FwdEntry(d, a, k, i, j) == At(a, i, j) - SumTo(k, FwdTerm(d, a, i, j))
  {
    if k > 0 {
      FwdActive(d, a, k - 1, i, j);
    }
  }

  lemma {:induction false} FwdSettled(d: Mat, a: Mat, k: nat, n: nat, i: nat, j: nat)
    requires i <= k <= n
    ensures FwdEntry(d, a, n, i, j) == FwdEntry(d, a, k, i, j)
  {
    if k < n {
      FwdSettled(d, a, k, n - 1, i, j);
    }
  }

  /** `fwd` solves L X = A for the unit lower triangle L of the diagonal block. */
  lemma FwdSolves(n: nat, d: Mat, a: Mat, i: nat, j: nat)
    requires i < n && j < n
    ensures var x := Fwd(n, d, a);
            Product(n, LowerOf(d), EntryOf(x), i, j) == At(a, i, j)
  {
    var x := Fwd(n, d, a);
    var lo, xs := LowerOf(d), EntryOf(x);
    forall m: nat | m < i
      ensures lo(i, m) * xs(m, j) == FwdTerm(d, a, i, j)(m)
    {
      FwdSettled(d, a, m, n, m, j);
    }
    var f := Term(lo, xs, i, j);
    forall m: nat | i < m < n
      ensures f(m) == 0.0
    {
      ZeroFactor(lo(i, m), xs(m, j));
    }
    TriangularSum(n, f, i, FwdTerm(d, a, i, j));
    FwdActive(d, a, i, i, j);
    FwdSettled(d, a, i, n, i, j);
  }

  ghost function BdivTerm(d: Mat, a: Mat, i: nat, j: nat): nat -> real {
    (m: nat) => BdivEntry(d, a, m + 1, i, m) * At(d, m, j)
  }

  lemma {:induction false} BdivActive(d: Mat, a: Mat, k: nat, i: nat, j: nat)
    requires j >= k
    ensures BdivEntry(d, a, k, i, j) == At(a, i, j) - SumTo(k, BdivTerm(d, a, i, j))
  {
    if k > 0 {
      BdivActive(d, a, k - 1, i, j);
      BdivColumn(d, a, k - 1, i, j);
    }
  }

  lemma {:induction false} BdivSettled(d: Mat, a: Mat, k: nat, n: nat, i: nat, j: nat)
    requires j < k <= n
    ensures BdivEntry(d, a, n, i, j) == BdivEntry(d, a, k, i, j)
  {
    if k < n {
      BdivSettled(d, a, k, n - 1, i, j);
      BdivColumn(d, a, n - 1, i, j);
    }
  }

  lemma BdivTerms(n: nat, d: Mat, a: Mat, i: nat, j: nat, m: nat)
    requires i < n && j < n && m < n
    ensures m < j ==> EntryOf(Bdiv(n, d, a))(i, m) * UpperOf(d)(m, j) == BdivTerm(d, a, i, j)(m)
    ensures m > j ==> EntryOf(Bdiv(n, d, a))(i, m) * UpperOf(d)(m, j) == 0.0
  {
    if m < j {
      BdivSettled(d, a, m + 1, n, i, m);
    } else if m > j {
      ZeroFactor(EntryOf(Bdiv(n, d, a))(i, m), UpperOf(d)(m, j));
    }
  }

  /** Entry (i, j) of the product of the result with the upper triangle, term by term. */
  lemma BdivProduct(n: nat, d: Mat, a: Mat, i: nat, j: nat, xs: (nat, nat) -> real, up: (nat, nat) -> real)
    requires i < n && j < n && xs == EntryOf(Bdiv(n, d, a)) && up == UpperOf(d)
    ensures Product(n, xs, up, i, j) == SumTo(j, BdivTerm(d, a, i, j)) + xs(i, j) * up(j, j)
  {
    var f := Term(xs, up, i, j);
    forall m: nat | m < n
      ensures m < j ==> f(m) == BdivTerm(d, a, i, j)(m)
      ensures m > j ==> f(m) == 0.0
    {
      BdivTerms(n, d, a, i, j, m);
    }
    TriangularSum(n, f, j, BdivTerm(d, a, i, j));
  }

  /** `bdiv` solves X U = A for the upper triangle U of the diagonal block. */
  lemma BdivSolves(n: nat, d: Mat, a: Mat, i: nat, j: nat)
    requires i < n && j < n && NonzeroPivots(d, n)
    ensures var x := Bdiv(n, d, a);
            Product(n, EntryOf(x), UpperOf(d), i, j) == At(a, i, j)
  {
    BdivProduct(n, d, a, i, j, EntryOf(Bdiv(n, d, a)), UpperOf(d));
    BdivActive(d, a, j, i, j);
    BdivSettled(d, a, j + 1, n, i, j);
    BdivColumn(d, a, j, i, j);
    assert At(d, j, j) != 0.0;
  }

  /** `bmod` subtracts a product. */
  lemma {:induction false} BmodSubtracts(r: Mat, c: Mat, a: Mat, n: nat, i: nat, j: nat)
    ensures BmodEntry(r, c, a, n, i, j) ==
            At(a, i, j) - Product(n, EntryOf(r), EntryOf(c), i, j)
  {
    var rs, cs := EntryOf(r), EntryOf(c);
    if n > 0 {
      BmodSubtracts(r, c, a, n - 1, i, j);
    }
  }
}
