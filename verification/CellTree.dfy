/** The cells of the quadtree: a sequence in which every cell names the range of its children. */
module CellTree {

  /** Position and charge of a body: what the build moves. */
  datatype Body = Body(x: real, y: real, q: real)

  /** Index of a cell, its children, its centre and radius, and its bodies: an array, where they start and how many. */
  datatype Cell = Cell(index: nat, child: nat, nchild: nat, x: real, y: real, r: real,
                       body: array?<Body>, begin: nat, nbody: nat)

  ghost predicate ChildOf(cells: seq<Cell>, c: nat, p: nat) {
    p < |cells| && c < |cells| && cells[p].child <= c < cells[p].child + cells[p].nchild
  }

  /** Children lie behind their parent, inside the sequence, and have one parent each. */
  ghost predicate WellFormed(cells: seq<Cell>) {
    && (forall p: nat ::
        p < |cells| && cells[p].nchild > 0 ==> p < cells[p].child && cells[p].child + cells[p].nchild <= |cells|)
    && (forall c: nat, p: nat, q: nat :: ChildOf(cells, c, p) && ChildOf(cells, c, q) ==> p == q)
  }

  predicate Leaf(cells: seq<Cell>, i: nat)
    requires i < |cells|
  {
    cells[i].nchild == 0
  }

  /** Cell `t` is cell `i` or one of its descendants. */
  ghost predicate Under(cells: seq<Cell>, i: nat, t: nat)
    decreases t
  {
    t == i || exists p: nat :: p < t && ChildOf(cells, t, p) && Under(cells, i, p)
  }

  lemma {:induction false} UnderGrows(cells: seq<Cell>, i: nat, t: nat)
    requires Under(cells, i, t)
    ensures i <= t
    decreases t
  {
    if t != i {
      var p: nat :| p < t && ChildOf(cells, t, p) && Under(cells, i, p);
      UnderGrows(cells, i, p);
    }
  }

  lemma {:induction false} UnderTransitive(cells: seq<Cell>, i: nat, m: nat, t: nat)
    requires Under(cells, i, m) && Under(cells, m, t)
    ensures Under(cells, i, t)
    decreases t
  {
    if t != m {
      var p: nat :| p < t && ChildOf(cells, t, p) && Under(cells, m, p);
      UnderTransitive(cells, i, m, p);
    }
  }

  lemma ChildUnder(cells: seq<Cell>, i: nat, c: nat)
    requires WellFormed(cells) && ChildOf(cells, c, i)
    ensures Under(cells, i, c)
  {
    assert Under(cells, i, i);
  }

  /** A proper descendant lies under one of the children. */
  lemma {:induction false} BranchOf(cells: seq<Cell>, i: nat, t: nat) returns (c: nat)
    requires WellFormed(cells) && Under(cells, i, t) && t != i
    ensures ChildOf(cells, c, i) && Under(cells, c, t)
    decreases t
  {
    var p: nat :| p < t && ChildOf(cells, t, p) && Under(cells, i, p);
    if p == i {
      c := t;
    } else {
      c := BranchOf(cells, i, p);
    }
  }

  /** No cell lies under two different children of the same cell. */
  lemma {:induction false} BranchUnique(cells: seq<Cell>, i: nat, c: nat, d: nat, t: nat)
    requires WellFormed(cells) && ChildOf(cells, c, i) && ChildOf(cells, d, i)
    requires Under(cells, c, t) && Under(cells, d, t)
    ensures c == d
    decreases t
  {
    if t == c {
      if t != d {
        NotUnderParent(cells, i, c, d);
      }
    } else if t == d {
      NotUnderParent(cells, i, d, c);
    } else {
      var p: nat :| p < t && ChildOf(cells, t, p) && Under(cells, c, p);
      var q: nat :| q < t && ChildOf(cells, t, q) && Under(cells, d, q);
      BranchUnique(cells, i, c, d, p);
    }
  }

  lemma NotUnderParent(cells: seq<Cell>, i: nat, c: nat, d: nat)
    requires WellFormed(cells) && ChildOf(cells, c, i) && ChildOf(cells, d, i) && c != d
    ensures !Under(cells, d, c)
  {
    if Under(cells, d, c) {
      var p: nat :| p < c && ChildOf(cells, c, p) && Under(cells, d, p);
      UnderGrows(cells, d, p);
    }
  }

  lemma LeafUnder(cells: seq<Cell>, i: nat, t: nat)
    requires WellFormed(cells) && i < |cells| && Leaf(cells, i) && Under(cells, i, t)
    ensures t == i
  {
    if t != i {
      var c := BranchOf(cells, i, t);
    }
  }

  /** Two cells above the same cell are above one another. */
  lemma {:induction false} Chain(cells: seq<Cell>, a: nat, b: nat, t: nat)
    requires WellFormed(cells) && Under(cells, a, t) && Under(cells, b, t)
    ensures Under(cells, a, b) || Under(cells, b, a)
    decreases t
  {
    if t != a && t != b {
      var p: nat :| p < t && ChildOf(cells, t, p) && Under(cells, a, p);
      var q: nat :| q < t && ChildOf(cells, t, q) && Under(cells, b, q);
      Chain(cells, a, b, p);
    }
  }

  /** Every cell but the first one is the child of some cell. */
  ghost predicate Rooted(cells: seq<Cell>) {
    |cells| > 0 && forall c: nat :: 0 < c < |cells| ==> HasParent(cells, c)
  }

  ghost predicate HasParent(cells: seq<Cell>, c: nat) {
    exists p: nat :: ChildOf(cells, c, p)
  }

  lemma {:induction false} AllUnderRoot(cells: seq<Cell>, t: nat)
    requires WellFormed(cells) && Rooted(cells) && t < |cells|
    ensures Under(cells, 0, t)
    decreases t
  {
    if t > 0 {
      assert HasParent(cells, t);
      var p: nat :| ChildOf(cells, t, p);
      assert p < t;
      AllUnderRoot(cells, p);
    }
  }

  // ---------------------------------------------------------------- geometry

  /** A child covers one quadrant of the square of its parent. */
  ghost predicate Quadrants(cells: seq<Cell>) {
    && (forall i: nat :: i < |cells| ==> cells[i].r >= 0.0)
    && (forall c: nat, p: nat :: ChildOf(cells, c, p) ==> QuadrantOf(cells[c], cells[p]))
  }

  ghost predicate QuadrantOf(c: Cell, p: Cell) {
    && c.r == p.r / 2.0
    && (c.x == p.x - c.r || c.x == p.x + c.r) && (c.y == p.y - c.r || c.y == p.y + c.r)
  }

  /** The square of `t` lies inside that of `i`. */
  ghost predicate Nested(t: Cell, i: Cell) {
    && 0.0 <= t.r <= i.r
    && -(i.r - t.r) <= t.x - i.x <= i.r - t.r && -(i.r - t.r) <= t.y - i.y <= i.r - t.r
  }

  lemma {:induction false} UnderIsNested(cells: seq<Cell>, i: nat, t: nat)
    requires WellFormed(cells) && Quadrants(cells) && i < |cells| && t < |cells| && Under(cells, i, t)
    ensures Nested(cells[t], cells[i])
    decreases t
  {
    if t != i {
      var p: nat :| p < t && ChildOf(cells, t, p) && Under(cells, i, p);
      UnderIsNested(cells, i, p);
    }
  }

  /** The far-field test of the traversal, over exact reals. */
  predicate FarField(theta: real, a: Cell, b: Cell) {
    var dx, dy := a.x - b.x, a.y - b.y;
    (dx * dx + dy * dy) * theta * theta > (a.r + b.r) * (a.r + b.r)
  }

  lemma SquareBelow(d: real, m: real)
    requires -m <= d <= m
    ensures d * d <= m * m
  {
    if d >= 0.0 {
      assert d * d <= m * d <= m * m;
    } else {
      assert d * d == (-d) * (-d) <= m * (-d) <= m * m;
    }
  }

  lemma Scaled(a: real, b: real, k: real)
    requires a <= b && k >= 0.0
    ensures a * k <= b * k
  {
  }

  lemma Halved(q: real, dd: real, mm: real, sq: real)
    requires q <= 2.0 * dd && 0.0 <= dd <= mm && sq >= 0.0 && 2.0 * sq <= 1.0
    ensures q * sq <= mm
  {
    var z := dd * sq;
    Scaled(q, 2.0 * dd, sq);
    assert (2.0 * dd) * sq == 2.0 * z;
    Scaled(sq, 0.5, dd);
    assert sq * dd == z && 0.5 * dd >= z;
  }

  lemma NonNegativeSquare(d: real)
    ensures d * d >= 0.0
  {
  }

  /** Nested cells are never far from each other, for any theta whose square is at most one half, as that of 0.4 is. */
  lemma NestedNotFar(theta: real, t: Cell, i: Cell)
    requires Nested(t, i) && 2.0 * (theta * theta) <= 1.0
    ensures !FarField(theta, i, t) && !FarField(theta, t, i)
  {
    var d, dx, dy := i.r - t.r, t.x - i.x, t.y - i.y;
    SquareBelow(dx, d);
    SquareBelow(dy, d);
    SquareBelow(d, i.r + t.r);
    var q, sq, m := dx * dx + dy * dy, theta * theta, i.r + t.r;
    NonNegativeSquare(theta);
    NonNegativeSquare(d);
    Halved(q, d * d, m * m, sq);
    SameDistance(theta, t, i, q, sq);
  }

  lemma SameDistance(theta: real, t: Cell, i: Cell, q: real, sq: real)
    requires q == (t.x - i.x) * (t.x - i.x) + (t.y - i.y) * (t.y - i.y) && sq == theta * theta
    ensures FarField(theta, i, t) <==> q * sq > (i.r + t.r) * (i.r + t.r)
    ensures FarField(theta, t, i) <==> q * sq > (i.r + t.r) * (i.r + t.r)
  {
    assert (i.x - t.x) * (i.x - t.x) == (t.x - i.x) * (t.x - i.x);
    assert (i.y - t.y) * (i.y - t.y) == (t.y - i.y) * (t.y - i.y);
    assert q * theta * theta == q * sq;
  }
}
