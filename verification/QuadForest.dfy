/** The cells of a built tree: children behind parents, one parent each, every child a quadrant of its parent. */
module QuadForest {
  import opened CellTree
  import opened QuadTree

  function Range(a: nat, b: nat): (r: set<nat>)
    requires a <= b
    ensures forall q: nat :: q in r <==> a <= q < b
    decreases b
  {
    if a == b then {} else Range(a, b - 1) + {b - 1}
  }

  /** The children of the cells in `owners` are exactly the cells from a to b, each of them once, each behind its parent
      and one of its quadrants. */
  ghost predicate Forest(cells: seq<Cell>, owners: set<nat>, a: nat, b: nat) {
    && b <= |cells|
    && (forall p: nat :: p in owners ==> Behind(cells, p, a, b))
    && (forall q: nat :: a <= q < b ==> Fathered(cells, owners, q))
    && (forall p: nat, q: nat ::
        p in owners && ChildOf(cells, q, p) ==> a <= q < b && p < q && QuadrantOf(cells[q], cells[p]))
    && (forall p: nat, p': nat, q: nat ::
        p in owners && p' in owners && ChildOf(cells, q, p) && ChildOf(cells, q, p') ==> p == p')
  }

  /** The children of `p` lie behind it, between a and b. */
  ghost predicate Behind(cells: seq<Cell>, p: nat, a: nat, b: nat) {
    p < |cells| && (cells[p].nchild > 0 ==>
                    p < cells[p].child && a <= cells[p].child && cells[p].child + cells[p].nchild <= b)
  }

  ghost predicate Fathered(cells: seq<Cell>, owners: set<nat>, q: nat) {
    exists p: nat :: p in owners && ChildOf(cells, q, p)
  }

  lemma ForestsJoin(cells: seq<Cell>, o1: set<nat>, o2: set<nat>, a: nat, m: nat, b: nat)
    requires Forest(cells, o1, a, m) && Forest(cells, o2, m, b) && a <= m <= b
    ensures Forest(cells, o1 + o2, a, b)
  {
    forall q: nat | a <= q < b
      ensures Fathered(cells, o1 + o2, q)
    {
      if q < m {
        assert Fathered(cells, o1, q);
      } else {
        assert Fathered(cells, o2, q);
      }
    }
  }

  // ---------------------------------------------------------------- which quadrant the k-th child is for

  lemma NthPart(s: seq<Body>, o: Centre, k: nat) returns (i: nat)
    requires k < Rank(s, o, 4)
    ensures i < 4 && Rank(s, o, i) == k && Part(s, o, i) != []
  {
    i := 0;
    while !(Rank(s, o, i) == k && Part(s, o, i) != [])
      invariant i < 4 && Rank(s, o, i) <= k
      decreases 4 - i
    {
      i := i + 1;
    }
  }

  lemma KidCell(p: Params, cells: seq<Cell>, c: nat, lo: nat, w: Node, depth: nat)
    requires KidIs(p, cells, c, lo, w, depth) && w.s != []
    ensures c < |cells| && CellIs(p, cells[c], c, w)
  {
    assert Subtree(p, cells, c, lo, w, depth);
  }

  lemma ChildQuadrant(p: Params, cells: seq<Cell>, c: nat, lo: nat, v: Node, depth: nat, i: nat)
    requires depth > 0 && i < 4 && c < |cells| && CellIs(p, cells[c], c, v) && Kid(p, cells, lo, v, depth, i)
    requires Part(v.s, v.o, i) != []
    ensures KidAt(lo, v, i) < |cells| && QuadrantOf(cells[KidAt(lo, v, i)], cells[c])
  {
    KidCell(p, cells, KidAt(lo, v, i), KidLow(p, lo, v, depth, i), Child(p, v, i), depth - 1);
    assert Radius(p.r, v.level + 1) == Radius(p.r, v.level) / 2.0;
  }

  /** The children of one cell. */
  lemma OwnChildren(p: Params, cells: seq<Cell>, c: nat, lo: nat, v: Node, depth: nat)
    requires Subtree(p, cells, c, lo, v, depth) && !IsLeaf(p, v) && depth > 0
    ensures Forest(cells, {c}, lo, lo + Kids(v))
  {
    forall q: nat | ChildOf(cells, q, c)
      ensures lo <= q < lo + Kids(v) && c < q && QuadrantOf(cells[q], cells[c])
    {
      var i := NthPart(v.s, v.o, q - lo);
      assert Kid(p, cells, lo, v, depth, i);
      ChildQuadrant(p, cells, c, lo, v, depth, i);
    }
    forall q: nat | lo <= q < lo + Kids(v)
      ensures Fathered(cells, {c}, q)
    {
      assert ChildOf(cells, q, c);
    }
  }

  // ---------------------------------------------------------------- a subtree is a forest

  lemma {:induction false} SubtreeForest(p: Params, cells: seq<Cell>, c: nat, lo: nat, v: Node, depth: nat)
    requires Subtree(p, cells, c, lo, v, depth)
    ensures Forest(cells, {c} + Range(lo, lo + Below(p, v, depth)), lo, lo + Below(p, v, depth))
    decreases depth, 1, 0
  {
    if IsLeaf(p, v) || depth == 0 {
      assert {c} + Range(lo, lo) == {c};
    } else {
      var n, hi := Kids(v), lo + Below(p, v, depth);
      KidsForest(p, cells, c, lo, v, depth, 4);
      OwnChildren(p, cells, c, lo, v, depth);
      ForestsJoin(cells, {c}, Range(lo, lo + n) + Range(lo + n, hi), lo, lo + n, hi);
      assert {c} + (Range(lo, lo + n) + Range(lo + n, hi)) == {c} + Range(lo, hi);
    }
  }

  /** The children before index x, which start at lo, and the cells from n to m below them. */
  ghost predicate KidsAre(cells: seq<Cell>, lo: nat, n: nat, x: nat, m: nat) {
    var holds := lo <= x && n <= m && Forest(cells, Range(lo, x) + Range(n, m), n, m);
    holds
  }

  /** The first children, up to quadrant `i`, and everything below them. */
  lemma {:induction false} KidsForest(p: Params, cells: seq<Cell>, c: nat, lo: nat, v: Node, depth: nat, i: nat)
    requires Subtree(p, cells, c, lo, v, depth) && !IsLeaf(p, v) && depth > 0 && i <= 4
    ensures KidsAre(cells, lo, lo + Kids(v), KidAt(lo, v, i), KidLow(p, lo, v, depth, i))
    decreases depth, 0, i
  {
    if i > 0 {
      var j := i - 1;
      KidsForest(p, cells, c, lo, v, depth, j);
      assert Kid(p, cells, lo, v, depth, j);
      KidJoins(p, cells, lo, v, depth, j, KidAt(lo, v, i), KidLow(p, lo, v, depth, i));
    }
  }

  lemma KidJoins(p: Params, cells: seq<Cell>, lo: nat, v: Node, depth: nat, i: nat, x': nat, m': nat)
    requires depth > 0 && i < 4 && !IsLeaf(p, v) && Kid(p, cells, lo, v, depth, i)
    requires x' == KidAt(lo, v, i + 1) && m' == KidLow(p, lo, v, depth, i + 1)
    requires KidsAre(cells, lo, lo + Kids(v), KidAt(lo, v, i), KidLow(p, lo, v, depth, i))
    ensures KidsAre(cells, lo, lo + Kids(v), x', m')
    decreases depth - 1, 3, 0
  {
    var w := Child(p, v, i);
    if w.s == [] {
      KidNumbers(p, lo, v, depth, i);
    } else {
      KidInside(p, lo, v, depth, i);
      RankOf(v.s, v.o, i);
      SubtreeJoins(p, cells, lo, lo + Kids(v), KidAt(lo, v, i), KidLow(p, lo, v, depth, i), x', m', w, depth - 1);
    }
  }

  lemma KidNumbers(p: Params, lo: nat, v: Node, depth: nat, i: nat)
    requires depth > 0 && Child(p, v, i).s == []
    ensures KidAt(lo, v, i + 1) == KidAt(lo, v, i) && KidLow(p, lo, v, depth, i + 1) == KidLow(p, lo, v, depth, i)
  {
  }

  lemma RangesJoin(lo: nat, x: nat, x': nat, n: nat, m: nat, m': nat)
    requires lo <= x && x' == x + 1 && n <= m <= m'
    ensures Range(lo, x) + Range(n, m) + ({x} + Range(m, m')) == Range(lo, x') + Range(n, m')
  {
  }

  lemma SubtreeJoins(p: Params, cells: seq<Cell>, lo: nat, n: nat, x: nat, m: nat, x': nat, m': nat, w: Node,
                     depth: nat)
    requires KidIs(p, cells, x, m, w, depth) && w.s != [] && x < n && x' == x + 1 && m' == m + Below(p, w, depth)
    requires KidsAre(cells, lo, n, x, m)
    ensures KidsAre(cells, lo, n, x', m')
    decreases depth, 2, 0
  {
    SubtreeForest(p, cells, x, m, w, depth);
    ForestsJoin(cells, Range(lo, x) + Range(n, m), {x} + Range(m, m'), n, m, m');
    RangesJoin(lo, x, x', n, m, m');
  }

  /** A complete tree has the three properties that the traversal needs. */
  lemma TreeIsProper(p: Params, cells: seq<Cell>, v: Node, depth: nat)
    requires Subtree(p, cells, 0, 1, v, depth) && |cells| == 1 + Below(p, v, depth) && p.r >= 0.0
    ensures WellFormed(cells) && Rooted(cells) && Quadrants(cells)
  {
    SubtreeForest(p, cells, 0, 1, v, depth);
    RadiusStart(p, cells, v, depth);
    var owners := {0} + Range(1, |cells|);
    forall c: nat | 0 < c < |cells|
      ensures HasParent(cells, c)
    {
      assert Fathered(cells, owners, c);
    }
    forall q: nat, a: nat | ChildOf(cells, q, a)
      ensures a in owners && a < q && QuadrantOf(cells[q], cells[a])
    {
      assert a in owners;
    }
    forall a: nat | a < |cells|
      ensures Behind(cells, a, 1, |cells|) && cells[a].r >= 0.0
    {
      assert a in owners;
      RadiusPositive(cells, owners, a);
    }
  }

  lemma RadiusStart(p: Params, cells: seq<Cell>, v: Node, depth: nat)
    requires Subtree(p, cells, 0, 1, v, depth) && p.r >= 0.0
    ensures |cells| > 0 && cells[0].r >= 0.0
  {
    RadiusNotNegative(p.r, v.level);
  }

  lemma {:induction false} RadiusNotNegative(r: real, level: nat)
    requires r >= 0.0
    ensures Radius(r, level) >= 0.0
  {
    if level > 0 {
      RadiusNotNegative(r, level - 1);
    }
  }

  lemma {:induction false} RadiusPositive(cells: seq<Cell>, owners: set<nat>, t: nat)
    requires |cells| > 0 && cells[0].r >= 0.0 && Forest(cells, owners, 1, |cells|) && t < |cells|
    ensures cells[t].r >= 0.0
    decreases t
  {
    if t > 0 {
      assert Fathered(cells, owners, t);
      var a: nat :| a in owners && ChildOf(cells, t, a);
      RadiusPositive(cells, owners, a);
    }
  }
}
