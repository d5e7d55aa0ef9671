/** From the bodies to the interaction lists: bounding square, tree, traversal. */
module FmmTree {
  import opened CellTree
  import opened QuadTree
  import opened QuadForest
  import opened QuadContents
  import opened QuadDepth
  import opened QuadBuild
  import opened InteractionLists
  import opened TraversalOrder

  // ---------------------------------------------------------------- the bounding square

  function Coord(b: Body, d: nat): real {
    if d == 0 then b.x else b.y
  }

  function Min(a: real, b: real): real {
    if a < b then a else b
  }

  function Max(a: real, b: real): real {
    if a > b then a else b
  }

  function Lowest(s: seq<Body>, d: nat): real
    requires s != []
  {
    if |s| == 1 then Coord(s[0], d) else Min(Coord(s[|s| - 1], d), Lowest(s[..|s| - 1], d))
  }

  function Highest(s: seq<Body>, d: nat): real
    requires s != []
  {
    if |s| == 1 then Coord(s[0], d) else Max(Coord(s[|s| - 1], d), Highest(s[..|s| - 1], d))
  }

  lemma {:induction false} Bounded(s: seq<Body>, d: nat, k: nat)
    requires k < |s|
    ensures Lowest(s, d) <= Coord(s[k], d) <= Highest(s, d)
  {
    if |s| > 1 && k < |s| - 1 {
      Bounded(s[..|s| - 1], d, k);
    }
  }

  function Middle(s: seq<Body>, d: nat): real
    requires s != []
  {
    (Highest(s, d) + Lowest(s, d)) / 2.0
  }

  function CentreOf(s: seq<Body>): Centre
    requires s != []
  {
    Centre(Middle(s, 0), Middle(s, 1))
  }

  /** The largest distance of an edge from the centre. */
  function Reach(s: seq<Body>): real
    requires s != []
  {
    var r0 := Max(Highest(s, 0) - Middle(s, 0), Max(Middle(s, 0) - Lowest(s, 0), 0.0));
    Max(Highest(s, 1) - Middle(s, 1), Max(Middle(s, 1) - Lowest(s, 1), r0))
  }

  function RadiusOf(s: seq<Body>): real
    requires s != []
  {
    Reach(s) * 1.00001
  }

  /** Every body lies within the reach; the leeway puts it inside the square. */
  lemma RootSquare(s: seq<Body>, k: nat)
    requires k < |s|
    ensures RadiusOf(s) >= 0.0 && (RadiusOf(s) > 0.0 ==> InSquare(s[k], CentreOf(s), RadiusOf(s)))
    ensures RadiusOf(s) == 0.0 ==> s[k].x == CentreOf(s).x && s[k].y == CentreOf(s).y
  {
    Bounded(s, 0, k);
    Bounded(s, 1, k);
  }

  function CoordOf(o: Centre, d: nat): real {
    if d == 0 then o.x else o.y
  }

  /** How far a body lies from the centre in one dimension. */
  function Off(b: Body, o: Centre, d: nat): real {
    if Coord(b, d) > CoordOf(o, d) then Coord(b, d) - CoordOf(o, d) else CoordOf(o, d) - Coord(b, d)
  }

  /** Body `k` is the lowest and body `l` the highest in the dimension. */
  ghost predicate Extremes(s: seq<Body>, d: nat, k: nat, l: nat)
    requires k < |s| && l < |s|
  {
    forall m :: 0 <= m < |s| ==> Coord(s[k], d) <= Coord(s[m], d) <= Coord(s[l], d)
  }

  ghost predicate Balances(s: seq<Body>, o: Centre, d: nat, k: nat, l: nat) {
    && k < |s| && l < |s| && Extremes(s, d, k, l)
    && CoordOf(o, d) - Coord(s[k], d) == Coord(s[l], d) - CoordOf(o, d)
  }

  /** The centre is as far from the lowest body as from the highest one. */
  ghost predicate Halfway(s: seq<Body>, o: Centre, d: nat) {
    exists k: nat, l: nat :: Balances(s, o, d, k, l)
  }

  /** The radius is that of the body furthest off in any dimension, with the leeway. */
  ghost predicate Furthest(s: seq<Body>, r0: real, o: Centre) {
    && (forall k, d :: 0 <= k < |s| && 0 <= d < 2 ==> Off(s[k], o, d) * 1.00001 <= r0)
    && (exists k, d :: 0 <= k < |s| && 0 <= d < 2 && Off(s[k], o, d) * 1.00001 == r0)
  }

  ghost predicate Bounding(s: seq<Body>, r0: real, o: Centre) {
    Halfway(s, o, 0) && Halfway(s, o, 1) && Furthest(s, r0, o)
  }

  lemma {:induction false} Attained(s: seq<Body>, d: nat) returns (k: nat, l: nat)
    requires s != []
    ensures k < |s| && l < |s| && Coord(s[k], d) == Lowest(s, d) && Coord(s[l], d) == Highest(s, d)
  {
    if |s| == 1 {
      k, l := 0, 0;
    } else {
      var n := |s| - 1;
      k, l := Attained(s[..n], d);
      k := if Coord(s[n], d) < Coord(s[k], d) then n else k;
      l := if Coord(s[n], d) > Coord(s[l], d) then n else l;
    }
  }

  lemma MiddleHalfway(s: seq<Body>, d: nat, o: Centre)
    requires s != [] && CoordOf(o, d) == Middle(s, d)
    ensures Halfway(s, o, d)
    ensures Highest(s, d) - Middle(s, d) == Middle(s, d) - Lowest(s, d) >= 0.0
    ensures exists k :: 0 <= k < |s| && Off(s[k], o, d) == Highest(s, d) - Middle(s, d)
    ensures forall k :: 0 <= k < |s| ==> Off(s[k], o, d) <= Highest(s, d) - Middle(s, d)
  {
    var k, l := Attained(s, d);
    forall m | 0 <= m < |s|
      ensures Coord(s[k], d) <= Coord(s[m], d) <= Coord(s[l], d)
    {
      Bounded(s, d, m);
    }
    assert Balances(s, o, d, k, l);
  }

  /** The centre and the radius of the root are those of the smallest square around the bodies, with the leeway. */
  lemma RootBounds(s: seq<Body>, o: Centre)
    requires s != [] && o == CentreOf(s)
    ensures Bounding(s, RadiusOf(s), o)
  {
    MiddleHalfway(s, 0, o);
    MiddleHalfway(s, 1, o);
    var d := if Highest(s, 0) - Middle(s, 0) > Highest(s, 1) - Middle(s, 1) then 0 else 1;
    assert Reach(s) == Highest(s, d) - Middle(s, d);
    var k :| 0 <= k < |s| && Off(s[k], o, d) == Highest(s, d) - Middle(s, d);
    assert Off(s[k], o, d) * 1.00001 == RadiusOf(s);
  }

  lemma SameMiddle(s: seq<Body>, o: Centre, o': Centre, d: nat)
    requires Halfway(s, o, d) && Halfway(s, o', d)
    ensures CoordOf(o, d) == CoordOf(o', d)
  {
    var k: nat, l: nat :| Balances(s, o, d, k, l);
    var i: nat, j: nat :| Balances(s, o', d, i, j);
  }

  /** Only one square is bounding. */
  lemma BoundingUnique(s: seq<Body>, r: real, o: Centre, r': real, o': Centre)
    requires Bounding(s, r, o) && Bounding(s, r', o')
    ensures r == r' && o == o'
  {
    SameMiddle(s, o, o', 0);
    SameMiddle(s, o, o', 1);
    var k, d :| 0 <= k < |s| && 0 <= d < 2 && Off(s[k], o, d) * 1.00001 == r;
    var i, e :| 0 <= i < |s| && 0 <= e < 2 && Off(s[i], o', e) * 1.00001 == r';
    assert Off(s[k], o', d) * 1.00001 <= r' && Off(s[i], o, e) * 1.00001 <= r;
  }

  method GetBounds(bodies: array<Body>) returns (r0: real, o: Centre)
    requires bodies.Length > 0
    ensures r0 == RadiusOf(bodies[..]) && o == CentreOf(bodies[..])
    ensures Bounding(bodies[..], r0, o)
  {
    var xmin, xmax, ymin, ymax := bodies[0].x, bodies[0].x, bodies[0].y, bodies[0].y;
    ghost var s := bodies[..];
    for b := 0 to bodies.Length
      invariant var t := if b == 0 then s[..1] else s[..b];
                xmin == Lowest(t, 0) && xmax == Highest(t, 0) && ymin == Lowest(t, 1) && ymax == Highest(t, 1)
    {
      assert b > 0 ==> s[..b + 1][..b] == s[..b];
      xmin, xmax := Min(bodies[b].x, xmin), Max(bodies[b].x, xmax);
      ymin, ymax := Min(bodies[b].y, ymin), Max(bodies[b].y, ymax);
    }
    assert s[..bodies.Length] == s;
    o := Centre((xmax + xmin) / 2.0, (ymax + ymin) / 2.0);
    r0 := 0.0;
    r0 := Max(o.x - xmin, r0);
    r0 := Max(xmax - o.x, r0);
    r0 := Max(o.y - ymin, r0);
    r0 := Max(ymax - o.y, r0);
    r0 := r0 * 1.00001;
    RootBounds(s, o);
  }

  lemma {:induction false} AllInside(s: seq<Body>, o: Centre, r: real)
    requires forall k :: 0 <= k < |s| ==> InSquare(s[k], o, r)
    ensures Inside(s, o, r) == s
  {
    if s != [] {
      var n := |s| - 1;
      AllInside(s[..n], o, r);
      assert s == s[..n] + [s[n]];
    }
  }

  // ---------------------------------------------------------------- the tree

  function Root(s: seq<Body>): Node
    requires s != []
  {
    Node(s, 0, CentreOf(s), 0)
  }

  /** The recursion on a set of bodies ends exactly if no more than `ncrit` of them lie at any one point. */
  lemma BuildEnds(p: Params, s: seq<Body>)
    requires s != [] && p.r == RadiusOf(s)
    ensures (exists depth: nat :: Splits(p, Root(s), depth)) <==> FewCoincide(s, p.ncrit)
  {
    RootSquare(s, 0);
    RootWithin(s);
    SplitsIffFew(p, Root(s));
  }

  lemma RootWithin(s: seq<Body>)
    requires s != []
    ensures AllWithin(s, CentreOf(s), RadiusOf(s))
  {
    forall k | 0 <= k < |s|
      ensures Within(s[k], CentreOf(s), RadiusOf(s))
    {
      Bounded(s, 0, k);
      Bounded(s, 1, k);
    }
  }

  /** The cells are a proper tree below the bounding square, and each of them holds the bodies of its square. When all
      bodies lie at one point the square has no inside; the tree then is one cell with all of them. */
  ghost predicate TreeOk(p: Params, cells: seq<Cell>, a: seq<Body>, input: seq<Body>) {
    && WellFormed(cells) && Rooted(cells) && Quadrants(cells) && multiset(a) == multiset(input)
    && cells[0].r == p.r && Bounding(input, p.r, Centre(cells[0].x, cells[0].y))
    && (p.r > 0.0 ==> forall t: nat :: t < |cells| ==> CellHolds(p, cells, a, input, t))
    && (p.r == 0.0 ==> |cells| == 1 && cells[0].nchild == 0 && cells[0].begin == 0 && cells[0].nbody == |a| <= p.ncrit)
  }

  lemma RootDescribes(p: Params, cells: seq<Cell>, a: seq<Body>, input: seq<Body>, v: Node, depth: nat)
    requires input != [] && v == Root(input) && p.r == RadiusOf(input) > 0.0 && Splits(p, v, depth)
    requires Subtree(p, cells, 0, 1, v, depth) && a == Order(p, v, depth)
    ensures Describes(p, cells, a, input, 0, 1, v, depth)
  {
    forall k | 0 <= k < |input|
      ensures InSquare(input[k], v.o, p.r)
    {
      RootSquare(input, k);
    }
    AllInside(input, v.o, p.r);
    OrderPermutes(p, v, depth);
    assert a[0..|a|] == a;
  }

  lemma PointTree(p: Params, cells: seq<Cell>, input: seq<Body>, v: Node, depth: nat)
    requires input != [] && v == Root(input) && p.r == RadiusOf(input) == 0.0 && Splits(p, v, depth)
    requires Subtree(p, cells, 0, 1, v, depth)
    ensures IsLeaf(p, v) && cells[0].nchild == 0 && cells[0].begin == 0 && cells[0].nbody == |input|
  {
    forall k | 0 <= k < |input|
      ensures SamePoint(input[k], input[0])
    {
      RootSquare(input, k);
      RootSquare(input, 0);
    }
    AllAtPoint(input, input[0]);
    SplitsMeansFew(p, v, depth, input[0]);
    CellOf(p, cells, 0, 1, v, depth);
  }

  lemma TreeIsOk(p: Params, cells: seq<Cell>, a: seq<Body>, input: seq<Body>, v: Node, depth: nat)
    requires input != [] && v == Root(input) && p.r == RadiusOf(input) && Splits(p, v, depth)
    requires Subtree(p, cells, 0, 1, v, depth) && |cells| == 1 + Below(p, v, depth) && a == Order(p, v, depth)
    ensures TreeOk(p, cells, a, input)
  {
    RootSquare(input, 0);
    OrderPermutes(p, v, depth);
    TreeIsProper(p, cells, v, depth);
    RootBounds(input, v.o);
    CellOf(p, cells, 0, 1, v, depth);
    if p.r > 0.0 {
      RootDescribes(p, cells, a, input, v, depth);
      forall t: nat | t < |cells|
        ensures CellHolds(p, cells, a, input, t)
      {
        EveryCellHolds(p, cells, a, input, v, depth, t);
      }
    } else {
      PointTree(p, cells, input, v, depth);
    }
  }

  /** The build of the whole tree. */
  method BuildTree(bodies: array<Body>, ncrit: nat) returns (cells: seq<Cell>)
    requires bodies.Length > 0 && FewCoincide(bodies[..], ncrit)
    modifies bodies
    ensures TreeOk(Params(ncrit, RadiusOf(old(bodies[..])), bodies), cells, bodies[..], old(bodies[..]))
  {
    ghost var input := bodies[..];
    var r0, o := GetBounds(bodies);
    var buffer := new Body[bodies.Length](k requires 0 <= k < bodies.Length reads bodies => bodies[k]);
    var builder := new Builder(Params(ncrit, r0, bodies));
    assert bodies[0..bodies.Length] == bodies[..];
    BuildEnds(builder.p, input);
    ghost var depth: nat :| Splits(builder.p, Root(input), depth);
    builder.BuildCells(bodies, buffer, 0, bodies.Length, 0, o, 0, false, depth, Root(input));
    cells := builder.cells;
    assert bodies[0..bodies.Length] == bodies[..];
    TreeIsOk(builder.p, cells, bodies[..], input, Root(input), depth);
  }

  /** The first steps of the program: the lists hold exactly the pairs at which the descent that opens the larger cell
      first ends, and every leaf is on its own P2P list. */
  method BuildLists(bodies: array<Body>, ncrit: nat) returns (cells: seq<Cell>, traversal: Traversal)
    requires bodies.Length > 0 && FewCoincide(bodies[..], ncrit)
    modifies bodies
    ensures TreeOk(Params(ncrit, RadiusOf(old(bodies[..])), bodies), cells, bodies[..], old(bodies[..]))
    ensures traversal.Valid() && traversal.s == SameTree(cells, 0.4) && Regular(cells)
    ensures forall t: nat, u: nat :: t < |cells| ==>
              (u in traversal.listM2L[t] <==> Belongs(cells, 0.4, Entry(t, u, true))) &&
              (u in traversal.listP2P[t] <==> Belongs(cells, 0.4, Entry(t, u, false)))
    ensures forall t: nat :: t < |cells| && Leaf(cells, t) ==> t in traversal.listP2P[t]
  {
    cells := BuildTree(bodies, ncrit);
    traversal := new Traversal(SameTree(cells, 0.4));
    traversal.HorizontalPass();
    forall t: nat, u: nat | t < |cells|
      ensures u in traversal.listM2L[t] <==> Belongs(cells, 0.4, Entry(t, u, true))
      ensures u in traversal.listP2P[t] <==> Belongs(cells, 0.4, Entry(t, u, false))
    {
      LargerFirst(cells, 0.4, t, u, true);
      LargerFirst(cells, 0.4, t, u, false);
    }
    forall t: nat | t < |cells| && Leaf(cells, t)
      ensures t in traversal.listP2P[t]
    {
      LeafMeetsItself(cells, 0.4, t);
    }
  }
}
