/** When the recursive build of the quadtree ends. */
module QuadDepth {
  // A cell splits as long as more than `ncrit` bodies lie in it, and bodies at one point always stay together. So the
  // recursion ends exactly if at most `ncrit` bodies lie at any one point: bodies at different points are apart by
  // some distance, and the squares get smaller than that.

  import opened CellTree
  import opened QuadTree

  /** How many bodies lie where `b` does. */
  function AtPoint(s: seq<Body>, b: Body): nat {
    if s == [] then 0 else AtPoint(s[..|s| - 1], b) + (if SamePoint(s[|s| - 1], b) then 1 else 0)
  }

  predicate SamePoint(a: Body, b: Body) {
    a.x == b.x && a.y == b.y
  }

  predicate FewCoincide(s: seq<Body>, ncrit: nat) {
    forall k :: 0 <= k < |s| ==> AtPoint(s, s[k]) <= ncrit
  }

  // ---------------------------------------------------------------- bodies at one point stay together

  lemma {:induction false} AtPointAtMost(s: seq<Body>, b: Body)
    ensures AtPoint(s, b) <= |s|
  {
    if s != [] {
      AtPointAtMost(s[..|s| - 1], b);
    }
  }

  lemma PartLast(s: seq<Body>, o: Centre, i: nat, b: Body)
    requires s != []
    ensures var last := s[|s| - 1];
            AtPoint(Part(s, o, i), b) == AtPoint(Part(s[..|s| - 1], o, i), b)
                                         + (if Quadrant(last, o) == i && SamePoint(last, b) then 1 else 0)
  {
    var last, part := s[|s| - 1], Part(s[..|s| - 1], o, i);
    assert part + [] == part && (part + [last])[..|part|] == part;
  }

  lemma {:induction false} PartKeepsPoint(s: seq<Body>, o: Centre, b: Body)
    ensures AtPoint(Part(s, o, Quadrant(b, o)), b) == AtPoint(s, b)
  {
    if s != [] {
      PartKeepsPoint(s[..|s| - 1], o, b);
      PartLast(s, o, Quadrant(b, o), b);
    }
  }

  lemma {:induction false} SplitsMeansFew(p: Params, v: Node, depth: nat, b: Body)
    requires Splits(p, v, depth)
    ensures AtPoint(v.s, b) <= p.ncrit
    decreases depth
  {
    if IsLeaf(p, v) {
      AtPointAtMost(v.s, b);
    } else {
      var i := Quadrant(b, v.o);
      PartKeepsPoint(v.s, v.o, b);
      SplitsMeansFew(p, Child(p, v, i), depth - 1, b);
    }
  }

  // ---------------------------------------------------------------- bodies at different points get separated

  function Distance(a: real, b: real): real {
    if a < b then b - a else a - b
  }

  predicate Within(b: Body, o: Centre, r: real) {
    Distance(b.x, o.x) <= r && Distance(b.y, o.y) <= r
  }

  predicate AllWithin(s: seq<Body>, o: Centre, r: real) {
    forall k :: 0 <= k < |s| ==> Within(s[k], o, r)
  }

  /** Coordinates are equal or at least `gap` apart. */
  predicate Apart(a: Body, b: Body, gap: real) {
    && (a.x == b.x || Distance(a.x, b.x) >= gap)
    && (a.y == b.y || Distance(a.y, b.y) >= gap)
  }

  predicate AllApart(s: seq<Body>, gap: real) {
    forall k, l :: 0 <= k < |s| && 0 <= l < |s| ==> Apart(s[k], s[l], gap)
  }

  function Smaller(a: real, b: real): real {
    if a < b then a else b
  }

  /** Some positive distance separates `b` from all bodies. */
  lemma {:induction false} GapFrom(s: seq<Body>, b: Body) returns (gap: real)
    ensures gap > 0.0 && forall k :: 0 <= k < |s| ==> Apart(s[k], b, gap)
  {
    gap := 1.0;
    if s != [] {
      var n := |s| - 1;
      var rest := GapFrom(s[..n], b);
      var x, y := Distance(s[n].x, b.x), Distance(s[n].y, b.y);
      gap := Smaller(rest, Smaller(if x > 0.0 then x else 1.0, if y > 0.0 then y else 1.0));
      forall k | 0 <= k < |s|
        ensures Apart(s[k], b, gap)
      {
        assert k < n ==> Apart(s[..n][k], b, rest);
      }
    }
  }

  lemma {:induction false} GapOf(s: seq<Body>) returns (gap: real)
    ensures gap > 0.0 && AllApart(s, gap)
  {
    gap := 1.0;
    if s != [] {
      var n := |s| - 1;
      var rest := GapOf(s[..n]);
      var last := GapFrom(s, s[n]);
      gap := Smaller(rest, last);
      forall k, l | 0 <= k < |s| && 0 <= l < |s|
        ensures Apart(s[k], s[l], gap)
      {
        assert Apart(s[k], s[n], last) && Apart(s[l], s[n], last);
        assert k < n && l < n ==> Apart(s[..n][k], s[..n][l], rest);
      }
    }
  }

  lemma {:induction false} RadiusFalls(r: real, level: nat)
    requires r >= 0.0
    ensures 0.0 <= Radius(r, level) && Radius(r, level) * (level + 1) as real <= r
  {
    if level > 0 {
      var q, n := Radius(r, level - 1), level as real;
      RadiusFalls(r, level - 1);
      assert q / 2.0 * (n + 1.0) == q * n - q * (n - 1.0) / 2.0;
      assert q * (n - 1.0) >= 0.0;
    }
  }

  /** Halving often enough makes the radius smaller than any distance. */
  lemma RadiusBelow(r: real, gap: real) returns (level: nat)
    requires r >= 0.0 && gap > 0.0
    ensures Radius(r, level) < gap
  {
    level := (r / gap).Floor;
    RadiusFalls(r, level);
    var q, n := Radius(r, level), (level + 1) as real;
    assert n * gap > r by {
      assert n > r / gap;
      assert r == r / gap * gap;
    }
    if q >= gap {
      assert q * n >= gap * n;
    }
  }

  /** A quadrant has half the radius and the bodies in it are within that. */
  lemma QuadrantWithin(b: Body, o: Centre, r: real, c: Centre, i: nat)
    requires Within(b, o, r) && i == Quadrant(b, o)
    requires c.x == (if i % 2 == 1 then o.x + r / 2.0 else o.x - r / 2.0)
    requires c.y == (if i / 2 % 2 == 1 then o.y + r / 2.0 else o.y - r / 2.0)
    ensures Within(b, c, r / 2.0)
  {
  }

  /** What a quadrant inherits from its cell. */
  lemma {:induction false} PartInherits(s: seq<Body>, o: Centre, i: nat, k: nat) returns (l: nat)
    requires k < |Part(s, o, i)|
    ensures l < |s| && Part(s, o, i)[k] == s[l] && Quadrant(s[l], o) == i
  {
    var n := |s| - 1;
    if k < |Part(s[..n], o, i)| {
      l := PartInherits(s[..n], o, i, k);
    } else {
      l := n;
    }
  }

  lemma {:induction false} PartAtMost(s: seq<Body>, o: Centre, i: nat, b: Body)
    ensures AtPoint(Part(s, o, i), b) <= AtPoint(s, b)
  {
    if s != [] {
      PartAtMost(s[..|s| - 1], o, i, b);
      PartLast(s, o, i, b);
    }
  }

  /** What the recursion needs of a node: its bodies are inside its square, apart, and few at each point. */
  ghost predicate Separable(p: Params, v: Node, gap: real) {
    AllWithin(v.s, v.o, Radius(p.r, v.level)) && AllApart(v.s, gap) && FewCoincide(v.s, p.ncrit)
  }

  lemma ChildSeparable(p: Params, v: Node, gap: real, i: nat)
    requires Separable(p, v, gap) && i < 4
    ensures Separable(p, Child(p, v, i), gap)
  {
    var w := Child(p, v, i);
    forall k | 0 <= k < |w.s|
      ensures Within(w.s[k], w.o, Radius(p.r, w.level)) && AtPoint(w.s, w.s[k]) <= p.ncrit
    {
      var l := PartInherits(v.s, v.o, i, k);
      QuadrantWithin(v.s[l], v.o, Radius(p.r, v.level), w.o, i);
      PartAtMost(v.s, v.o, i, v.s[l]);
    }
    forall k, m | 0 <= k < |w.s| && 0 <= m < |w.s|
      ensures Apart(w.s[k], w.s[m], gap)
    {
      var k0 := PartInherits(v.s, v.o, i, k);
      var m0 := PartInherits(v.s, v.o, i, m);
      assert Apart(v.s[k0], v.s[m0], gap);
    }
  }

  lemma {:induction false} AllAtPoint(s: seq<Body>, b: Body)
    requires forall k :: 0 <= k < |s| ==> SamePoint(s[k], b)
    ensures AtPoint(s, b) == |s|
  {
    if s != [] {
      AllAtPoint(s[..|s| - 1], b);
    }
  }

  /** In a square smaller than the distance between the bodies they all coincide. */
  lemma SmallIsLeaf(p: Params, v: Node, gap: real)
    requires Separable(p, v, gap) && 2.0 * Radius(p.r, v.level) < gap
    ensures IsLeaf(p, v)
  {
    if v.s != [] {
      forall k | 0 <= k < |v.s|
        ensures SamePoint(v.s[k], v.s[0])
      {
        assert Apart(v.s[k], v.s[0], gap) && Within(v.s[0], v.o, Radius(p.r, v.level));
      }
      AllAtPoint(v.s, v.s[0]);
    }
  }

  lemma {:induction false} FewMeansSplits(p: Params, v: Node, gap: real, depth: nat)
    requires Separable(p, v, gap) && 2.0 * Radius(p.r, v.level + depth) < gap
    ensures Splits(p, v, depth)
    decreases depth
  {
    if depth == 0 {
      SmallIsLeaf(p, v, gap);
    } else {
      forall i: nat | i < 4
        ensures Splits(p, Child(p, v, i), depth - 1)
      {
        ChildSeparable(p, v, gap, i);
        FewMeansSplits(p, Child(p, v, i), gap, depth - 1);
      }
    }
  }

  /** With few bodies at each point there is a number of levels that separates them. */
  lemma EnoughLevels(p: Params, v: Node) returns (depth: nat)
    requires v.level == 0 && p.r >= 0.0 && AllWithin(v.s, v.o, p.r) && FewCoincide(v.s, p.ncrit)
    ensures Splits(p, v, depth)
  {
    var gap := GapOf(v.s);
    depth := RadiusBelow(p.r, gap / 2.0);
    FewMeansSplits(p, v, gap, depth);
  }

  /** The recursion from a root square ends exactly if no more than `ncrit` bodies lie at any one point. */
  lemma SplitsIffFew(p: Params, v: Node)
    requires v.level == 0 && p.r >= 0.0 && AllWithin(v.s, v.o, p.r)
    ensures (exists depth: nat :: Splits(p, v, depth)) <==> FewCoincide(v.s, p.ncrit)
  {
    if FewCoincide(v.s, p.ncrit) {
      var depth := EnoughLevels(p, v);
      assert Splits(p, v, depth);
    }
    if depth: nat :| Splits(p, v, depth) {
      forall k | 0 <= k < |v.s|
        ensures AtPoint(v.s, v.s[k]) <= p.ncrit
      {
        SplitsMeansFew(p, v, depth, v.s[k]);
      }
    }
  }
}
