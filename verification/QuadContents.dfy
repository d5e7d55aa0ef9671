/** What every cell of a built tree holds: the bodies of its square. */
module QuadContents {
  // The range of a cell holds the bodies of its square, and its children partition it.

  import opened CellTree
  import opened QuadTree
  import opened QuadForest

  /** The square of a cell, without its left and lower edge. */
  ghost predicate InSquare(b: Body, o: Centre, r: real) {
    o.x - r < b.x <= o.x + r && o.y - r < b.y <= o.y + r
  }

  /** The bodies of a sequence that lie in a square, in their order. */
  ghost function Inside(s: seq<Body>, o: Centre, r: real): seq<Body> {
    if s == [] then [] else Inside(s[..|s| - 1], o, r) + (if InSquare(s[|s| - 1], o, r) then [s[|s| - 1]] else [])
  }

  function Quarter(o: Centre, h: real, i: nat): Centre {
    Centre(if i % 2 == 1 then o.x + h else o.x - h, if i / 2 % 2 == 1 then o.y + h else o.y - h)
  }

  lemma QuarterIs(p: Params, o: Centre, level: nat, i: nat)
    ensures ChildCentre(p, o, level, i) == Quarter(o, Radius(p.r, level + 1), i)
  {
  }

  /** The squares of the four children cover the square of the parent, each body in the one of its quadrant. */
  lemma QuarterSquare(b: Body, o: Centre, r: real, i: nat)
    requires i < 4 && r > 0.0
    ensures InSquare(b, Quarter(o, r / 2.0, i), r / 2.0) <==> InSquare(b, o, r) && Quadrant(b, o) == i
  {
    if i == 0 {
    } else if i == 1 {
    } else if i == 2 {
    } else {
    }
  }

  lemma {:induction false} PartOfInside(s: seq<Body>, o: Centre, r: real, i: nat)
    requires i < 4 && r > 0.0
    ensures Part(Inside(s, o, r), o, i) == Inside(s, Quarter(o, r / 2.0, i), r / 2.0)
  {
    if s != [] {
      var n := |s| - 1;
      PartOfInside(s[..n], o, r, i);
      QuarterSquare(s[n], o, r, i);
      var rest := Inside(s[..n], o, r);
      if InSquare(s[n], o, r) {
        PartOne(rest, s[n], o, i);
      } else {
        assert Inside(s, o, r) == rest;
      }
    }
  }

  lemma PartOne(s: seq<Body>, b: Body, o: Centre, i: nat)
    ensures Part(s + [b], o, i) == Part(s, o, i) + (if Quadrant(b, o) == i then [b] else [])
  {
    assert (s + [b])[..|s + [b]| - 1] == s;
  }

  // ---------------------------------------------------------------- the range of a child

  lemma {:induction false} OrderGrows(p: Params, v: Node, depth: nat, i: nat, j: nat)
    requires depth > 0 && i <= j
    ensures OrderUpTo(p, v, depth, i) <= OrderUpTo(p, v, depth, j)
    decreases j
  {
    if i < j {
      OrderGrows(p, v, depth, i, j - 1);
    }
  }

  lemma ChildSlice(t: seq<Body>, done: seq<Body>, next: seq<Body>, child: seq<Body>, at: nat, to: nat)
    requires next == done + child && next <= t && |done| == at && to == at + |child|
    ensures to <= |t| && t[at..to] == child
  {
    assert t[..to] == next;
  }

  /** The child for quadrant `i` has its bodies in its part of the range. */
  lemma ChildRange(p: Params, v: Node, depth: nat, i: nat, t: seq<Body>, at: nat, to: nat, w: Node)
    requires depth > 0 && i < 4 && t == OrderUpTo(p, v, depth, 4) && w == Child(p, v, i)
    requires at == Offset(v.s, v.o, i) && to == at + |w.s|
    ensures to <= |t| && t[at..to] == Order(p, w, depth - 1)
  {
    var done, next, child := OrderUpTo(p, v, depth, i), OrderUpTo(p, v, depth, i + 1), Order(p, w, depth - 1);
    assert next == done + child;
    OrderUpToLength(p, v, depth, i);
    OrderPermutes(p, w, depth - 1);
    OrderGrows(p, v, depth, i + 1, 4);
    ChildSlice(t, done, next, child, at, to);
  }

  lemma SliceOfRange(a: seq<Body>, begin: nat, end: nat, t: seq<Body>, at: nat, to: nat, part: seq<Body>)
    requires begin <= end <= |a| && a[begin..end] == t && at <= to <= |t| && t[at..to] == part
    ensures begin + to <= end && a[begin + at..begin + to] == part
  {
    assert forall k :: at <= k < to ==> t[k] == a[begin + k];
  }

  // ---------------------------------------------------------------- the node of every cell

  /** Cell `t` describes node `w`: the bodies of the input in its square, in its range of the array. */
  ghost predicate Describes(p: Params, cells: seq<Cell>, a: seq<Body>, input: seq<Body>, t: nat, lo: nat, w: Node,
                            depth: nat) {
    var holds :=
      && Subtree(p, cells, t, lo, w, depth) && Splits(p, w, depth)
      && Radius(p.r, w.level) > 0.0 && w.s == Inside(input, w.o, Radius(p.r, w.level))
      && w.begin + |w.s| <= |a| && a[w.begin..w.begin + |w.s|] == Order(p, w, depth);
    holds
  }

  lemma ChildOrdered(p: Params, a: seq<Body>, v: Node, depth: nat, i: nat, w: Node)
    requires !IsLeaf(p, v) && depth > 0 && i < 4 && w == Child(p, v, i)
    requires v.begin + |v.s| <= |a| && a[v.begin..v.begin + |v.s|] == Order(p, v, depth)
    ensures w.begin + |w.s| <= |a| && a[w.begin..w.begin + |w.s|] == Order(p, w, depth - 1)
  {
    var at, t := Offset(v.s, v.o, i), OrderUpTo(p, v, depth, 4);
    OrderIs(p, v, depth, t);
    ChildRange(p, v, depth, i, t, at, at + |w.s|, w);
    SliceOfRange(a, v.begin, v.begin + |v.s|, t, at, at + |w.s|, Order(p, w, depth - 1));
  }

  lemma OrderIs(p: Params, v: Node, depth: nat, t: seq<Body>)
    requires !IsLeaf(p, v) && depth > 0 && t == OrderUpTo(p, v, depth, 4)
    ensures Order(p, v, depth) == t
  {
  }

  lemma ChildSplits(p: Params, v: Node, depth: nat, i: nat, w: Node)
    requires !IsLeaf(p, v) && depth > 0 && i < 4 && w == Child(p, v, i) && Splits(p, v, depth)
    ensures Splits(p, w, depth - 1)
  {
  }

  lemma ChildInside(p: Params, input: seq<Body>, v: Node, i: nat, w: Node)
    requires i < 4 && w == Child(p, v, i) && Radius(p.r, v.level) > 0.0
    requires v.s == Inside(input, v.o, Radius(p.r, v.level))
    ensures Radius(p.r, w.level) > 0.0 && w.s == Inside(input, w.o, Radius(p.r, w.level))
  {
    var r := Radius(p.r, v.level);
    assert Radius(p.r, w.level) == r / 2.0;
    PartOfInside(input, v.o, r, i);
    QuarterIs(p, v.o, v.level, i);
  }

  lemma ChildDescribes(p: Params, cells: seq<Cell>, a: seq<Body>, input: seq<Body>, c: nat, lo: nat, v: Node,
                       depth: nat,
                       i: nat, w: Node, x: nat, m: nat)
    requires Describes(p, cells, a, input, c, lo, v, depth) && !IsLeaf(p, v) && depth > 0 && i < 4
    requires w == Child(p, v, i) && w.s != [] && x == KidAt(lo, v, i) && m == KidLow(p, lo, v, depth, i)
    ensures Describes(p, cells, a, input, x, m, w, depth - 1)
  {
    ChildSubtree(p, cells, c, lo, v, depth, i, w, x, m);
    ChildSplits(p, v, depth, i, w);
    ChildOrdered(p, a, v, depth, i, w);
    ChildInside(p, input, v, i, w);
  }

  lemma ChildSubtree(p: Params, cells: seq<Cell>, c: nat, lo: nat, v: Node, depth: nat, i: nat, w: Node, x: nat, m: nat)
    requires Subtree(p, cells, c, lo, v, depth) && !IsLeaf(p, v) && depth > 0 && i < 4
    requires w == Child(p, v, i) && w.s != [] && x == KidAt(lo, v, i) && m == KidLow(p, lo, v, depth, i)
    ensures Subtree(p, cells, x, m, w, depth - 1)
  {
    assert Kid(p, cells, lo, v, depth, i);
    KidSubtree(p, cells, x, m, w, depth - 1);
  }

  lemma KidSubtree(p: Params, cells: seq<Cell>, x: nat, m: nat, w: Node, depth: nat)
    requires KidIs(p, cells, x, m, w, depth) && w.s != []
    ensures Subtree(p, cells, x, m, w, depth)
  {
  }

  /** Which child a cell below a node is, or lies under. */
  lemma WhichChild(p: Params, lo: nat, v: Node, depth: nat, t: nat) returns (i: nat)
    requires depth > 0 && !IsLeaf(p, v) && lo <= t < lo + Below(p, v, depth)
    ensures i < 4 && Child(p, v, i).s != []
    ensures t == KidAt(lo, v, i) || KidLow(p, lo, v, depth, i) <= t < KidLow(p, lo, v, depth, i + 1)
  {
    if t < lo + Kids(v) {
      i := NthPart(v.s, v.o, t - lo);
    } else {
      i := 0;
      while KidLow(p, lo, v, depth, i + 1) <= t
        invariant i < 4 && KidLow(p, lo, v, depth, i) <= t
        decreases 4 - i
      {
        i := i + 1;
      }
    }
  }

  lemma {:induction false} NodeOf(p: Params, cells: seq<Cell>, a: seq<Body>, input: seq<Body>, c: nat, lo: nat,
                                  v: Node, depth: nat, t: nat)
    returns (low: nat, w: Node, d: nat)
    requires Describes(p, cells, a, input, c, lo, v, depth) && (t == c || lo <= t < lo + Below(p, v, depth))
    ensures Describes(p, cells, a, input, t, low, w, d)
    decreases depth
  {
    if t == c {
      low, w, d := lo, v, depth;
    } else {
      var i := WhichChild(p, lo, v, depth, t);
      KidInside(p, lo, v, depth, i);
      ChildDescribes(p, cells, a, input, c, lo, v, depth, i, Child(p, v, i), KidAt(lo, v, i),
                     KidLow(p, lo, v, depth, i));
      low, w, d := NodeOf(p, cells, a, input, KidAt(lo, v, i), KidLow(p, lo, v, depth, i), Child(p, v, i), depth - 1,
                          t);
    }
  }

  // ---------------------------------------------------------------- children partition the range of their parent

  lemma {:induction false} FlatOffset(s: seq<Body>, o: Centre, i: nat, j: nat)
    requires i <= j && Rank(s, o, i) == Rank(s, o, j)
    ensures Offset(s, o, i) == Offset(s, o, j)
    decreases j
  {
    if i < j {
      RankSteps(s, o, i, j - 1);
      FlatOffset(s, o, i, j - 1);
    }
  }

  lemma {:induction false} RankSteps(s: seq<Body>, o: Centre, i: nat, j: nat)
    requires i <= j
    ensures Rank(s, o, i) <= Rank(s, o, j) <= Rank(s, o, j + 1)
    decreases j
  {
    if i < j {
      RankSteps(s, o, i, j - 1);
    }
  }

  /** From one child to the next: a later quadrant, and a range that starts where the first one ends. */
  lemma NextChild(s: seq<Body>, o: Centre, i: nat, j: nat)
    requires i < 4 && j < 4 && Part(s, o, i) != [] && Part(s, o, j) != [] && Rank(s, o, j) == Rank(s, o, i) + 1
    ensures i < j && Offset(s, o, j) == Offset(s, o, i) + |Part(s, o, i)|
  {
    if j <= i {
      RankSteps(s, o, j, i);
    }
    var next := i + 1;
    FlatOffset(s, o, next, j);
  }

  lemma FirstChild(s: seq<Body>, o: Centre, i: nat)
    requires i < 4 && Rank(s, o, i) == 0
    ensures Offset(s, o, i) == 0
  {
    FlatOffset(s, o, 0, i);
  }

  lemma LastChild(s: seq<Body>, o: Centre, i: nat)
    requires i < 4 && Part(s, o, i) != [] && Rank(s, o, i) + 1 == Rank(s, o, 4)
    ensures Offset(s, o, i) + |Part(s, o, i)| == |s|
  {
    var next := i + 1;
    FlatOffset(s, o, next, 4);
    PartsTogether(s, o);
  }

  /** The number of the quadrant that a child covers, read off the centres. */
  function QuadrantNumber(child: Cell, parent: Cell): nat {
    (if child.x > parent.x then 1 else 0) + (if child.y > parent.y then 2 else 0)
  }

  /** Neighbouring children: the second one covers a later quadrant and its range follows that of the first one. */
  ghost predicate Follows(first: Cell, second: Cell, parent: Cell) {
    second.begin == first.begin + first.nbody && QuadrantNumber(first, parent) < QuadrantNumber(second, parent)
  }

  /** The children of `c` partition its range in the order of their quadrants, none of them empty. */
  ghost predicate Partitioned(cells: seq<Cell>, c: nat)
    requires c < |cells|
  {
    var cell := cells[c];
    var first, end := cell.child, cell.child + cell.nchild;
    && first < end <= |cells|
    && cells[first].begin == cell.begin && cells[end - 1].begin + cells[end - 1].nbody == cell.begin + cell.nbody
    && (forall q :: first <= q < end ==> cells[q].nbody > 0)
    && (forall q, next :: first <= q && next == q + 1 && next < end ==> Follows(cells[q], cells[next], cell))
  }

  /** What cell `c` promises: its own index, a range of the array the bodies came from that holds exactly the bodies of
      its square, no children exactly if these are few enough, and children that partition the range otherwise. */
  ghost predicate CellHolds(p: Params, cells: seq<Cell>, a: seq<Body>, input: seq<Body>, c: nat)
    requires c < |cells|
  {
    var cell := cells[c];
    && cell.index == c && cell.body == p.home && cell.begin + cell.nbody <= |a|
    && multiset(a[cell.begin..cell.begin + cell.nbody]) == multiset(Inside(input, Centre(cell.x, cell.y), cell.r))
    && (cell.nchild == 0 <==> cell.nbody <= p.ncrit) && (cell.nchild > 0 ==> Partitioned(cells, c))
  }

  /** The k-th child is the one for some quadrant i. */
  lemma KthChild(p: Params, cells: seq<Cell>, c: nat, lo: nat, v: Node, depth: nat, k: nat) returns (i: nat)
    requires Subtree(p, cells, c, lo, v, depth) && !IsLeaf(p, v) && depth > 0 && k < Kids(v)
    requires Radius(p.r, v.level) > 0.0
    ensures i < 4 && Part(v.s, v.o, i) != [] && Rank(v.s, v.o, i) == k && lo + k < |cells|
    ensures cells[lo + k].begin == v.begin + Offset(v.s, v.o, i) && cells[lo + k].nbody == |Part(v.s, v.o, i)|
    ensures QuadrantNumber(cells[lo + k], cells[c]) == i
  {
    i := NthPart(v.s, v.o, k);
    assert Kid(p, cells, lo, v, depth, i);
    KidCell(p, cells, KidAt(lo, v, i), KidLow(p, lo, v, depth, i), Child(p, v, i), depth - 1);
    QuarterNumber(v.o, Radius(p.r, v.level + 1), i, cells[lo + k], cells[c]);
    QuarterIs(p, v.o, v.level, i);
  }

  lemma QuarterNumber(o: Centre, h: real, i: nat, child: Cell, parent: Cell)
    requires i < 4 && h > 0.0 && child.x == Quarter(o, h, i).x && child.y == Quarter(o, h, i).y && parent.x == o.x
    requires parent.y == o.y
    ensures QuadrantNumber(child, parent) == i
  {
    if i == 0 {
    } else if i == 1 {
    } else if i == 2 {
    } else {
    }
  }

  lemma ChildFollows(p: Params, cells: seq<Cell>, c: nat, lo: nat, v: Node, depth: nat, k: nat, l: nat)
    requires Subtree(p, cells, c, lo, v, depth) && !IsLeaf(p, v) && depth > 0 && Radius(p.r, v.level) > 0.0
    requires l == k + 1 < Kids(v)
    ensures lo + l < |cells| && c < |cells| && Follows(cells[lo + k], cells[lo + l], cells[c])
  {
    var i := KthChild(p, cells, c, lo, v, depth, k);
    var j := KthChild(p, cells, c, lo, v, depth, l);
    NextChild(v.s, v.o, i, j);
  }

  /** The first child starts where the parent starts. */
  lemma ChildrenStart(p: Params, cells: seq<Cell>, c: nat, lo: nat, v: Node, depth: nat)
    requires Subtree(p, cells, c, lo, v, depth) && !IsLeaf(p, v) && depth > 0 && Radius(p.r, v.level) > 0.0
    requires Kids(v) > 0
    ensures lo < |cells| && cells[lo].begin == v.begin
  {
    var i := KthChild(p, cells, c, lo, v, depth, 0);
    FirstChild(v.s, v.o, i);
    assert lo + 0 == lo;
  }

  /** The last child ends where the parent ends. */
  lemma ChildrenEnd(p: Params, cells: seq<Cell>, c: nat, lo: nat, v: Node, depth: nat, last: nat)
    requires Subtree(p, cells, c, lo, v, depth) && !IsLeaf(p, v) && depth > 0 && Radius(p.r, v.level) > 0.0
    requires last + 1 == Kids(v)
    ensures lo + last < |cells| && cells[lo + last].begin + cells[lo + last].nbody == v.begin + |v.s|
  {
    var j := KthChild(p, cells, c, lo, v, depth, last);
    LastChild(v.s, v.o, j);
  }

  lemma CellOf(p: Params, cells: seq<Cell>, c: nat, lo: nat, v: Node, depth: nat)
    requires Subtree(p, cells, c, lo, v, depth)
    ensures c < |cells| && CellIs(p, cells[c], c, v)
    ensures !IsLeaf(p, v) && depth > 0 ==> cells[c].child == lo && cells[c].nchild == Kids(v) && Kids(v) > 0
    ensures IsLeaf(p, v) ==> cells[c].nchild == 0
  {
    SomePart(v.s, v.o);
  }

  lemma ChildrenPartition(p: Params, cells: seq<Cell>, c: nat, lo: nat, v: Node, depth: nat)
    requires Subtree(p, cells, c, lo, v, depth) && !IsLeaf(p, v) && depth > 0 && Radius(p.r, v.level) > 0.0
    ensures c < |cells| && Partitioned(cells, c)
  {
    var n := Kids(v);
    CellOf(p, cells, c, lo, v, depth);
    ChildrenStart(p, cells, c, lo, v, depth);
    ChildrenEnd(p, cells, c, lo, v, depth, n - 1);
    forall q | lo <= q < lo + n
      ensures cells[q].nbody > 0
    {
      var i := KthChild(p, cells, c, lo, v, depth, q - lo);
    }
    forall q, next | lo <= q && next == q + 1 && next < lo + n
      ensures Follows(cells[q], cells[next], cells[c])
    {
      ChildFollows(p, cells, c, lo, v, depth, q - lo, next - lo);
    }
  }

  lemma SomePart(s: seq<Body>, o: Centre)
    ensures s != [] ==> Rank(s, o, 4) > 0
  {
    if s != [] && Rank(s, o, 4) == 0 {
      FlatOffset(s, o, 0, 4);
      PartsTogether(s, o);
    }
  }

  lemma SplitsDeep(p: Params, v: Node, depth: nat)
    requires Splits(p, v, depth) && !IsLeaf(p, v)
    ensures depth > 0
  {
  }

  /** What a node says about its range. */
  lemma RangeHolds(p: Params, cells: seq<Cell>, a: seq<Body>, input: seq<Body>, t: nat, lo: nat, w: Node, depth: nat)
    requires Describes(p, cells, a, input, t, lo, w, depth)
    ensures w.begin + |w.s| <= |a|
    ensures multiset(a[w.begin..w.begin + |w.s|]) == multiset(Inside(input, w.o, Radius(p.r, w.level)))
  {
    OrderPermutes(p, w, depth);
  }

  lemma NodeHolds(p: Params, cells: seq<Cell>, a: seq<Body>, input: seq<Body>, t: nat, lo: nat, w: Node, depth: nat)
    requires Describes(p, cells, a, input, t, lo, w, depth)
    ensures t < |cells| && CellHolds(p, cells, a, input, t)
  {
    RangeHolds(p, cells, a, input, t, lo, w, depth);
    CellOf(p, cells, t, lo, w, depth);
    if !IsLeaf(p, w) {
      SplitsDeep(p, w, depth);
      ChildrenPartition(p, cells, t, lo, w, depth);
    }
  }

  /** Every cell holds what it promises. */
  lemma EveryCellHolds(p: Params, cells: seq<Cell>, a: seq<Body>, input: seq<Body>, v: Node, depth: nat, t: nat)
    requires Describes(p, cells, a, input, 0, 1, v, depth) && |cells| == 1 + Below(p, v, depth) && t < |cells|
    ensures CellHolds(p, cells, a, input, t)
  {
    var low, w, d := NodeOf(p, cells, a, input, 0, 1, v, depth, t);
    NodeHolds(p, cells, a, input, t, low, w, d);
  }
}
