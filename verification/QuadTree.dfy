/** The quadtree of a sequence of bodies: the order in which it stores them, and what its cells say. */
module QuadTree {
  import opened CellTree

  datatype Centre = Centre(x: real, y: real)

  /** Which quadrant around `o` a body belongs to. */
  function Quadrant(b: Body, o: Centre): (i: nat)
    ensures i < 4
  {
    (if b.x > o.x then 1 else 0) + (if b.y > o.y then 2 else 0)
  }

  /** The bodies of one quadrant, in their order. */
  function Part(s: seq<Body>, o: Centre, i: nat): seq<Body> {
    if s == [] then []
    else Part(s[..|s| - 1], o, i) + (if Quadrant(s[|s| - 1], o) == i then [s[|s| - 1]] else [])
  }

  /** How many bodies lie in the quadrants before `i`. */
  function Offset(s: seq<Body>, o: Centre, i: nat): nat {
    if i == 0 then 0 else Offset(s, o, i - 1) + |Part(s, o, i - 1)|
  }

  /** How many of the quadrants before `i` are not empty. */
  function Rank(s: seq<Body>, o: Centre, i: nat): nat {
    if i == 0 then 0 else Rank(s, o, i - 1) + (if Part(s, o, i - 1) != [] then 1 else 0)
  }

  function Radius(r: real, level: nat): real {
    if level == 0 then r else Radius(r, level - 1) / 2.0
  }

  /** The bodies of a cell, where they start, the centre of the cell and its level. */
  datatype Node = Node(s: seq<Body>, begin: nat, o: Centre, level: nat)

  /** Parameters of the build: leaf capacity, radius of the root, and the array that the bodies come from. */
  datatype Params = Params(ncrit: nat, r: real, home: array<Body>)

  /** The centre of quadrant `i` of a cell. */
  function ChildCentre(p: Params, o: Centre, level: nat, i: nat): Centre {
    var h := Radius(p.r, level + 1);
    Centre(if i % 2 == 1 then o.x + h else o.x - h, if i / 2 % 2 == 1 then o.y + h else o.y - h)
  }

  function Child(p: Params, v: Node, i: nat): Node {
    Node(Part(v.s, v.o, i), v.begin + Offset(v.s, v.o, i), ChildCentre(p, v.o, v.level, i), v.level + 1)
  }

  predicate IsLeaf(p: Params, v: Node) {
    |v.s| <= p.ncrit
  }

  /** The recursion ends after at most `depth` levels: no more than that are needed until every part fits a leaf. */
  ghost predicate Splits(p: Params, v: Node, depth: nat)
    decreases depth
  {
    IsLeaf(p, v) || (depth > 0 && forall i: nat :: i < 4 ==> Splits(p, Child(p, v, i), depth - 1))
  }

  /** The order in which the bodies end up. */
  ghost function Order(p: Params, v: Node, depth: nat): seq<Body>
    decreases depth, 0
  {
    if IsLeaf(p, v) || depth == 0 then v.s else OrderUpTo(p, v, depth, 4)
  }

  /** The bodies of the first `i` quadrants, each in its final order. */
  ghost function OrderUpTo(p: Params, v: Node, depth: nat, i: nat): seq<Body>
    requires depth > 0
    decreases depth - 1, i + 1
  {
    if i == 0 then [] else OrderUpTo(p, v, depth, i - 1) + Order(p, Child(p, v, i - 1), depth - 1)
  }

  function Kids(v: Node): nat {
    Rank(v.s, v.o, 4)
  }

  /** How many cells lie below the cell of these bodies. */
  ghost function Below(p: Params, v: Node, depth: nat): nat
    decreases depth, 0
  {
    if IsLeaf(p, v) || depth == 0 then 0 else Kids(v) + BelowUpTo(p, v, depth, 4)
  }

  /** How many cells lie below the children in the first `i` quadrants. */
  ghost function BelowUpTo(p: Params, v: Node, depth: nat, i: nat): nat
    requires depth > 0
    decreases depth - 1, i + 1
  {
    if i == 0 then 0
    else BelowUpTo(p, v, depth, i - 1) + (if Child(p, v, i - 1).s == [] then 0
                                          else Below(p, Child(p, v, i - 1), depth - 1))
  }

  /** Cell `c` and the cells from `lo` on describe the node. */
  ghost predicate Subtree(p: Params, cells: seq<Cell>, c: nat, lo: nat, v: Node, depth: nat)
    decreases depth, 0
  {
    var holds :=
      && c < lo && lo + Below(p, v, depth) <= |cells| && CellIs(p, cells[c], c, v)
      && (if IsLeaf(p, v) || depth == 0 then cells[c].nchild == 0
          else cells[c].nchild == Kids(v) && cells[c].child == lo &&
               forall i: nat :: i < 4 ==> Kid(p, cells, lo, v, depth, i));
    holds
  }

  /** What cell `c` says of its node, besides its children. */
  ghost predicate CellIs(p: Params, cell: Cell, c: nat, v: Node) {
    var holds :=
      && cell.index == c && cell.body == p.home
      && cell.begin == v.begin && cell.nbody == |v.s| && cell.x == v.o.x && cell.y == v.o.y
      && cell.r == Radius(p.r, v.level);
    holds
  }

  /** The index of the child for quadrant `i`, and of the first cell below it. */
  function KidAt(lo: nat, v: Node, i: nat): nat {
    lo + Rank(v.s, v.o, i)
  }

  ghost function KidLow(p: Params, lo: nat, v: Node, depth: nat, i: nat): nat
    requires depth > 0
    decreases depth - 1, 5 + i
  {
    lo + Kids(v) + BelowUpTo(p, v, depth, i)
  }

  /** The child for quadrant `i`, if there is one: children first, in order, then what lies below each of them. */
  ghost predicate Kid(p: Params, cells: seq<Cell>, lo: nat, v: Node, depth: nat, i: nat)
    requires depth > 0
    decreases depth - 1, 2
  {
    KidIs(p, cells, KidAt(lo, v, i), KidLow(p, lo, v, depth, i), Child(p, v, i), depth - 1)
  }

  ghost predicate KidIs(p: Params, cells: seq<Cell>, c: nat, lo: nat, w: Node, depth: nat)
    decreases depth, 1
  {
    var holds := w.s != [] ==> Subtree(p, cells, c, lo, w, depth);
    holds
  }

  // ---------------------------------------------------------------- parts

  lemma {:induction false} PartAppend(s: seq<Body>, t: seq<Body>, o: Centre, i: nat)
    ensures Part(s + t, o, i) == Part(s, o, i) + Part(t, o, i)
  {
    if t == [] {
      assert s + t == s;
    } else {
      var n := |t| - 1;
      assert (s + t)[..|s + t| - 1] == s + t[..n];
      PartAppend(s, t[..n], o, i);
    }
  }

  /** The parts hold every body once. */
  lemma {:induction false} PartsTogether(s: seq<Body>, o: Centre)
    ensures multiset(s) == multiset(Part(s, o, 0)) + multiset(Part(s, o, 1))
            + multiset(Part(s, o, 2)) + multiset(Part(s, o, 3))
    ensures Offset(s, o, 4) == |s|
  {
    OffsetOf(s, o);
    if s != [] {
      var n := |s| - 1;
      assert s == s[..n] + [s[n]];
      PartsTogether(s[..n], o);
      OffsetOf(s[..n], o);
    }
  }

  lemma OffsetOf(s: seq<Body>, o: Centre)
    ensures Offset(s, o, 1) == |Part(s, o, 0)| && Offset(s, o, 2) == |Part(s, o, 0)| + |Part(s, o, 1)|
    ensures Offset(s, o, 3) == |Part(s, o, 0)| + |Part(s, o, 1)| + |Part(s, o, 2)|
    ensures Offset(s, o, 4) == |Part(s, o, 0)| + |Part(s, o, 1)| + |Part(s, o, 2)| + |Part(s, o, 3)|
  {
    assert Offset(s, o, 0) == 0;
  }

  // ---------------------------------------------------------------- the order is a permutation

  lemma {:induction false} OrderPermutes(p: Params, v: Node, depth: nat)
    ensures multiset(Order(p, v, depth)) == multiset(v.s) && |Order(p, v, depth)| == |v.s|
    decreases depth, 0
  {
    if !IsLeaf(p, v) && depth > 0 {
      OrderUpToIs(p, v, depth, 1);
      OrderUpToIs(p, v, depth, 2);
      OrderUpToIs(p, v, depth, 3);
      OrderUpToIs(p, v, depth, 4);
      PartsTogether(v.s, v.o);
    }
    SameSize(Order(p, v, depth), v.s);
  }

  lemma SameSize(s: seq<Body>, t: seq<Body>)
    ensures multiset(s) == multiset(t) ==> |s| == |t|
  {
    assert |multiset(s)| == |s| && |multiset(t)| == |t|;
  }

  lemma OrderUpToIs(p: Params, v: Node, depth: nat, i: nat)
    requires depth > 0 && 0 < i <= 4
    ensures multiset(OrderUpTo(p, v, depth, i))
            == multiset(OrderUpTo(p, v, depth, i - 1)) + multiset(Part(v.s, v.o, i - 1))
    ensures |OrderUpTo(p, v, depth, i)| == |OrderUpTo(p, v, depth, i - 1)| + |Part(v.s, v.o, i - 1)|
    ensures OrderUpTo(p, v, depth, 0) == []
    decreases depth - 1, 1
  {
    OrderPermutes(p, Child(p, v, i - 1), depth - 1);
  }

  lemma {:induction false} OrderUpToLength(p: Params, v: Node, depth: nat, i: nat)
    requires depth > 0 && i <= 4
    ensures |OrderUpTo(p, v, depth, i)| == Offset(v.s, v.o, i)
    decreases i
  {
    if i > 0 {
      var j := i - 1;
      OrderUpToLength(p, v, depth, j);
      OrderPermutes(p, Child(p, v, j), depth - 1);
      assert Offset(v.s, v.o, i) == Offset(v.s, v.o, j) + |Part(v.s, v.o, j)|;
    }
  }

  // ---------------------------------------------------------------- subtrees do not depend on other cells

  lemma RankOf(s: seq<Body>, o: Centre, i: nat)
    requires i < 4
    ensures Rank(s, o, i) <= Rank(s, o, i + 1) <= Rank(s, o, 4) <= 4
    ensures Part(s, o, i) != [] ==> Rank(s, o, i + 1) == Rank(s, o, i) + 1
  {
    assert Rank(s, o, 4) == Rank(s, o, 3) + (if Part(s, o, 3) != [] then 1 else 0);
    assert Rank(s, o, 1) == if Part(s, o, 0) != [] then 1 else 0;
  }

  lemma {:induction false} BelowGrows(p: Params, v: Node, depth: nat, i: nat, j: nat)
    requires depth > 0 && i <= j
    ensures BelowUpTo(p, v, depth, i) <= BelowUpTo(p, v, depth, j)
    decreases j
  {
    if i < j {
      BelowGrows(p, v, depth, i, j - 1);
    }
  }

  /** The cells of the child in quadrant `i` lie inside those below the node. */
  lemma KidInside(p: Params, lo: nat, v: Node, depth: nat, i: nat)
    requires depth > 0 && i < 4 && !IsLeaf(p, v) && Child(p, v, i).s != []
    ensures lo <= KidAt(lo, v, i) < lo + Kids(v) <= KidLow(p, lo, v, depth, i)
    ensures KidLow(p, lo, v, depth, i + 1) == KidLow(p, lo, v, depth, i) + Below(p, Child(p, v, i), depth - 1)
    ensures KidLow(p, lo, v, depth, i + 1) <= lo + Below(p, v, depth)
  {
    RankOf(v.s, v.o, i);
    BelowGrows(p, v, depth, i + 1, 4);
  }

  ghost predicate Agree(cells: seq<Cell>, cells': seq<Cell>, c: nat, lo: nat, hi: nat) {
    && hi <= |cells| && hi <= |cells'| && c < |cells| && c < |cells'| && cells'[c] == cells[c]
    && forall q :: lo <= q < hi ==> cells'[q] == cells[q]
  }

  lemma {:induction false} SubtreeFrame(p: Params, cells: seq<Cell>, cells': seq<Cell>, c: nat, lo: nat, v: Node,
                                        depth: nat)
    requires Subtree(p, cells, c, lo, v, depth) && Agree(cells, cells', c, lo, lo + Below(p, v, depth))
    ensures Subtree(p, cells', c, lo, v, depth)
    decreases depth, 0
  {
    if !IsLeaf(p, v) && depth > 0 {
      forall i: nat | i < 4
        ensures Kid(p, cells', lo, v, depth, i)
      {
        assert Kid(p, cells, lo, v, depth, i);
        var w, a, m := Child(p, v, i), KidAt(lo, v, i), KidLow(p, lo, v, depth, i);
        if w.s != [] {
          KidInside(p, lo, v, depth, i);
        }
        KidFrame(p, cells, cells', a, m, w, depth - 1);
      }
    }
  }

  lemma KidFrame(p: Params, cells: seq<Cell>, cells': seq<Cell>, c: nat, lo: nat, w: Node, depth: nat)
    requires KidIs(p, cells, c, lo, w, depth)
    requires w.s != [] ==> Agree(cells, cells', c, lo, lo + Below(p, w, depth))
    ensures KidIs(p, cells', c, lo, w, depth)
    decreases depth, 1
  {
    if w.s != [] {
      SubtreeFrame(p, cells, cells', c, lo, w, depth);
    }
  }

  /** Another cell that changes leaves a child alone. */
  lemma KidKept(p: Params, cells: seq<Cell>, cells': seq<Cell>, c: nat, lo: nat, w: Node, depth: nat, x: nat)
    requires KidIs(p, cells, c, lo, w, depth) && |cells| <= |cells'| && (w.s != [] ==> c != x && x < lo)
    requires forall q :: 0 <= q < |cells| && q != x ==> cells'[q] == cells[q]
    ensures KidIs(p, cells', c, lo, w, depth)
  {
    if w.s != [] {
      SubtreeFrame(p, cells, cells', c, lo, w, depth);
    }
  }
}
