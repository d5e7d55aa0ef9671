/** The build itself: a counting sort per level, back and forth between the body array and a buffer.

    A cell counts the bodies of each quadrant, turns the counts into offsets, moves the bodies to their ranges of the
    buffer, makes room for its children behind all other cells and then builds each child with the two arrays
    exchanged. A leaf whose bodies are in the buffer copies them back. The contracts say that a cell leaves everything
    outside its own range and its own cells as it was, which is why the children of one cell do not disturb one another
    although all of them write to both arrays and to the same sequence of cells. */
module QuadBuild {
  import opened CellTree
  import opened QuadTree

  // ---------------------------------------------------------------- counting sort of one range

  /** The sizes of the four parts. */
  ghost predicate Sizes(size: seq<int>, s: seq<Body>, o: Centre) {
    |size| == 4 && forall i: nat :: i < 4 ==> size[i] == |Part(s, o, i)|
  }

  ghost predicate Offsets(offsets: seq<int>, begin: int, s: seq<Body>, o: Centre) {
    |offsets| == 4 && forall i: nat :: i < 4 ==> offsets[i] == begin + Offset(s, o, i)
  }

  lemma PartNext(s: seq<Body>, k: nat, o: Centre, i: nat)
    requires k < |s|
    ensures Part(s[..k + 1], o, i) == Part(s[..k], o, i) + (if Quadrant(s[k], o) == i then [s[k]] else [])
  {
    assert s[..k + 1][..|s[..k + 1]| - 1] == s[..k];
  }

  lemma PartPrefix(s: seq<Body>, k: nat, o: Centre, i: nat)
    requires k <= |s|
    ensures Part(s[..k], o, i) <= Part(s, o, i)
  {
    assert s == s[..k] + s[k..];
    PartAppend(s[..k], s[k..], o, i);
  }

  lemma SizesNext(size: seq<int>, s: seq<Body>, k: nat, o: Centre)
    requires k < |s| && Sizes(size, s[..k], o)
    ensures Sizes(size[Quadrant(s[k], o) := size[Quadrant(s[k], o)] + 1], s[..k + 1], o)
  {
    var next := size[Quadrant(s[k], o) := size[Quadrant(s[k], o)] + 1];
    forall q: nat | q < 4
      ensures next[q] == |Part(s[..k + 1], o, q)|
    {
      PartNext(s, k, o, q);
    }
  }

  /** Count the bodies of each quadrant. */
  method Count(bodies: array<Body>, begin: nat, end: nat, o: Centre) returns (size: seq<int>)
    requires begin <= end <= bodies.Length
    ensures Sizes(size, bodies[begin..end], o)
  {
    ghost var s := bodies[begin..end];
    size := [0, 0, 0, 0];
    for i := begin to end
      invariant Sizes(size, s[..i - begin], o)
    {
      ghost var k := i - begin;
      assert s[k] == bodies[i];
      var quadrant := Quadrant(bodies[i], o);
      SizesNext(size, s, k, o);
      size := size[quadrant := size[quadrant] + 1];
    }
    assert s[..end - begin] == s;
  }

  /** Exclusive scan, and the number of quadrants that are not empty. */
  method Scan(size: seq<int>, begin: nat, ghost s: seq<Body>, o: Centre) returns (offsets: seq<int>, nchild: nat)
    requires Sizes(size, s, o)
    ensures Offsets(offsets, begin, s, o) && nchild == Rank(s, o, 4)
  {
    var offset := begin;
    offsets := [0, 0, 0, 0];
    nchild := 0;
    for i: nat := 0 to 4
      invariant |offsets| == 4 && offset == begin + Offset(s, o, i) && nchild == Rank(s, o, i)
      invariant forall k: nat :: k < i ==> offsets[k] == begin + Offset(s, o, k)
    {
      offsets := offsets[i := offset];
      offset := offset + size[i];
      if size[i] != 0 {
        nchild := nchild + 1;
      }
    }
  }

  /** In the middle of the permutation: the first k bodies are in place, quadrant by quadrant. */
  ghost predicate Placed(t: seq<Body>, begin: nat, s: seq<Body>, k: nat, o: Centre, counter: seq<int>, i: nat)
    requires k <= |s| && |counter| == 4 && i < 4
  {
    var at, part := begin + Offset(s, o, i), Part(s[..k], o, i);
    && counter[i] == at + |part| && at + |part| <= |t| && t[at..at + |part|] == part
  }

  lemma OffsetsApart(s: seq<Body>, o: Centre, i: nat, j: nat)
    requires i < j <= 4
    ensures Offset(s, o, i) + |Part(s, o, i)| <= Offset(s, o, j) && Offset(s, o, 4) == |s|
  {
    PartsTogether(s, o);
    OffsetGrows(s, o, i + 1, j);
  }

  lemma {:induction false} OffsetGrows(s: seq<Body>, o: Centre, i: nat, j: nat)
    requires i <= j
    ensures Offset(s, o, i) <= Offset(s, o, j)
    decreases j
  {
    if i < j {
      OffsetGrows(s, o, i, j - 1);
    }
  }

  /** Where the next body of its quadrant goes: inside the range of the quadrant. */
  lemma NextSlot(s: seq<Body>, k: nat, o: Centre, q: nat)
    requires k < |s| && q == Quadrant(s[k], o)
    ensures |Part(s[..k], o, q)| < |Part(s, o, q)| && Offset(s, o, q) + |Part(s, o, q)| <= |s|
  {
    PartNext(s, k, o, q);
    PartPrefix(s, k + 1, o, q);
    OffsetsApart(s, o, q, 4);
  }

  /** Writing the next body into its slot places it and disturbs no other quadrant. */
  lemma PlaceNext(t: seq<Body>, begin: nat, s: seq<Body>, k: nat, o: Centre, counter: seq<int>, q: nat, i: nat)
    requires k < |s| && |counter| == 4 && i < 4 && q == Quadrant(s[k], o) && begin + |s| <= |t|
    requires Placed(t, begin, s, k, o, counter, i) && Placed(t, begin, s, k, o, counter, q)
    ensures 0 <= counter[q] < |t|
    ensures Placed(t[counter[q] := s[k]], begin, s, k + 1, o, counter[q := counter[q] + 1], i)
  {
    NextSlot(s, k, o, q);
    if i == q {
      PlaceSame(t, begin, s, k, o, counter, q);
    } else {
      PlaceOther(t, begin, s, k, o, counter, q, i);
    }
  }

  lemma PlaceSame(t: seq<Body>, begin: nat, s: seq<Body>, k: nat, o: Centre, counter: seq<int>, q: nat)
    requires k < |s| && |counter| == 4 && q == Quadrant(s[k], o) && begin + |s| <= |t|
    requires Placed(t, begin, s, k, o, counter, q)
    ensures 0 <= counter[q] < |t|
    ensures Placed(t[counter[q] := s[k]], begin, s, k + 1, o, counter[q := counter[q] + 1], q)
  {
    NextSlot(s, k, o, q);
    PartNext(s, k, o, q);
    PlacedMore(t, t[counter[q] := s[k]], begin + Offset(s, o, q), Part(s[..k], o, q), s[k]);
  }

  lemma PlaceOther(t: seq<Body>, begin: nat, s: seq<Body>, k: nat, o: Centre, counter: seq<int>, q: nat, i: nat)
    requires k < |s| && |counter| == 4 && i < 4 && q == Quadrant(s[k], o) && i != q && 0 <= counter[q] < |t|
    requires Placed(t, begin, s, k, o, counter, i) && Placed(t, begin, s, k, o, counter, q)
    ensures Placed(t[counter[q] := s[k]], begin, s, k + 1, o, counter[q := counter[q] + 1], i)
  {
    PartNext(s, k, o, i);
    SlotApart(s, k, o, q, i);
    PlacedStill(t, counter[q], s[k], begin + Offset(s, o, i), Part(s[..k], o, i));
  }

  lemma PlacedMore(t: seq<Body>, t': seq<Body>, at: nat, part: seq<Body>, b: Body)
    requires at + |part| < |t| && t[at..at + |part|] == part && t' == t[at + |part| := b]
    ensures t'[at..at + |part + [b]|] == part + [b]
  {
  }

  lemma PlacedStill(t: seq<Body>, slot: nat, b: Body, at: nat, part: seq<Body>)
    requires slot < |t| && at + |part| <= |t| && t[at..at + |part|] == part && (slot < at || at + |part| <= slot)
    ensures t[slot := b][at..at + |part|] == part
  {
  }

  /** The slot of the next body is outside what is placed for another quadrant. */
  lemma SlotApart(s: seq<Body>, k: nat, o: Centre, q: nat, i: nat)
    requires k < |s| && q == Quadrant(s[k], o) && i < 4 && i != q
    ensures Offset(s, o, q) + |Part(s[..k], o, q)| < Offset(s, o, i)
         || Offset(s, o, i) + |Part(s[..k], o, i)| <= Offset(s, o, q)
  {
    NextSlot(s, k, o, q);
    PartPrefix(s, k, o, i);
    if i < q {
      OffsetsApart(s, o, i, q);
    } else {
      OffsetsApart(s, o, q, i);
    }
  }

  /** The range of quadrant `i` holds its part. */
  ghost predicate InPart(t: seq<Body>, begin: nat, s: seq<Body>, o: Centre, i: nat) {
    var at := begin + Offset(s, o, i);
    at + |Part(s, o, i)| <= |t| && t[at..at + |Part(s, o, i)|] == Part(s, o, i)
  }

  ghost predicate AllPlaced(t: seq<Body>, begin: nat, s: seq<Body>, k: nat, o: Centre, counter: seq<int>) {
    k <= |s| && |counter| == 4 && forall i: nat :: i < 4 ==> Placed(t, begin, s, k, o, counter, i)
  }

  lemma NonePlaced(t: seq<Body>, begin: nat, s: seq<Body>, o: Centre, offsets: seq<int>)
    requires Offsets(offsets, begin, s, o) && begin + |s| <= |t|
    ensures AllPlaced(t, begin, s, 0, o, offsets)
  {
    forall i: nat | i < 4
      ensures Placed(t, begin, s, 0, o, offsets, i)
    {
      OffsetsApart(s, o, i, 4);
    }
  }

  lemma AllPlacedNext(t: seq<Body>, t': seq<Body>, begin: nat, s: seq<Body>, k: nat, o: Centre, counter: seq<int>,
                      q: nat)
    requires AllPlaced(t, begin, s, k, o, counter) && k < |s| && q == Quadrant(s[k], o) && begin + |s| <= |t|
    ensures begin <= counter[q] < begin + |s|
    ensures t' == t[counter[q] := s[k]] ==> AllPlaced(t', begin, s, k + 1, o, counter[q := counter[q] + 1])
  {
    assert Placed(t, begin, s, k, o, counter, q);
    NextSlot(s, k, o, q);
    var next, counter' := k + 1, counter[q := counter[q] + 1];
    if t' == t[counter[q] := s[k]] {
      forall i: nat | i < 4
        ensures Placed(t', begin, s, next, o, counter', i)
      {
        assert Placed(t, begin, s, k, o, counter, i);
        PlaceNext(t, begin, s, k, o, counter, q, i);
      }
    }
  }

  lemma AllInPart(t: seq<Body>, begin: nat, s: seq<Body>, o: Centre, counter: seq<int>)
    requires AllPlaced(t, begin, s, |s|, o, counter)
    ensures forall i: nat :: i < 4 ==> InPart(t, begin, s, o, i)
  {
    assert s[..|s|] == s;
    forall i: nat | i < 4
      ensures InPart(t, begin, s, o, i)
    {
      assert Placed(t, begin, s, |s|, o, counter, i);
    }
  }

  /** Move the bodies of the range to the ranges of their quadrants in the buffer. */
  method Permute(bodies: array<Body>, buffer: array<Body>, begin: nat, end: nat, o: Centre, offsets: seq<int>)
    requires bodies != buffer && bodies.Length == buffer.Length && begin <= end <= bodies.Length
    requires Offsets(offsets, begin, bodies[begin..end], o)
    modifies buffer
    ensures forall i: nat :: i < 4 ==> InPart(buffer[..], begin, bodies[begin..end], o, i)
    ensures forall k :: 0 <= k < begin || end <= k < buffer.Length ==> buffer[k] == old(buffer[k])
  {
    ghost var s := bodies[begin..end];
    var counter := offsets;
    NonePlaced(buffer[..], begin, s, o, counter);
    for i := begin to end
      invariant bodies[begin..end] == s && AllPlaced(buffer[..], begin, s, i - begin, o, counter)
      invariant forall k :: 0 <= k < begin || end <= k < buffer.Length ==> buffer[k] == old(buffer[k])
    {
      var quadrant := Quadrant(bodies[i], o);
      assert s[i - begin] == bodies[i];
      AllPlacedNext(buffer[..], buffer[..], begin, s, i - begin, o, counter, quadrant);
      AllPlacedNext(buffer[..], buffer[..][counter[quadrant] := bodies[i]], begin, s, i - begin, o, counter, quadrant);
      ghost var t := buffer[..];
      buffer[counter[quadrant]] := bodies[i];
      assert buffer[..] == t[counter[quadrant] := bodies[i]];
      counter := counter[quadrant := counter[quadrant] + 1];
    }
    AllInPart(buffer[..], begin, s, o, counter);
  }

  // ---------------------------------------------------------------- the recursion

  /** A cell that only knows its index. */
  function Blank(index: nat): Cell {
    Cell(index, 0, 0, 0.0, 0.0, 0.0, null, 0, 0)
  }

  /** The children for the quadrants before `i` are complete. */
  ghost predicate KidsDone(p: Params, cells: seq<Cell>, lo: nat, v: Node, depth: nat, i: nat)
    requires depth > 0
  {
    forall j: nat :: j < i ==> Kid(p, cells, lo, v, depth, j)
  }

  /** The cells of an earlier child lie apart from the cell of a later one, and before what lies below that. */
  lemma KidsApart(p: Params, lo: nat, v: Node, depth: nat, j: nat, i: nat)
    requires depth > 0 && j < i < 4 && !IsLeaf(p, v) && Child(p, v, j).s != []
    ensures KidAt(lo, v, j) < KidAt(lo, v, i) && KidAt(lo, v, j) < KidLow(p, lo, v, depth, i)
    ensures Child(p, v, i).s != [] ==> KidAt(lo, v, i) < KidLow(p, lo, v, depth, j)
    ensures KidLow(p, lo, v, depth, j) + Below(p, Child(p, v, j), depth - 1) <= KidLow(p, lo, v, depth, i)
  {
    KidInside(p, lo, v, depth, j);
    BelowGrows(p, v, depth, j + 1, i);
    RankOf(v.s, v.o, j);
    RankGrows(v.s, v.o, j + 1, i);
    RankOf(v.s, v.o, i);
  }

  lemma KidSubtree(p: Params, cells: seq<Cell>, lo: nat, v: Node, depth: nat, j: nat, c: nat, m: nat, w: Node)
    requires depth > 0 && w == Child(p, v, j) && w.s != [] && c == KidAt(lo, v, j) && m == KidLow(p, lo, v, depth, j)
    ensures Kid(p, cells, lo, v, depth, j) <==> Subtree(p, cells, c, m, w, depth - 1)
  {
  }

  lemma KidEmpty(p: Params, cells: seq<Cell>, lo: nat, v: Node, depth: nat, i: nat)
    requires depth > 0 && Child(p, v, i).s == []
    ensures Kid(p, cells, lo, v, depth, i) && KidLow(p, lo, v, depth, i + 1) == KidLow(p, lo, v, depth, i)
  {
  }

  /** A later child leaves the earlier ones alone. */
  lemma KidsKept(p: Params, cells: seq<Cell>, cells': seq<Cell>, lo: nat, v: Node, depth: nat, i: nat, x: nat)
    requires depth > 0 && i < 4 && !IsLeaf(p, v) && KidsDone(p, cells, lo, v, depth, i) && Child(p, v, i).s != []
    requires |cells| <= |cells'| && x == KidAt(lo, v, i)
    requires forall q :: 0 <= q < |cells| && q != x ==> cells'[q] == cells[q]
    ensures KidsDone(p, cells', lo, v, depth, i)
  {
    forall j: nat | j < i
      ensures Kid(p, cells', lo, v, depth, j)
    {
      if Child(p, v, j).s != [] {
        KidsApart(p, lo, v, depth, j, i);
      }
      assert Kid(p, cells, lo, v, depth, j);
      KidKept(p, cells, cells', KidAt(lo, v, j), KidLow(p, lo, v, depth, j), Child(p, v, j), depth - 1, x);
    }
  }

  lemma KidsDoneNext(p: Params, cells: seq<Cell>, lo: nat, v: Node, depth: nat, i: nat, next: nat)
    requires depth > 0 && KidsDone(p, cells, lo, v, depth, i) && Kid(p, cells, lo, v, depth, i) && next == i + 1
    ensures KidsDone(p, cells, lo, v, depth, next)
  {
  }

  lemma {:induction false} RankGrows(s: seq<Body>, o: Centre, i: nat, j: nat)
    requires i <= j
    ensures Rank(s, o, i) <= Rank(s, o, j)
    decreases j
  {
    if i < j {
      RankGrows(s, o, i, j - 1);
    }
  }

  function Blanks(first: nat, n: nat): (cells: seq<Cell>)
    ensures |cells| == n && forall k :: 0 <= k < n ==> cells[k].index == first + k
  {
    if n == 0 then [] else Blanks(first, n - 1) + [Blank(first + n - 1)]
  }

  /** From `lo` on the cells know their index. */
  ghost predicate Numbered(cells: seq<Cell>, lo: nat) {
    forall q :: lo <= q < |cells| ==> cells[q].index == q
  }

  /** In the middle of the loop over the quadrants: the cell itself and its children so far; nothing else changed. */
  ghost predicate Partway(p: Params, cells: seq<Cell>, before: seq<Cell>, c: nat, v: Node, depth: nat, i: nat)
    requires depth > 0
  {
    var holds :=
      && c < |before| && |cells| == KidLow(p, |before|, v, depth, i)
      && CellIs(p, cells[c], c, v) && cells[c].nchild == Kids(v) && cells[c].child == |before|
      && KidsDone(p, cells, |before|, v, depth, i)
      && (forall q :: 0 <= q < |before| && q != c ==> cells[q] == before[q])
      && Numbered(cells, |before|);
    holds
  }

  /** The bodies so far: the first `i` quadrants back in the origin, in their final order, the others in the buffer. */
  ghost predicate Returned(orig: seq<Body>, scratch: seq<Body>, p: Params, v: Node, depth: nat, i: nat)
    requires depth > 0
  {
    var holds :=
      && v.begin + Offset(v.s, v.o, i) <= |orig|
      && orig[v.begin..v.begin + Offset(v.s, v.o, i)] == OrderUpTo(p, v, depth, i)
      && forall j: nat :: i <= j < 4 ==> InPart(scratch, v.begin, v.s, v.o, j);
    holds
  }

  /** A complete child advances the cells. */
  lemma PartwayNext(p: Params, cells: seq<Cell>, cells': seq<Cell>, before: seq<Cell>, c: nat, v: Node, depth: nat,
                    i: nat, w: Node, x: nat)
    requires depth > 0 && i < 4 && !IsLeaf(p, v) && w == Child(p, v, i) && w.s != []
    requires Partway(p, cells, before, c, v, depth, i)
    requires Built(p, cells', cells, x, w, depth - 1) && x == KidAt(|before|, v, i)
    ensures Partway(p, cells', before, c, v, depth, i + 1)
  {
    var lo := |before|;
    KidInside(p, lo, v, depth, i);
    KidsKept(p, cells, cells', lo, v, depth, i, x);
    KidSubtree(p, cells', lo, v, depth, i, x, |cells|, w);
    KidsDoneNext(p, cells', lo, v, depth, i, i + 1);
  }

  /** An empty quadrant has no child. */
  lemma PartwaySkip(p: Params, cells: seq<Cell>, before: seq<Cell>, c: nat, v: Node, depth: nat, i: nat)
    requires depth > 0 && i < 4 && Child(p, v, i).s == [] && Partway(p, cells, before, c, v, depth, i)
    ensures Partway(p, cells, before, c, v, depth, i + 1)
  {
    KidEmpty(p, cells, |before|, v, depth, i);
    KidsDoneNext(p, cells, |before|, v, depth, i, i + 1);
  }

  lemma PartwayStart(p: Params, cells: seq<Cell>, before: seq<Cell>, c: nat, v: Node, depth: nat)
    requires depth > 0 && c < |before| && |cells| == |before| + Kids(v)
    requires CellIs(p, cells[c], c, v) && cells[c].nchild == Kids(v) && cells[c].child == |before|
    requires (forall q :: 0 <= q < |before| && q != c ==> cells[q] == before[q]) && Numbered(cells, |before|)
    ensures Partway(p, cells, before, c, v, depth, 0)
  {
  }

  lemma PartwayEnd(p: Params, cells: seq<Cell>, before: seq<Cell>, c: nat, v: Node, depth: nat)
    requires depth > 0 && !IsLeaf(p, v) && Partway(p, cells, before, c, v, depth, 4)
    ensures Built(p, cells, before, c, v, depth)
  {
  }

  lemma InPartKept(t: seq<Body>, t': seq<Body>, begin: nat, s: seq<Body>, o: Centre, j: nat, from: nat)
    requires InPart(t, begin, s, o, j) && from <= begin + Offset(s, o, j) && |t| == |t'|
    requires forall k :: from <= k < |t| ==> t'[k] == t[k]
    ensures InPart(t', begin, s, o, j)
  {
    var at, n := begin + Offset(s, o, j), |Part(s, o, j)|;
    assert t'[at..at + n] == t[at..at + n];
  }

  lemma LaterKept(t: seq<Body>, t': seq<Body>, begin: nat, s: seq<Body>, o: Centre, i: nat, from: nat)
    requires forall j: nat :: i <= j < 4 ==> InPart(t, begin, s, o, j)
    requires i < 4 && from == begin + Offset(s, o, i) + |Part(s, o, i)| && |t| == |t'|
    requires forall k :: from <= k < |t| ==> t'[k] == t[k]
    ensures forall j: nat :: i < j < 4 ==> InPart(t', begin, s, o, j)
  {
    forall j: nat | i < j < 4
      ensures InPart(t', begin, s, o, j)
    {
      OffsetsApart(s, o, i, j);
      InPartKept(t, t', begin, s, o, j, from);
    }
  }

  lemma RangeGrows(t: seq<Body>, t': seq<Body>, begin: nat, at: nat, to: nat, done: seq<Body>, more: seq<Body>)
    requires begin <= at <= to <= |t'| && |t'| == |t| && t[begin..at] == done && t'[at..to] == more
    requires forall k :: 0 <= k < at ==> t'[k] == t[k]
    ensures t'[begin..to] == done + more
  {
    assert t'[begin..at] == t[begin..at];
  }

  /** The child's bodies are back; the ranges of the later quadrants have not been touched. */
  lemma ReturnedNext(orig: seq<Body>, orig': seq<Body>, scratch: seq<Body>, scratch': seq<Body>, p: Params, v: Node,
                     depth: nat,
                     i: nat, at: nat, to: nat)
    requires depth > 0 && i < 4 && Returned(orig, scratch, p, v, depth, i) && |orig'| == |orig|
    requires |scratch| == |scratch'|
    requires at == v.begin + Offset(v.s, v.o, i) && to == at + |Part(v.s, v.o, i)| && to <= |orig|
    requires orig'[at..to] == Order(p, Child(p, v, i), depth - 1)
    requires SameOutside(orig, orig', at, to) && SameOutside(scratch, scratch', at, to)
    ensures Returned(orig', scratch', p, v, depth, i + 1)
  {
    RangeGrows(orig, orig', v.begin, at, to, OrderUpTo(p, v, depth, i), Order(p, Child(p, v, i), depth - 1));
    LaterKept(scratch, scratch', v.begin, v.s, v.o, i, to);
  }

  ghost predicate Fits(bodies: array<Body>, buffer: array<Body>, begin: int, end: int) {
    bodies != buffer && bodies.Length == buffer.Length && 0 <= begin <= end <= bodies.Length
  }

  ghost predicate SameOutside(s: seq<Body>, t: seq<Body>, begin: int, end: int) {
    var holds := |s| == |t| && forall k :: 0 <= k < |s| && (k < begin || end <= k) ==> t[k] == s[k];
    holds
  }

  lemma Narrower(s: seq<Body>, t: seq<Body>, u: seq<Body>, begin: int, end: int, from: int, to: int)
    requires SameOutside(s, t, begin, end) && SameOutside(t, u, from, to) && begin <= from && to <= end
    ensures SameOutside(s, u, begin, end)
  {
  }

  /** The node is that of the range, and its bodies do not fit a leaf. */
  ghost predicate NodeAt(p: Params, v: Node, begin: int, end: int, o: Centre, level: nat, depth: nat) {
    var holds :=
      && v.begin == begin && v.o == o && v.level == level && |v.s| == end - begin
      && depth > 0 && !IsLeaf(p, v) && Splits(p, v, depth);
    holds
  }

  /** What a call adds to the cells: cell `c` and the cells behind the old ones describe the node. */
  ghost predicate Built(p: Params, cells: seq<Cell>, before: seq<Cell>, c: nat, v: Node, depth: nat) {
    var holds :=
      && c < |before| && |cells| == |before| + Below(p, v, depth) && Subtree(p, cells, c, |before|, v, depth)
      && (forall q :: 0 <= q < |before| && q != c ==> cells[q] == before[q])
      && Numbered(cells, |before|);
    holds
  }

  lemma LeafBuilt(p: Params, cells: seq<Cell>, before: seq<Cell>, c: nat, v: Node, depth: nat)
    requires c < |before| == |cells| && IsLeaf(p, v) && CellIs(p, cells[c], c, v) && cells[c].nchild == 0
    requires forall q :: 0 <= q < |before| && q != c ==> cells[q] == before[q]
    ensures Built(p, cells, before, c, v, depth)
  {
  }

  /** The child's bodies are its part, and its recursion ends within the remaining levels. */
  lemma ChildReady(orig: seq<Body>, scratch: seq<Body>, p: Params, v: Node, depth: nat, i: nat, from: nat, to: nat,
                   w: Node)
    requires depth > 0 && i < 4 && Returned(orig, scratch, p, v, depth, i) && w == Child(p, v, i)
    requires from == v.begin + Offset(v.s, v.o, i) && to == from + |Part(v.s, v.o, i)|
    requires !IsLeaf(p, v) && Splits(p, v, depth)
    ensures from <= to <= |scratch| && scratch[from..to] == w.s && Splits(p, w, depth - 1)
    ensures w == Node(scratch[from..to], from, ChildCentre(p, v.o, v.level, i), v.level + 1)
  {
    assert InPart(scratch, v.begin, v.s, v.o, i);
  }

  lemma ChildSlot(p: Params, cells: seq<Cell>, before: seq<Cell>, c: nat, v: Node, depth: nat, i: nat, child: nat)
    requires depth > 0 && i < 4 && Part(v.s, v.o, i) != [] && !IsLeaf(p, v)
    requires Partway(p, cells, before, c, v, depth, i) && child == KidAt(|before|, v, i)
    ensures |before| <= child < |cells| && cells[child].index == child
  {
    KidInside(p, |before|, v, depth, i);
  }

  lemma ReturnedStart(orig: seq<Body>, scratch: seq<Body>, p: Params, v: Node, depth: nat)
    requires depth > 0 && v.begin <= |orig| && forall i: nat :: i < 4 ==> InPart(scratch, v.begin, v.s, v.o, i)
    ensures Returned(orig, scratch, p, v, depth, 0)
  {
  }

  lemma ReturnedSkip(orig: seq<Body>, scratch: seq<Body>, p: Params, v: Node, depth: nat, i: nat)
    requires depth > 0 && i < 4 && Part(v.s, v.o, i) == [] && Returned(orig, scratch, p, v, depth, i)
    ensures Returned(orig, scratch, p, v, depth, i + 1)
  {
    OrderUpToIs(p, v, depth, i + 1);
    OrderPermutes(p, Child(p, v, i), depth - 1);
    assert Order(p, Child(p, v, i), depth - 1) == [];
  }

  lemma ReturnedEnd(orig: seq<Body>, scratch: seq<Body>, p: Params, v: Node, depth: nat, end: nat)
    requires depth > 0 && !IsLeaf(p, v) && Returned(orig, scratch, p, v, depth, 4) && end == v.begin + |v.s|
    ensures end <= |orig| && orig[v.begin..end] == Order(p, v, depth)
  {
    PartsTogether(v.s, v.o);
  }

  class Builder {
    const p: Params
    var cells: seq<Cell>

    constructor (params: Params)
      ensures p == params && cells == [Blank(0)]
    {
      p, cells := params, [Blank(0)];
    }

    /** The array that the bodies come from, and return to. */
    static function Origin(bodies: array<Body>, buffer: array<Body>, direction: bool): array<Body> {
      if direction then buffer else bodies
    }

    /** A leaf: if its bodies are in the buffer, they are copied back. */
    method MakeLeaf(bodies: array<Body>, buffer: array<Body>, begin: nat, end: nat, direction: bool)
      requires Fits(bodies, buffer, begin, end)
      modifies buffer
      ensures Origin(bodies, buffer, direction)[begin..end] == bodies[begin..end]
      ensures SameOutside(old(buffer[..]), buffer[..], begin, end)
    {
      if direction {
        for i := begin to end
          invariant forall k :: begin <= k < i ==> buffer[k] == bodies[k]
          invariant forall k :: 0 <= k < begin || i <= k < buffer.Length ==> buffer[k] == old(buffer[k])
        {
          buffer[i] := bodies[i];
        }
      }
    }

    /** Sort the bodies of a range into the buffer, quadrant by quadrant. */
    method SortRange(bodies: array<Body>, buffer: array<Body>, begin: nat, end: nat, o: Centre)
      returns (size: seq<int>, offsets: seq<int>, nchild: nat)
      requires Fits(bodies, buffer, begin, end)
      modifies buffer
      ensures Sizes(size, bodies[begin..end], o) && Offsets(offsets, begin, bodies[begin..end], o)
      ensures nchild == Rank(bodies[begin..end], o, 4)
      ensures forall i: nat :: i < 4 ==> InPart(buffer[..], begin, bodies[begin..end], o, i)
      ensures SameOutside(old(buffer[..]), buffer[..], begin, end)
    {
      size := Count(bodies, begin, end, o);
      offsets, nchild := Scan(size, begin, bodies[begin..end], o);
      Permute(bodies, buffer, begin, end, o, offsets);
    }

    /** Room for the children at the end of the cells. */
    method GrowCells(c: nat, nchild: nat, ghost before: seq<Cell>, ghost v: Node, ghost depth: nat)
      requires depth > 0 && c < |before| == |cells| && CellIs(p, cells[c], c, v) && nchild == Kids(v)
      requires forall q :: 0 <= q < |before| && q != c ==> cells[q] == before[q]
      modifies this
      ensures Partway(p, cells, before, c, v, depth, 0)
    {
      var prevSize := |cells|;
      cells := cells + Blanks(prevSize, nchild);
      cells := cells[c := cells[c].(child := prevSize, nchild := nchild)];
      PartwayStart(p, cells, before, c, v, depth);
    }

    /** A cell and all cells below it. Afterwards the bodies of its range are in the original array in their final
        order, the arrays are unchanged outside the range, and no other cell has changed. */
    method BuildCells(bodies: array<Body>, buffer: array<Body>, begin: nat, end: nat, c: nat, o: Centre, level: nat,
                      direction: bool, ghost depth: nat, ghost v: Node)
      requires Fits(bodies, buffer, begin, end) && c < |cells|
      requires v == Node(bodies[begin..end], begin, o, level) && Splits(p, v, depth)
      requires Origin(bodies, buffer, direction) == p.home && cells[c].index == c
      modifies this, bodies, buffer
      ensures Origin(bodies, buffer, direction)[begin..end] == Order(p, v, depth)
      ensures Built(p, cells, old(cells), c, v, depth)
      ensures SameOutside(old(bodies[..]), bodies[..], begin, end)
      ensures SameOutside(old(buffer[..]), buffer[..], begin, end)
      decreases depth, 1
    {
      ghost var before := cells;
      cells := cells[c := Cell(cells[c].index, 0, 0, o.x, o.y, Radius(p.r, level), Origin(bodies, buffer, direction),
                               begin, end - begin)];
      if end - begin <= p.ncrit {
        MakeLeaf(bodies, buffer, begin, end, direction);
        LeafBuilt(p, cells, before, c, v, depth);
      } else {
        SplitCell(bodies, buffer, begin, end, c, o, level, direction, depth, v, before);
      }
    }

    /** Sort the bodies of the cell into the buffer and build its children there. */
    method SplitCell(bodies: array<Body>, buffer: array<Body>, begin: nat, end: nat, c: nat, o: Centre, level: nat,
                     direction: bool, ghost depth: nat, ghost v: Node, ghost before: seq<Cell>)
      requires Fits(bodies, buffer, begin, end)
      requires Origin(bodies, buffer, direction) == p.home
      requires v == Node(bodies[begin..end], begin, o, level) && !IsLeaf(p, v) && Splits(p, v, depth)
      requires c < |before| == |cells| && CellIs(p, cells[c], c, v)
      requires forall q :: 0 <= q < |before| && q != c ==> cells[q] == before[q]
      modifies this, bodies, buffer
      ensures Origin(bodies, buffer, direction)[begin..end] == Order(p, v, depth)
      ensures Built(p, cells, before, c, v, depth)
      ensures SameOutside(old(bodies[..]), bodies[..], begin, end)
      ensures SameOutside(old(buffer[..]), buffer[..], begin, end)
      decreases depth, 0
    {
      ghost var bodies0, buffer0 := bodies[..], buffer[..];
      var size, offsets, nchild := SortRange(bodies, buffer, begin, end, o);
      ReturnedStart(Origin(bodies, buffer, direction)[..], buffer[..], p, v, depth);
      var prevSize := |cells|;
      GrowCells(c, nchild, before, v, depth);
      BuildChildren(bodies, buffer, begin, end, c, o, level, direction, depth, v, before, size, offsets, prevSize,
                    bodies0, buffer0);
      PartwayEnd(p, cells, before, c, v, depth);
      ReturnedEnd(Origin(bodies, buffer, direction)[..], buffer[..], p, v, depth, end);
    }

    /** The loop over the quadrants. */
    method BuildChildren(bodies: array<Body>, buffer: array<Body>, begin: nat, end: nat, c: nat, o: Centre, level: nat,
                         direction: bool, ghost depth: nat, ghost v: Node, ghost before: seq<Cell>,
                         size: seq<int>, offsets: seq<int>, prevSize: nat, ghost bodies0: seq<Body>,
                         ghost buffer0: seq<Body>)
      requires Fits(bodies, buffer, begin, end) && NodeAt(p, v, begin, end, o, level, depth)
      requires Origin(bodies, buffer, direction) == p.home
      requires Sizes(size, v.s, o) && Offsets(offsets, begin, v.s, o) && prevSize == |before|
      requires Partway(p, cells, before, c, v, depth, 0)
      requires Returned(Origin(bodies, buffer, direction)[..], buffer[..], p, v, depth, 0)
      requires SameOutside(bodies0, bodies[..], begin, end) && SameOutside(buffer0, buffer[..], begin, end)
      modifies this, bodies, buffer
      ensures Partway(p, cells, before, c, v, depth, 4)
      ensures Returned(Origin(bodies, buffer, direction)[..], buffer[..], p, v, depth, 4)
      ensures SameOutside(bodies0, bodies[..], begin, end) && SameOutside(buffer0, buffer[..], begin, end)
      decreases depth - 1, 4
    {
      var k := 0;
      for i: nat := 0 to 4
        invariant k == Rank(v.s, v.o, i) && Partway(p, cells, before, c, v, depth, i)
        invariant Returned(Origin(bodies, buffer, direction)[..], buffer[..], p, v, depth, i)
        invariant SameOutside(bodies0, bodies[..], begin, end) && SameOutside(buffer0, buffer[..], begin, end)
      {
        BuildQuadrant(bodies, buffer, begin, end, c, o, level, direction, depth, v, before, i, size[i], offsets[i],
                      prevSize + k,
                      bodies0, buffer0);
        if size[i] != 0 {
          k := k + 1;
        }
      }
    }

    /** One quadrant: a child if it is not empty. */
    method BuildQuadrant(bodies: array<Body>, buffer: array<Body>, begin: nat, end: nat, c: nat, o: Centre, level: nat,
                         direction: bool, ghost depth: nat, ghost v: Node, ghost before: seq<Cell>, i: nat,
                         size: int, from: int,
                         child: nat, ghost bodies0: seq<Body>, ghost buffer0: seq<Body>)
      requires Fits(bodies, buffer, begin, end) && NodeAt(p, v, begin, end, o, level, depth) && i < 4
      requires Origin(bodies, buffer, direction) == p.home
      requires size == |Part(v.s, o, i)| && from == begin + Offset(v.s, o, i) && child == KidAt(|before|, v, i)
      requires Partway(p, cells, before, c, v, depth, i)
      requires Returned(Origin(bodies, buffer, direction)[..], buffer[..], p, v, depth, i)
      requires SameOutside(bodies0, bodies[..], begin, end) && SameOutside(buffer0, buffer[..], begin, end)
      modifies this, bodies, buffer
      ensures Partway(p, cells, before, c, v, depth, i + 1)
      ensures Returned(Origin(bodies, buffer, direction)[..], buffer[..], p, v, depth, i + 1)
      ensures SameOutside(bodies0, bodies[..], begin, end) && SameOutside(buffer0, buffer[..], begin, end)
      decreases depth - 1, 3
    {
      OffsetsApart(v.s, o, i, 4);
      if size != 0 {
        ghost var bodies1, buffer1 := bodies[..], buffer[..];
        BuildChild(bodies, buffer, begin, end, c, o, level, direction, depth, v, before, i, from, from + size, child);
        Narrower(bodies0, bodies1, bodies[..], begin, end, from, from + size);
        Narrower(buffer0, buffer1, buffer[..], begin, end, from, from + size);
      } else {
        PartwaySkip(p, cells, before, c, v, depth, i);
        ReturnedSkip(Origin(bodies, buffer, direction)[..], buffer[..], p, v, depth, i);
      }
    }

    /** The recursive call for one quadrant, with the two arrays exchanged. */
    method BuildChild(bodies: array<Body>, buffer: array<Body>, begin: nat, end: nat, c: nat, o: Centre, level: nat,
                      direction: bool, ghost depth: nat, ghost v: Node, ghost before: seq<Cell>, i: nat, from: nat,
                      to: nat, child: nat)
      requires Fits(bodies, buffer, from, to) && NodeAt(p, v, begin, end, o, level, depth) && i < 4
      requires Origin(bodies, buffer, direction) == p.home
      requires from == begin + Offset(v.s, o, i) && to == from + |Part(v.s, o, i)| && Part(v.s, o, i) != []
      requires child == KidAt(|before|, v, i) && Partway(p, cells, before, c, v, depth, i)
      requires Returned(Origin(bodies, buffer, direction)[..], buffer[..], p, v, depth, i)
      modifies this, bodies, buffer
      ensures Partway(p, cells, before, c, v, depth, i + 1)
      ensures Returned(Origin(bodies, buffer, direction)[..], buffer[..], p, v, depth, i + 1)
      ensures SameOutside(old(bodies[..]), bodies[..], from, to) && SameOutside(old(buffer[..]), buffer[..], from, to)
      decreases depth - 1, 2
    {
      ghost var w, was := Child(p, v, i), cells;
      ghost var orig, scratch := Origin(bodies, buffer, direction)[..], buffer[..];
      var centre := ChildCentre(p, o, level, i);
      ChildReady(orig, scratch, p, v, depth, i, from, to, w);
      KidInside(p, |before|, v, depth, i);
      ChildSlot(p, cells, before, c, v, depth, i, child);
      BuildCells(buffer, bodies, from, to, child, centre, level + 1, !direction, depth - 1, w);
      PartwayNext(p, was, cells, before, c, v, depth, i, w, child);
      ReturnedNext(orig, Origin(bodies, buffer, direction)[..], scratch, buffer[..], p, v, depth, i, from, to);
    }
  }
}
