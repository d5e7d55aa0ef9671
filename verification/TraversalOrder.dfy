/** Which pairs of cells end up on the lists when the larger cell is opened first. */
module TraversalOrder {
  // An entry of the lists is a pair of cells in step: on one level, or the target one level below the source, or
  // further apart only where the larger cell is a leaf. It is there exactly if it is far or a pair of leaves, and no
  // pair in step above it is far.

  import opened CellTree
  import opened InteractionLists
  import QuadTree

  ghost predicate Regular(cells: seq<Cell>) {
    WellFormed(cells) && Rooted(cells) && Quadrants(cells) && (cells[0].r > 0.0 || |cells| == 1)
  }

  /** How many cells lie above a cell. */
  ghost function Level(cells: seq<Cell>, t: nat): nat
    requires WellFormed(cells) && Rooted(cells) && t < |cells|
    decreases t
  {
    if t == 0 then 0
    else
      assert HasParent(cells, t);
      var p: nat :| ChildOf(cells, t, p);
      assert p < t;
      1 + Level(cells, p)
  }

  lemma LevelChild(cells: seq<Cell>, c: nat, p: nat)
    requires WellFormed(cells) && Rooted(cells) && ChildOf(cells, c, p)
    ensures p < c && Level(cells, c) == Level(cells, p) + 1
  {
  }

  lemma {:induction false} LevelUnder(cells: seq<Cell>, i: nat, t: nat)
    requires WellFormed(cells) && Rooted(cells) && t < |cells| && Under(cells, i, t) && t != i
    ensures i < |cells| && Level(cells, i) < Level(cells, t) && !Leaf(cells, i)
    decreases t
  {
    var p: nat :| p < t && ChildOf(cells, t, p) && Under(cells, i, p);
    LevelChild(cells, t, p);
    if p != i {
      LevelUnder(cells, i, p);
    }
  }

  lemma {:induction false} RadiusOfLevel(cells: seq<Cell>, t: nat)
    requires WellFormed(cells) && Rooted(cells) && Quadrants(cells) && t < |cells|
    ensures cells[t].r == QuadTree.Radius(cells[0].r, Level(cells, t))
    decreases t
  {
    if t > 0 {
      assert HasParent(cells, t);
      var p: nat :| ChildOf(cells, t, p);
      LevelChild(cells, t, p);
      RadiusOfLevel(cells, p);
      assert QuadrantOf(cells[t], cells[p]);
    }
  }

  lemma {:induction false} RadiusFalls(r: real, m: nat, n: nat)
    requires r > 0.0 && m <= n
    ensures 0.0 < QuadTree.Radius(r, n) <= QuadTree.Radius(r, m)
    ensures m < n ==> QuadTree.Radius(r, n) < QuadTree.Radius(r, m)
    decreases n
  {
    if m < n {
      RadiusFalls(r, m, n - 1);
    } else if n > 0 {
      RadiusFalls(r, m - 1, n - 1);
    }
  }

  /** The larger cell is the one on the higher level. */
  lemma LargerIsHigher(cells: seq<Cell>, i: nat, j: nat)
    requires Regular(cells) && i < |cells| && j < |cells|
    ensures cells[i].r >= cells[j].r <==> Level(cells, i) <= Level(cells, j)
  {
    RadiusOfLevel(cells, i);
    RadiusOfLevel(cells, j);
    if |cells| > 1 {
      var m, n := Level(cells, i), Level(cells, j);
      if m <= n {
        RadiusFalls(cells[0].r, m, n);
      } else {
        RadiusFalls(cells[0].r, n, m);
      }
    }
  }

  // ---------------------------------------------------------------- pairs in step

  ghost predicate InStep(cells: seq<Cell>, i: nat, j: nat)
    requires WellFormed(cells) && Rooted(cells) && i < |cells| && j < |cells|
  {
    var m, n := Level(cells, i), Level(cells, j);
    m == n || m == n + 1 || (m > n + 1 && Leaf(cells, j)) || (m < n && Leaf(cells, i))
  }

  /** The pair (a, b) lies above the pair (i, j). */
  ghost predicate Above(cells: seq<Cell>, a: nat, b: nat, i: nat, j: nat) {
    Under(cells, a, i) && Under(cells, b, j) && !(a == i && b == j)
  }

  ghost predicate FarPair(cells: seq<Cell>, theta: real, i: nat, j: nat) {
    i < |cells| && j < |cells| && FarField(theta, cells[i], cells[j])
  }

  /** No pair in step above this one is far. */
  ghost predicate NoneFarAbove(cells: seq<Cell>, theta: real, i: nat, j: nat)
    requires WellFormed(cells) && Rooted(cells)
  {
    forall a: nat, b: nat :: a < |cells| && b < |cells| && Above(cells, a, b, i, j) && InStep(cells, a, b) ==>
      !FarPair(cells, theta, a, b)
  }

  /** What makes a pair an entry. */
  ghost predicate Belongs(cells: seq<Cell>, theta: real, e: Entry)
    requires WellFormed(cells) && Rooted(cells)
  {
    && e.i < |cells| && e.j < |cells| && InStep(cells, e.i, e.j)
    && e.far == FarPair(cells, theta, e.i, e.j) && (e.far || (Leaf(cells, e.i) && Leaf(cells, e.j)))
    && NoneFarAbove(cells, theta, e.i, e.j)
  }

  /** The descent has come to this pair. */
  ghost predicate Reached(cells: seq<Cell>, theta: real, i: nat, j: nat) {
    Regular(cells) && i < |cells| && j < |cells| && InStep(cells, i, j) && NoneFarAbove(cells, theta, i, j)
  }

  ghost predicate Beneath(cells: seq<Cell>, i: nat, j: nat, e: Entry) {
    Under(cells, i, e.i) && Under(cells, j, e.j)
  }

  /** The target is the larger cell, or all there is to open. */
  ghost predicate TargetDue(cells: seq<Cell>, theta: real, i: nat, j: nat) {
    var due :=
      && Reached(cells, theta, i, j) && !FarPair(cells, theta, i, j) && !Leaf(cells, i)
      && (Leaf(cells, j) || Level(cells, i) <= Level(cells, j));
    due
  }

  ghost predicate SourceDue(cells: seq<Cell>, theta: real, i: nat, j: nat) {
    var due :=
      && Reached(cells, theta, i, j) && !FarPair(cells, theta, i, j) && !Leaf(cells, j)
      && (Leaf(cells, i) || Level(cells, i) > Level(cells, j));
    due
  }

  /** A pair of cells above a child pair is that of the parents, or above it, or has the child itself in it. */
  lemma AboveChild(cells: seq<Cell>, a: nat, c: nat, i: nat)
    requires WellFormed(cells) && ChildOf(cells, c, i) && Under(cells, a, c)
    ensures a == c || Under(cells, a, i)
  {
    if a != c {
      var p: nat :| p < c && ChildOf(cells, c, p) && Under(cells, a, p);
    }
  }

  /** The step to a child of the target keeps in step, with nothing far above. */
  lemma TargetStep(cells: seq<Cell>, theta: real, i: nat, j: nat, c: nat)
    requires TargetDue(cells, theta, i, j) && ChildOf(cells, c, i)
    ensures Reached(cells, theta, c, j)
  {
    LevelChild(cells, c, i);
    forall a: nat, b: nat | a < |cells| && b < |cells| && Above(cells, a, b, c, j) && InStep(cells, a, b)
      ensures !FarPair(cells, theta, a, b)
    {
      AboveChild(cells, a, c, i);
      if a == c {
        LevelUnder(cells, b, j);
      } else if !(a == i && b == j) {
        assert Above(cells, a, b, i, j);
      }
    }
  }

  lemma SourceStep(cells: seq<Cell>, theta: real, i: nat, j: nat, d: nat)
    requires SourceDue(cells, theta, i, j) && ChildOf(cells, d, j)
    ensures Reached(cells, theta, i, d)
  {
    LevelChild(cells, d, j);
    forall a: nat, b: nat | a < |cells| && b < |cells| && Above(cells, a, b, i, d) && InStep(cells, a, b)
      ensures !FarPair(cells, theta, a, b)
    {
      AboveChild(cells, b, d, j);
      if b == d {
        LevelUnder(cells, a, i);
      } else if !(a == i && b == j) {
        assert Above(cells, a, b, i, j);
      }
    }
  }

  /** Where the target is to be opened, no entry below the pair has the target itself. */
  lemma NotTarget(cells: seq<Cell>, theta: real, i: nat, j: nat, e: Entry)
    requires TargetDue(cells, theta, i, j)
    requires Belongs(cells, theta, e) && Beneath(cells, i, j, e)
    ensures e.i != i
  {
    if e.i == i && e.j != j {
      LevelUnder(cells, j, e.j);
    }
  }

  lemma NotSource(cells: seq<Cell>, theta: real, i: nat, j: nat, e: Entry)
    requires SourceDue(cells, theta, i, j)
    requires Belongs(cells, theta, e) && Beneath(cells, i, j, e)
    ensures e.j != j
  {
    if e.j == j && e.i != i {
      LevelUnder(cells, i, e.i);
    }
  }

  // ---------------------------------------------------------------- the entries

  lemma InJoin(es: seq<Entry>, fs: seq<Entry>, e: Entry)
    ensures e in es + fs <==> e in es || e in fs
  {
  }

  lemma NotBelowFar(cells: seq<Cell>, theta: real, i: nat, j: nat, a: nat, b: nat)
    requires WellFormed(cells) && Rooted(cells) && i < |cells| && j < |cells| && InStep(cells, i, j)
    requires FarPair(cells, theta, i, j) && Above(cells, i, j, a, b)
    ensures !NoneFarAbove(cells, theta, a, b)
  {
  }

  lemma EndsHere(cells: seq<Cell>, theta: real, i: nat, j: nat, e: Entry)
    requires Reached(cells, theta, i, j)
    requires FarPair(cells, theta, i, j) || (Leaf(cells, i) && Leaf(cells, j))
    ensures e == Entry(i, j, FarPair(cells, theta, i, j)) <==> Belongs(cells, theta, e) && Beneath(cells, i, j, e)
  {
    if Belongs(cells, theta, e) && Beneath(cells, i, j, e) && !(e.i == i && e.j == j) {
      if FarPair(cells, theta, i, j) {
        NotBelowFar(cells, theta, i, j, e.i, e.j);
      } else {
        LeafUnder(cells, i, e.i);
        LeafUnder(cells, j, e.j);
      }
    }
  }

  /** The entries below a pair that the descent comes to are exactly those that belong there. */
  lemma {:induction false} EntriesBelow(cells: seq<Cell>, theta: real, s: Setting, i: nat, j: nat, e: Entry)
    requires s == SameTree(cells, theta) && Reached(cells, theta, i, j)
    ensures e in Lists(s, i, j) <==> Belongs(cells, theta, e) && Beneath(cells, i, j, e)
    decreases Behind(s, i, j), 1, 0
  {
    if s.far(i, j) || (Leaf(s.target, i) && Leaf(s.source, j)) {
      EndsHere(cells, theta, i, j, e);
    } else {
      LargerIsHigher(cells, i, j);
      if OpensTarget(s, i, j) {
        TargetEntries(cells, theta, s, i, j, cells[i].nchild, e);
        TargetsTogether(cells, theta, i, j, e);
      } else {
        SourceEntries(cells, theta, s, i, j, cells[j].nchild, e);
        SourcesTogether(cells, theta, i, j, e);
      }
    }
  }

  /** One more child: what was there, and what is under it. */
  lemma OneMore(cells: seq<Cell>, i: nat, n: nat, t: nat, belongs: bool, before: bool, here: bool, next: nat)
    requires WellFormed(cells) && i < |cells| && n < cells[i].nchild && next == cells[i].child + n
    requires before <==> belongs && UnderFirst(cells, i, n, t)
    requires here <==> belongs && Under(cells, next, t)
    ensures before || here <==> belongs && UnderFirst(cells, i, n + 1, t)
  {
    FirstGrows(cells, i, n, t);
  }

  ghost predicate InTargets(cells: seq<Cell>, theta: real, i: nat, j: nat, n: nat, e: Entry)
    requires WellFormed(cells) && Rooted(cells) && i < |cells|
  {
    var among := Belongs(cells, theta, e) && Under(cells, j, e.j) && UnderFirst(cells, i, n, e.i);
    among
  }

  ghost predicate InSources(cells: seq<Cell>, theta: real, i: nat, j: nat, n: nat, e: Entry)
    requires WellFormed(cells) && Rooted(cells) && j < |cells|
  {
    var among := Belongs(cells, theta, e) && Under(cells, i, e.i) && UnderFirst(cells, j, n, e.j);
    among
  }

  lemma OneTarget(cells: seq<Cell>, theta: real, i: nat, j: nat, m: nat, n: nat, e: Entry, before: bool, here: bool,
                  next: nat)
    requires TargetDue(cells, theta, i, j) && m + 1 == n <= cells[i].nchild && next == cells[i].child + m
    requires before <==> InTargets(cells, theta, i, j, m, e)
    requires here <==> Belongs(cells, theta, e) && Beneath(cells, next, j, e)
    ensures before || here <==> InTargets(cells, theta, i, j, n, e)
  {
    OneMore(cells, i, m, e.i, Belongs(cells, theta, e) && Under(cells, j, e.j), before, here, next);
  }

  lemma OneSource(cells: seq<Cell>, theta: real, i: nat, j: nat, m: nat, n: nat, e: Entry, before: bool, here: bool,
                  next: nat)
    requires SourceDue(cells, theta, i, j) && m + 1 == n <= cells[j].nchild && next == cells[j].child + m
    requires before <==> InSources(cells, theta, i, j, m, e)
    requires here <==> Belongs(cells, theta, e) && Beneath(cells, i, next, e)
    ensures before || here <==> InSources(cells, theta, i, j, n, e)
  {
    OneMore(cells, j, m, e.j, Belongs(cells, theta, e) && Under(cells, i, e.i), before, here, next);
  }

  /** The entries for one more child. */
  lemma LastTarget(s: Setting, i: nat, j: nat, m: nat, n: nat, next: nat, e: Entry)
    requires Ready(s) && i < |s.target| && j < |s.source| && m + 1 == n <= s.target[i].nchild
    requires next == s.target[i].child + m
    ensures e in OverTargets(s, i, j, n) <==> e in OverTargets(s, i, j, m) || e in Lists(s, next, j)
  {
    InJoin(OverTargets(s, i, j, m), Lists(s, next, j), e);
  }

  lemma LastSource(s: Setting, i: nat, j: nat, m: nat, n: nat, next: nat, e: Entry)
    requires Ready(s) && i < |s.target| && j < |s.source| && m + 1 == n <= s.source[j].nchild
    requires next == s.source[j].child + m
    ensures e in OverSources(s, i, j, n) <==> e in OverSources(s, i, j, m) || e in Lists(s, i, next)
  {
    InJoin(OverSources(s, i, j, m), Lists(s, i, next), e);
  }

  lemma {:induction false} TargetEntries(cells: seq<Cell>, theta: real, s: Setting, i: nat, j: nat, n: nat, e: Entry)
    requires s == SameTree(cells, theta) && TargetDue(cells, theta, i, j) && n <= cells[i].nchild
    ensures e in OverTargets(s, i, j, n) <==> InTargets(cells, theta, i, j, n, e)
    decreases Behind(s, i, j), 0, n
  {
    if n > 0 {
      var m, next := n - 1, cells[i].child + n - 1;
      TargetEntries(cells, theta, s, i, j, m, e);
      TargetStep(cells, theta, i, j, next);
      EntriesBelow(cells, theta, s, next, j, e);
      LastTarget(s, i, j, m, n, next, e);
      OneTarget(cells, theta, i, j, m, n, e, e in OverTargets(s, i, j, m), e in Lists(s, next, j), next);
    }
  }

  lemma {:induction false} SourceEntries(cells: seq<Cell>, theta: real, s: Setting, i: nat, j: nat, n: nat, e: Entry)
    requires s == SameTree(cells, theta) && SourceDue(cells, theta, i, j) && n <= cells[j].nchild
    ensures e in OverSources(s, i, j, n) <==> InSources(cells, theta, i, j, n, e)
    decreases Behind(s, i, j), 0, n
  {
    if n > 0 {
      var m, next := n - 1, cells[j].child + n - 1;
      SourceEntries(cells, theta, s, i, j, m, e);
      SourceStep(cells, theta, i, j, next);
      EntriesBelow(cells, theta, s, i, next, e);
      LastSource(s, i, j, m, n, next, e);
      OneSource(cells, theta, i, j, m, n, e, e in OverSources(s, i, j, m), e in Lists(s, i, next), next);
    }
  }

  /** Strictly below a cell is below one of its children. */
  lemma BelowFirst(cells: seq<Cell>, i: nat, t: nat)
    requires WellFormed(cells) && i < |cells|
    ensures UnderFirst(cells, i, cells[i].nchild, t) ==> Under(cells, i, t)
    ensures Under(cells, i, t) && t != i ==> UnderFirst(cells, i, cells[i].nchild, t)
  {
    if Under(cells, i, t) && t != i {
      var c := BranchOf(cells, i, t);
    }
    if UnderFirst(cells, i, cells[i].nchild, t) {
      var c: nat :| cells[i].child <= c < cells[i].child + cells[i].nchild && Under(cells, c, t);
      if cells[i].nchild > 0 {
        ChildUnder(cells, i, c);
        UnderTransitive(cells, i, c, t);
      }
    }
  }

  lemma TargetsTogether(cells: seq<Cell>, theta: real, i: nat, j: nat, e: Entry)
    requires TargetDue(cells, theta, i, j)
    ensures InTargets(cells, theta, i, j, cells[i].nchild, e) <==> Belongs(cells, theta, e) && Beneath(cells, i, j, e)
  {
    BelowFirst(cells, i, e.i);
    if Belongs(cells, theta, e) && Beneath(cells, i, j, e) {
      NotTarget(cells, theta, i, j, e);
    }
  }

  lemma SourcesTogether(cells: seq<Cell>, theta: real, i: nat, j: nat, e: Entry)
    requires SourceDue(cells, theta, i, j)
    ensures InSources(cells, theta, i, j, cells[j].nchild, e) <==> Belongs(cells, theta, e) && Beneath(cells, i, j, e)
  {
    BelowFirst(cells, j, e.j);
    if Belongs(cells, theta, e) && Beneath(cells, i, j, e) {
      NotSource(cells, theta, i, j, e);
    }
  }

  // ---------------------------------------------------------------- the lists of the traversal

  lemma {:induction false} ListedIs(es: seq<Entry>, a: nat, j: nat, far: bool)
    ensures j in ListOf(es, a, far) <==> Entry(a, j, far) in es
  {
    if es != [] {
      ListedIs(es[1..], a, j, far);
      InJoin([es[0]], es[1..], Entry(a, j, far));
      assert es == [es[0]] + es[1..];
    }
  }

  /** Larger first: what the traversal of a tree with itself puts on the lists are exactly the pairs in step that are
      far or join two leaves, and have no far pair in step above them. */
  lemma LargerFirst(cells: seq<Cell>, theta: real, i: nat, j: nat, far: bool)
    requires Regular(cells)
    ensures j in ListOf(Lists(SameTree(cells, theta), 0, 0), i, far) <==> Belongs(cells, theta, Entry(i, j, far))
  {
    var s, e := SameTree(cells, theta), Entry(i, j, far);
    ListedIs(Lists(s, 0, 0), i, j, far);
    RootReached(cells, theta);
    EntriesBelow(cells, theta, s, 0, 0, e);
    if Belongs(cells, theta, e) {
      AllUnderRoot(cells, i);
      AllUnderRoot(cells, j);
    }
  }

  lemma RootReached(cells: seq<Cell>, theta: real)
    requires Regular(cells)
    ensures Reached(cells, theta, 0, 0)
  {
    forall a: nat, b: nat | a < |cells| && b < |cells|
      ensures !Above(cells, a, b, 0, 0)
    {
      assert Under(cells, a, 0) ==> a == 0;
      assert Under(cells, b, 0) ==> b == 0;
    }
  }
}
