/** The dual tree traversal: the lists cover every pair of leaves exactly once. */
module InteractionLists {
  import opened CellTree

  /** Target cell and source cell of a list entry; `far` entries go to the M2L list, the others to the P2P list. */
  datatype Entry = Entry(i: nat, j: nat, far: bool)

  /** The far-field test and the trees of targets and sources. */
  datatype Setting = Setting(target: seq<Cell>, source: seq<Cell>, far: (nat, nat) -> bool)

  ghost predicate Ready(s: Setting) {
    WellFormed(s.target) && WellFormed(s.source)
  }

  /** Which of the two cells is opened. */
  predicate OpensTarget(s: Setting, i: nat, j: nat)
    requires i < |s.target| && j < |s.source|
  {
    Leaf(s.source, j) || (s.target[i].r >= s.source[j].r && !Leaf(s.target, i))
  }

  /** How much of the trees lies behind the two cells. */
  ghost function Behind(s: Setting, i: nat, j: nat): int {
    |s.target| - i + |s.source| - j
  }

  /** The entries that `getList` adds for a pair of cells, in order. */
  ghost function Lists(s: Setting, i: nat, j: nat): seq<Entry>
    requires Ready(s) && i < |s.target| && j < |s.source|
    decreases Behind(s, i, j), 1, 0
  {
    if s.far(i, j) then [Entry(i, j, true)]
    else if Leaf(s.target, i) && Leaf(s.source, j) then [Entry(i, j, false)]
    else if OpensTarget(s, i, j) then OverTargets(s, i, j, s.target[i].nchild)
    else OverSources(s, i, j, s.source[j].nchild)
  }

  /** The entries for the first `n` children of target `i`. */
  ghost function OverTargets(s: Setting, i: nat, j: nat, n: nat): seq<Entry>
    requires Ready(s) && i < |s.target| && j < |s.source| && n <= s.target[i].nchild
    decreases Behind(s, i, j), 0, n
  {
    if n == 0 then [] else OverTargets(s, i, j, n - 1) + Lists(s, s.target[i].child + n - 1, j)
  }

  ghost function OverSources(s: Setting, i: nat, j: nat, n: nat): seq<Entry>
    requires Ready(s) && i < |s.target| && j < |s.source| && n <= s.source[j].nchild
    decreases Behind(s, i, j), 0, n
  {
    if n == 0 then [] else OverSources(s, i, j, n - 1) + Lists(s, i, s.source[j].child + n - 1)
  }

  // ---------------------------------------------------------------- exact cover

  ghost predicate Covers(s: Setting, e: Entry, t: nat, u: nat) {
    Under(s.target, e.i, t) && Under(s.source, e.j, u)
  }

  /** How many entries cover target `t` and source `u`. */
  ghost function Count(s: Setting, es: seq<Entry>, t: nat, u: nat): nat {
    if es == [] then 0 else (if Covers(s, es[0], t, u) then 1 else 0) + Count(s, es[1..], t, u)
  }

  lemma {:induction false} CountAppend(s: Setting, es: seq<Entry>, fs: seq<Entry>, t: nat, u: nat)
    ensures Count(s, es + fs, t, u) == Count(s, es, t, u) + Count(s, fs, t, u)
  {
    if es == [] {
      assert es + fs == fs;
    } else {
      assert (es + fs)[1..] == es[1..] + fs;
      CountAppend(s, es[1..], fs, t, u);
    }
  }

  ghost predicate LeafPair(s: Setting, t: nat, u: nat) {
    t < |s.target| && u < |s.source| && Leaf(s.target, t) && Leaf(s.source, u)
  }

  /** Exact cover: of the entries for a pair of cells, exactly one covers each pair of leaves below them, and none
      covers any other pair of leaves. */
  lemma {:induction false} ExactCover(s: Setting, i: nat, j: nat, t: nat, u: nat)
    requires Ready(s) && i < |s.target| && j < |s.source| && LeafPair(s, t, u)
    ensures Count(s, Lists(s, i, j), t, u) == if Under(s.target, i, t) && Under(s.source, j, u) then 1 else 0
    decreases Behind(s, i, j), 1, 0
  {
    if s.far(i, j) || (Leaf(s.target, i) && Leaf(s.source, j)) {
      assert Lists(s, i, j)[1..] == [];
    } else if OpensTarget(s, i, j) {
      CoverTargets(s, i, j, s.target[i].nchild, t, u);
      TargetBelow(s, i, t);
    } else {
      CoverSources(s, i, j, s.source[j].nchild, t, u);
      SourceBelow(s, j, u);
    }
  }

  /** Leaf `t` lies under one of the first `n` children of target `i`. */
  ghost predicate UnderFirst(cells: seq<Cell>, i: nat, n: nat, t: nat)
    requires i < |cells|
  {
    exists c: nat :: cells[i].child <= c < cells[i].child + n && Under(cells, c, t)
  }

  lemma TargetBelow(s: Setting, i: nat, t: nat)
    requires Ready(s) && i < |s.target| && t < |s.target| && Leaf(s.target, t) && !Leaf(s.target, i)
    ensures UnderFirst(s.target, i, s.target[i].nchild, t) <==> Under(s.target, i, t)
  {
    BelowIsChild(s.target, i, t);
  }

  lemma SourceBelow(s: Setting, j: nat, u: nat)
    requires Ready(s) && j < |s.source| && u < |s.source| && Leaf(s.source, u) && !Leaf(s.source, j)
    ensures UnderFirst(s.source, j, s.source[j].nchild, u) <==> Under(s.source, j, u)
  {
    BelowIsChild(s.source, j, u);
  }

  lemma BelowIsChild(cells: seq<Cell>, i: nat, t: nat)
    requires WellFormed(cells) && i < |cells| && t < |cells| && Leaf(cells, t) && !Leaf(cells, i)
    ensures UnderFirst(cells, i, cells[i].nchild, t) <==> Under(cells, i, t)
  {
    if Under(cells, i, t) {
      var c := BranchOf(cells, i, t);
    }
    if UnderFirst(cells, i, cells[i].nchild, t) {
      var c: nat :| cells[i].child <= c < cells[i].child + cells[i].nchild && Under(cells, c, t);
      ChildUnder(cells, i, c);
      UnderTransitive(cells, i, c, t);
    }
  }

  /** The next child adds `t` exactly when `t` lies under it, and then it did not lie under an earlier one. */
  lemma FirstGrows(cells: seq<Cell>, i: nat, n: nat, t: nat)
    requires WellFormed(cells) && i < |cells| && n < cells[i].nchild
    ensures UnderFirst(cells, i, n + 1, t) <==> UnderFirst(cells, i, n, t) || Under(cells, cells[i].child + n, t)
    ensures !(UnderFirst(cells, i, n, t) && Under(cells, cells[i].child + n, t))
  {
    var next := cells[i].child + n;
    if UnderFirst(cells, i, n, t) && Under(cells, next, t) {
      var c: nat :| cells[i].child <= c < cells[i].child + n && Under(cells, c, t);
      BranchUnique(cells, i, c, next, t);
    }
  }

  lemma {:induction false} CoverTargets(s: Setting, i: nat, j: nat, n: nat, t: nat, u: nat)
    requires Ready(s) && i < |s.target| && j < |s.source| && n <= s.target[i].nchild && LeafPair(s, t, u)
    ensures Count(s, OverTargets(s, i, j, n), t, u)
            == if UnderFirst(s.target, i, n, t) && Under(s.source, j, u) then 1 else 0
    decreases Behind(s, i, j), 0, n
  {
    if n > 0 {
      var next := s.target[i].child + n - 1;
      CoverTargets(s, i, j, n - 1, t, u);
      ExactCover(s, next, j, t, u);
      CountAppend(s, OverTargets(s, i, j, n - 1), Lists(s, next, j), t, u);
      FirstGrows(s.target, i, n - 1, t);
    }
  }

  lemma {:induction false} CoverSources(s: Setting, i: nat, j: nat, n: nat, t: nat, u: nat)
    requires Ready(s) && i < |s.target| && j < |s.source| && n <= s.source[j].nchild && LeafPair(s, t, u)
    ensures Count(s, OverSources(s, i, j, n), t, u)
            == if Under(s.target, i, t) && UnderFirst(s.source, j, n, u) then 1 else 0
    decreases Behind(s, i, j), 0, n
  {
    if n > 0 {
      var next := s.source[j].child + n - 1;
      CoverSources(s, i, j, n - 1, t, u);
      ExactCover(s, i, next, t, u);
      CountAppend(s, OverSources(s, i, j, n - 1), Lists(s, i, next), t, u);
      FirstGrows(s.source, j, n - 1, u);
    }
  }

  // ---------------------------------------------------------------- what the entries mean

  /** Far entries passed the far-field test, the others failed it and are pairs of leaves. */
  ghost predicate Proper(s: Setting, e: Entry) {
    && e.i < |s.target| && e.j < |s.source|
    && e.far == s.far(e.i, e.j) && (!e.far ==> Leaf(s.target, e.i) && Leaf(s.source, e.j))
  }

  lemma {:induction false} EntriesProper(s: Setting, i: nat, j: nat)
    requires Ready(s) && i < |s.target| && j < |s.source|
    ensures forall e :: e in Lists(s, i, j) ==> Proper(s, e)
    decreases Behind(s, i, j), 1, 0
  {
    if s.far(i, j) || (Leaf(s.target, i) && Leaf(s.source, j)) {
    } else if OpensTarget(s, i, j) {
      TargetEntriesProper(s, i, j, s.target[i].nchild);
    } else {
      SourceEntriesProper(s, i, j, s.source[j].nchild);
    }
  }

  lemma {:induction false} TargetEntriesProper(s: Setting, i: nat, j: nat, n: nat)
    requires Ready(s) && i < |s.target| && j < |s.source| && n <= s.target[i].nchild
    ensures forall e :: e in OverTargets(s, i, j, n) ==> Proper(s, e)
    decreases Behind(s, i, j), 0, n
  {
    if n > 0 {
      TargetEntriesProper(s, i, j, n - 1);
      EntriesProper(s, s.target[i].child + n - 1, j);
    }
  }

  lemma {:induction false} SourceEntriesProper(s: Setting, i: nat, j: nat, n: nat)
    requires Ready(s) && i < |s.target| && j < |s.source| && n <= s.source[j].nchild
    ensures forall e :: e in OverSources(s, i, j, n) ==> Proper(s, e)
    decreases Behind(s, i, j), 0, n
  {
    if n > 0 {
      SourceEntriesProper(s, i, j, n - 1);
      EntriesProper(s, i, s.source[j].child + n - 1);
    }
  }

  // ---------------------------------------------------------------- every leaf meets itself

  lemma {:induction false} CountedIsThere(s: Setting, es: seq<Entry>, t: nat, u: nat) returns (e: Entry)
    requires Count(s, es, t, u) > 0
    ensures e in es && Covers(s, e, t, u)
  {
    if Covers(s, es[0], t, u) {
      e := es[0];
    } else {
      e := CountedIsThere(s, es[1..], t, u);
    }
  }

  /** One tree on both sides, with the far-field test of the program. */
  function SameTree(cells: seq<Cell>, theta: real): Setting {
    Setting(cells, cells, (i: nat, j: nat) => i < |cells| && j < |cells| && FarField(theta, cells[i], cells[j]))
  }

  /** With cells cut into quadrants and a theta such as 0.4, whose square is at most one half, every leaf is on its own
      P2P list. */
  lemma LeafMeetsItself(cells: seq<Cell>, theta: real, t: nat)
    requires WellFormed(cells) && Rooted(cells) && Quadrants(cells) && 2.0 * (theta * theta) <= 1.0
    requires t < |cells| && Leaf(cells, t)
    ensures Entry(t, t, false) in Lists(SameTree(cells, theta), 0, 0)
    ensures t in ListOf(Lists(SameTree(cells, theta), 0, 0), t, false)
  {
    var s := SameTree(cells, theta);
    AllUnderRoot(cells, t);
    ExactCover(s, 0, 0, t, t);
    EntriesProper(s, 0, 0);
    var e := CountedIsThere(s, Lists(s, 0, 0), t, t);
    Chain(cells, e.i, e.j, t);
    if Under(cells, e.i, e.j) {
      UnderIsNested(cells, e.i, e.j);
      NestedNotFar(theta, cells[e.j], cells[e.i]);
    } else {
      UnderIsNested(cells, e.j, e.i);
      NestedNotFar(theta, cells[e.i], cells[e.j]);
    }
    LeafUnder(cells, e.i, t);
    LeafUnder(cells, e.j, t);
    OnList(Lists(s, 0, 0), Entry(t, t, false));
  }

  // ---------------------------------------------------------------- the traversal

  /** The sources that the entries put on the list of target `a`, in order. */
  function ListOf(es: seq<Entry>, a: nat, far: bool): seq<nat> {
    if es == [] then []
    else (if es[0].i == a && es[0].far == far then [es[0].j] else []) + ListOf(es[1..], a, far)
  }

  lemma {:induction false} ListAppend(es: seq<Entry>, fs: seq<Entry>, a: nat, far: bool)
    ensures ListOf(es + fs, a, far) == ListOf(es, a, far) + ListOf(fs, a, far)
  {
    if es == [] {
      assert es + fs == fs;
    } else {
      assert (es + fs)[1..] == es[1..] + fs;
      ListAppend(es[1..], fs, a, far);
    }
  }

  lemma {:induction false} OnList(es: seq<Entry>, e: Entry)
    requires e in es
    ensures e.j in ListOf(es, e.i, e.far)
  {
    if es[0] != e {
      assert es == [es[0]] + es[1..];
      OnList(es[1..], e);
    }
  }

  /** The lists hold what they held, plus the entries of `es`. */
  ghost predicate Extended(before: seq<seq<nat>>, after: seq<seq<nat>>, es: seq<Entry>, far: bool) {
    |after| == |before| && forall a: nat :: a < |after| ==> after[a] == before[a] + ListOf(es, a, far)
  }

  lemma ExtendedTwice(b: seq<seq<nat>>, m: seq<seq<nat>>, a: seq<seq<nat>>, es: seq<Entry>, fs: seq<Entry>, far: bool)
    requires Extended(b, m, es, far) && Extended(m, a, fs, far)
    ensures Extended(b, a, es + fs, far)
  {
    forall k: nat | k < |a|
      ensures a[k] == b[k] + ListOf(es + fs, k, far)
    {
      ListAppend(es, fs, k, far);
    }
  }

  lemma NoEntry(lists: seq<seq<nat>>, far: bool)
    ensures Extended(lists, lists, [], far)
  {
  }

  lemma OneEntry(lists: seq<seq<nat>>, e: Entry)
    requires e.i < |lists|
    ensures Extended(lists, lists[e.i := lists[e.i] + [e.j]], [e], e.far) && Extended(lists, lists, [e], !e.far)
  {
    assert [e][1..] == [];
    forall a: nat
      ensures ListOf([e], a, e.far) == if a == e.i then [e.j] else []
      ensures ListOf([e], a, !e.far) == []
    {
    }
  }

  class Traversal {
    const s: Setting
    const listM2L: array<seq<nat>>
    const listP2P: array<seq<nat>>

    ghost predicate Valid()
      reads this
    {
      Ready(s) && listM2L != listP2P && listM2L.Length == listP2P.Length == |s.target|
    }

    constructor (setting: Setting)
      requires Ready(setting)
      ensures Valid() && s == setting && fresh(listM2L) && fresh(listP2P)
      ensures forall a :: 0 <= a < |s.target| ==> listM2L[a] == [] && listP2P[a] == []
    {
      s := setting;
      listM2L := new seq<nat>[|setting.target|](_ => []);
      listP2P := new seq<nat>[|setting.target|](_ => []);
    }

    /** `getList`: terminates, and puts the entries of the pair on the lists, in order. */
    method GetList(i: nat, j: nat)
      requires Valid() && i < |s.target| && j < |s.source|
      modifies listM2L, listP2P
      ensures Extended(old(listM2L[..]), listM2L[..], Lists(s, i, j), true)
      ensures Extended(old(listP2P[..]), listP2P[..], Lists(s, i, j), false)
      decreases Behind(s, i, j), 1
    {
      if s.far(i, j) {
        listM2L[i] := listM2L[i] + [j];
        OneEntry(old(listM2L[..]), Entry(i, j, true));
        OneEntry(old(listP2P[..]), Entry(i, j, true));
      } else if Leaf(s.target, i) && Leaf(s.source, j) {
        listP2P[i] := listP2P[i] + [j];
        OneEntry(old(listM2L[..]), Entry(i, j, false));
        OneEntry(old(listP2P[..]), Entry(i, j, false));
      } else if OpensTarget(s, i, j) {
        OpenTarget(i, j);
      } else {
        OpenSource(i, j);
      }
    }

    /** The loop over the children of the target. */
    method OpenTarget(i: nat, j: nat)
      requires Valid() && i < |s.target| && j < |s.source|
      modifies listM2L, listP2P
      ensures Extended(old(listM2L[..]), listM2L[..], OverTargets(s, i, j, s.target[i].nchild), true)
      ensures Extended(old(listP2P[..]), listP2P[..], OverTargets(s, i, j, s.target[i].nchild), false)
      decreases Behind(s, i, j), 0
    {
      ghost var far0, near0 := listM2L[..], listP2P[..];
      NoEntry(far0, true);
      NoEntry(near0, false);
      for k := 0 to s.target[i].nchild
        invariant Extended(far0, listM2L[..], OverTargets(s, i, j, k), true)
        invariant Extended(near0, listP2P[..], OverTargets(s, i, j, k), false)
      {
        ghost var far, near, c := listM2L[..], listP2P[..], s.target[i].child + k;
        GetList(s.target[i].child + k, j);
        ExtendedTwice(far0, far, listM2L[..], OverTargets(s, i, j, k), Lists(s, c, j), true);
        ExtendedTwice(near0, near, listP2P[..], OverTargets(s, i, j, k), Lists(s, c, j), false);
      }
    }

    /** The loop over the children of the source. */
    method OpenSource(i: nat, j: nat)
      requires Valid() && i < |s.target| && j < |s.source|
      modifies listM2L, listP2P
      ensures Extended(old(listM2L[..]), listM2L[..], OverSources(s, i, j, s.source[j].nchild), true)
      ensures Extended(old(listP2P[..]), listP2P[..], OverSources(s, i, j, s.source[j].nchild), false)
      decreases Behind(s, i, j), 0
    {
      ghost var far0, near0 := listM2L[..], listP2P[..];
      NoEntry(far0, true);
      NoEntry(near0, false);
      for k := 0 to s.source[j].nchild
        invariant Extended(far0, listM2L[..], OverSources(s, i, j, k), true)
        invariant Extended(near0, listP2P[..], OverSources(s, i, j, k), false)
      {
        ghost var far, near, c := listM2L[..], listP2P[..], s.source[j].child + k;
        GetList(i, s.source[j].child + k);
        ExtendedTwice(far0, far, listM2L[..], OverSources(s, i, j, k), Lists(s, i, c), true);
        ExtendedTwice(near0, near, listP2P[..], OverSources(s, i, j, k), Lists(s, i, c), false);
      }
    }

    /** The traversal from the roots: afterwards the lists are exactly those of the whole trees. */
    method HorizontalPass()
      requires Valid() && |s.target| > 0 && |s.source| > 0
      requires forall a :: 0 <= a < |s.target| ==> listM2L[a] == [] && listP2P[a] == []
      modifies listM2L, listP2P
      ensures forall a: nat :: a < |s.target| ==>
                listM2L[a] == ListOf(Lists(s, 0, 0), a, true) && listP2P[a] == ListOf(Lists(s, 0, 0), a, false)
    {
      ghost var far0, near0 := listM2L[..], listP2P[..];
      GetList(0, 0);
      forall a: nat | a < |s.target|
        ensures listM2L[a] == ListOf(Lists(s, 0, 0), a, true) && listP2P[a] == ListOf(Lists(s, 0, 0), a, false)
      {
        assert listM2L[..][a] == far0[a] + ListOf(Lists(s, 0, 0), a, true);
        assert listP2P[..][a] == near0[a] + ListOf(Lists(s, 0, 0), a, false);
      }
    }
  }
}
