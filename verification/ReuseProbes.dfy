/** What an invalidation probe leaves of every byte on the stack. */
module ReuseProbes {
  // Every byte outside the probed range keeps its bit and its core; a byte inside it ends up invalid with the core of
  // the probe, unless the walk has stopped too early, which is said exactly; the bytes that leave are said exactly too.

  import opened Collections
  import opened ReuseStack
  import opened ReuseCover
  import opened ReuseTraces

  datatype Mark = Mark(inv: bool, core: int)

  /** What the stack says of byte `b`. */
  function View(stack: seq<Entry>, b: nat): Option<Mark> {
    if stack == [] then None
    else if Has(stack[0], b) then Some(Mark(stack[0].inv, stack[0].core))
    else View(stack[1..], b)
  }

  lemma {:induction false} ViewIs(stack: seq<Entry>, b: nat)
    ensures View(stack, b).Some? <==> InStack(stack, b)
  {
    if stack != [] {
      ViewIs(stack[1..], b);
      InStackFirst(stack, b);
    }
  }

  lemma {:induction false} ViewAt(stack: seq<Entry>, l: nat, b: nat)
    requires Valid(stack) && l < |stack| && Has(stack[l], b)
    ensures View(stack, b) == Some(Mark(stack[l].inv, stack[l].core))
  {
    if l > 0 {
      RestValid(stack);
      assert stack[1..][l - 1] == stack[l];
      assert InStack(stack[1..], b);
      ViewAt(stack[1..], l - 1, b);
    }
  }

  lemma {:induction false} ViewJoin(x: seq<Entry>, y: seq<Entry>, b: nat)
    ensures View(x + y, b) == if View(x, b).Some? then View(x, b) else View(y, b)
  {
    if x == [] {
      assert x + y == y;
    } else {
      assert (x + y)[1..] == x[1..] + y;
      ViewJoin(x[1..], y, b);
    }
  }

  // ---------------------------------------------------------------- the walk, entry by entry

  /** The match does not begin with the entry. */
  predicate Late(e: Entry, a: nat) {
    e.elem < a < End(e)
  }

  predicate InRange(a: nat, s: nat, b: nat) {
    a <= b < a + s
  }

  /** The pieces an entry is cut into. */
  function Cut(e: Entry, a: nat, s: nat, core: int): seq<Entry> {
    [Probed(e, a, s, core)] + Inserted(e, a, s, core)
  }

  /** What is pending behind an entry and its pieces: behind a late match the piece put in is subtracted again. */
  function Left(e: Entry, a: nat, s: nat, pending: nat): nat {
    var left := StillPending(e, a, s, pending);
    if left != 0 && Late(e, a) then Sub32(left, Overlap(e, a, s)) else left
  }

  function Cuts(stack: seq<Entry>, a: nat, s: nat, core: int, pending: nat): seq<Entry> {
    if stack == [] then []
    else
      var left := Left(stack[0], a, s, pending);
      Cut(stack[0], a, s, core) + if left == 0 then stack[1..] else Cuts(stack[1..], a, s, core, left)
  }

  /** The walk gets to the entry at `l`, or to the end. */
  predicate Reaches(stack: seq<Entry>, a: nat, s: nat, pending: nat, l: nat)
    requires l <= |stack|
  {
    l == 0 ||
    (var left := Left(stack[0], a, s, pending); left != 0 && Reaches(stack[1..], a, s, left, l - 1))
  }

  /** The walk that has come to the end takes an invalid tail with it. */
  function Dropped(first: bool, through: bool, w: seq<Entry>): seq<Entry> {
    if through && w != [] && w[|w| - 1].inv && (!first || |w| > 1) then w[..|w| - 1] else w
  }

  lemma DroppedCons(first: bool, through: bool, cur: Entry, w: seq<Entry>)
    requires w != []
    ensures Dropped(first, through, [cur] + w) == [cur] + Dropped(false, through, w)
  {
    assert ([cur] + w)[|w|] == w[|w| - 1];
  }

  /** One step over an entry that is cut no further. */
  lemma StepOver(first: bool, rest: seq<Entry>, a: nat, s: nat, core: int, pending: nat, cur: Entry, left: nat)
    requires rest != [] && Inserted(rest[0], a, s, core) == [] && cur == Probed(rest[0], a, s, core)
    requires left == StillPending(rest[0], a, s, pending)
    ensures AfterProbe(first, rest, a, s, core, pending) ==
            if left == 0 then [cur] + rest[1..]
            else if rest[1..] == [] && !first && cur.inv then []
            else [cur] + AfterProbe(false, rest[1..], a, s, core, left)
  {
    assert [] + rest[1..] == rest[1..];
  }

  /** One step over an entry that is cut. */
  lemma StepCut(first: bool, rest: seq<Entry>, a: nat, s: nat, core: int, pending: nat, ins: seq<Entry>, left: nat)
    requires rest != [] && ins == Inserted(rest[0], a, s, core) && ins != []
    requires left == StillPending(rest[0], a, s, pending)
    ensures AfterProbe(first, rest, a, s, core, pending) ==
            [Probed(rest[0], a, s, core)] +
            if left == 0 then ins + rest[1..] else AfterProbe(false, ins + rest[1..], a, s, core, left)
  {
  }

  /** What the walk does from `x` on, once it is known what it does behind it. */
  ghost predicate Follows(tail: seq<Entry>, a: nat, s: nat, core: int, left: nat) {
    left != 0 ==>
      AfterProbe(false, tail, a, s, core, left) ==
      Dropped(false, Reaches(tail, a, s, left, |tail|), Cuts(tail, a, s, core, left))
  }

  function Behind(tail: seq<Entry>, a: nat, s: nat, core: int, left: nat): seq<Entry> {
    if left == 0 then tail else Cuts(tail, a, s, core, left)
  }

  ghost predicate Goes(tail: seq<Entry>, a: nat, s: nat, left: nat) {
    left != 0 && Reaches(tail, a, s, left, |tail|)
  }

  lemma OverSettled(first: bool, x: Entry, tail: seq<Entry>, a: nat, s: nat, core: int, pending: nat, left: nat)
    requires Inserted(x, a, s, core) == [] && left == StillPending(x, a, s, pending)
    requires Follows(tail, a, s, core, left)
    ensures AfterProbe(first, [x] + tail, a, s, core, pending) ==
            Dropped(first, Goes(tail, a, s, left), [Probed(x, a, s, core)] + Behind(tail, a, s, core, left))
  {
    var rest, cur := [x] + tail, Probed(x, a, s, core);
    assert rest[1..] == tail;
    StepOver(first, rest, a, s, core, pending, cur, left);
    if left != 0 {
      if tail != [] {
        DroppedCons(first, Goes(tail, a, s, left), cur, Cuts(tail, a, s, core, left));
      } else {
        assert [cur] + [] == [cur] && [cur][..0] == [];
      }
    }
  }

  /** A piece put in that does not overlap the range, or that is already marked. */
  predicate Settled(x: Entry, a: nat, s: nat, core: int) {
    Inserted(x, a, s, core) == [] && Probed(x, a, s, core) == x
  }

  lemma CutOnce(first: bool, e: Entry, x: Entry, tail: seq<Entry>, a: nat, s: nat, core: int, p: nat, q: nat, left: nat)
    requires Inserted(e, a, s, core) == [x] && Settled(x, a, s, core) && q == StillPending(e, a, s, p)
    requires left == if q == 0 then 0 else StillPending(x, a, s, q)
    requires Follows(tail, a, s, core, left)
    ensures AfterProbe(first, [e] + tail, a, s, core, p) ==
            Dropped(first, Goes(tail, a, s, left), Cut(e, a, s, core) + Behind(tail, a, s, core, left))
  {
    var cur := Probed(e, a, s, core);
    assert ([e] + tail)[1..] == tail;
    StepCut(first, [e] + tail, a, s, core, p, [x], q);
    assert [cur] + ([x] + Behind(tail, a, s, core, left)) == Cut(e, a, s, core) + Behind(tail, a, s, core, left);
    if q != 0 {
      OverSettled(false, x, tail, a, s, core, q, left);
      DroppedCons(first, Goes(tail, a, s, left), cur, [x] + Behind(tail, a, s, core, left));
    }
  }

  lemma CutTwice(first: bool, e: Entry, x: Entry, y: Entry, tail: seq<Entry>, a: nat, s: nat, core: int,
                 p: nat, q: nat, left: nat)
    requires Inserted(e, a, s, core) == [x, y] && Settled(x, a, s, core) && Settled(y, a, s, core)
    requires !Overlaps(y, a, s) && q == StillPending(e, a, s, p)
    requires left == if q == 0 then 0 else StillPending(x, a, s, q)
    requires Follows(tail, a, s, core, left)
    ensures AfterProbe(first, [e] + tail, a, s, core, p) ==
            Dropped(first, Goes(tail, a, s, left), Cut(e, a, s, core) + Behind(tail, a, s, core, left))
  {
    var cur, behind := Probed(e, a, s, core), Behind(tail, a, s, core, left);
    assert ([e] + tail)[1..] == tail && [x, y] + tail == [x] + ([y] + tail);
    StepCut(first, [e] + tail, a, s, core, p, [x, y], q);
    assert [cur] + ([x] + ([y] + behind)) == Cut(e, a, s, core) + behind;
    if q != 0 {
      OverTwo(x, y, tail, a, s, core, q, left, behind);
      DroppedCons(first, Goes(tail, a, s, left), cur, [x] + ([y] + behind));
    }
  }

  lemma OverTwo(x: Entry, y: Entry, tail: seq<Entry>, a: nat, s: nat, core: int, q: nat, left: nat, behind: seq<Entry>)
    requires Settled(x, a, s, core) && Settled(y, a, s, core) && !Overlaps(y, a, s)
    requires left == StillPending(x, a, s, q) && Follows(tail, a, s, core, left)
    requires behind == Behind(tail, a, s, core, left)
    ensures AfterProbe(false, [x] + ([y] + tail), a, s, core, q) ==
            Dropped(false, Goes(tail, a, s, left), [x] + ([y] + behind))
  {
    assert ([x] + ([y] + tail))[1..] == [y] + tail;
    StepOver(false, [x] + ([y] + tail), a, s, core, q, x, left);
    if left != 0 {
      assert left == StillPending(y, a, s, left);
      OverSettled(false, y, tail, a, s, core, left, left);
      DroppedCons(false, Goes(tail, a, s, left), x, [y] + behind);
    }
  }

  /** The walk over the list as it is cut is the walk over the entries it started with. */
  lemma {:induction false} WalkIs(first: bool, stack: seq<Entry>, a: nat, s: nat, core: int, p: nat)
    requires s > 0 && forall i :: 0 <= i < |stack| ==> stack[i].size > 0
    ensures AfterProbe(first, stack, a, s, core, p) ==
            Dropped(first, Reaches(stack, a, s, p, |stack|), Cuts(stack, a, s, core, p))
    decreases |stack|
  {
    if stack != [] {
      var e, tail, left := stack[0], stack[1..], Left(stack[0], a, s, p);
      assert stack == [e] + tail;
      if left != 0 {
        WalkIs(false, tail, a, s, core, left);
      }
      OneEntry(first, e, tail, a, s, core, p, left);
    }
  }

  lemma OneEntry(first: bool, e: Entry, tail: seq<Entry>, a: nat, s: nat, core: int, p: nat, left: nat)
    requires s > 0 && e.size > 0 && left == Left(e, a, s, p) && Follows(tail, a, s, core, left)
    ensures AfterProbe(first, [e] + tail, a, s, core, p) ==
            Dropped(first, Goes(tail, a, s, left), Cut(e, a, s, core) + Behind(tail, a, s, core, left))
  {
    var ins := Inserted(e, a, s, core);
    PieceCounts(e, a, s, core, p);
    if |ins| == 0 {
      assert Cut(e, a, s, core) == [Probed(e, a, s, core)];
      OverSettled(first, e, tail, a, s, core, p, left);
    } else if |ins| == 1 {
      assert ins == [ins[0]];
      CutOnce(first, e, ins[0], tail, a, s, core, p, StillPending(e, a, s, p), left);
    } else {
      assert ins == [ins[0], ins[1]];
      CutTwice(first, e, ins[0], ins[1], tail, a, s, core, p, StillPending(e, a, s, p), left);
    }
  }

  /** The pieces need no further cut; only the one behind a late match overlaps the range, with the same bytes. */
  lemma PieceCounts(e: Entry, a: nat, s: nat, core: int, p: nat)
    requires s > 0 && e.size > 0
    ensures var ins, q := Inserted(e, a, s, core), StillPending(e, a, s, p);
            && |ins| <= 2
            && (|ins| == 0 ==> Left(e, a, s, p) == q)
            && (|ins| > 0 ==> Settled(ins[0], a, s, core))
            && (|ins| > 0 ==> Left(e, a, s, p) == if q == 0 then 0 else StillPending(ins[0], a, s, q))
            && (|ins| == 2 ==> Settled(ins[1], a, s, core) && !Overlaps(ins[1], a, s))
  {
  }

  // ---------------------------------------------------------------- what the walk makes of a byte

  function Marked(e: Entry, a: nat, s: nat, core: int, b: nat): Mark {
    if InRange(a, s, b) then Mark(true, core) else Mark(e.inv, e.core)
  }

  /** At most three pieces: which of them holds the byte. */
  lemma ViewShort(w: seq<Entry>, b: nat)
    requires 1 <= |w| <= 3
    ensures View(w, b) ==
            if Has(w[0], b) then Some(Mark(w[0].inv, w[0].core))
            else if |w| > 1 && Has(w[1], b) then Some(Mark(w[1].inv, w[1].core))
            else if |w| > 2 && Has(w[2], b) then Some(Mark(w[2].inv, w[2].core))
            else None
  {
    var x := w[1..];
    assert |w| > 1 ==> x[0] == w[1];
    if |w| > 1 {
      var y := x[1..];
      assert |w| > 2 ==> y[0] == w[2] && View(y[1..], b) == None;
    }
  }

  ghost predicate Piece(x: Entry, e: Entry, a: nat, s: nat, core: int, b: nat) {
    Has(x, b) ==> Has(e, b) && Mark(x.inv, x.core) == Marked(e, a, s, core, b)
  }

  lemma CutPieces(e: Entry, a: nat, s: nat, core: int, b: nat)
    requires s > 0 && e.size > 0
    ensures var w := Cut(e, a, s, core);
            && 1 <= |w| <= 3 && Piece(w[0], e, a, s, core, b)
            && (|w| > 1 ==> Piece(w[1], e, a, s, core, b)) && (|w| > 2 ==> Piece(w[2], e, a, s, core, b))
            && (Has(e, b) ==> Has(w[0], b) || (|w| > 1 && Has(w[1], b)) || (|w| > 2 && Has(w[2], b)))
  {
  }

  lemma CutView(e: Entry, a: nat, s: nat, core: int, b: nat)
    requires s > 0 && e.size > 0
    ensures View(Cut(e, a, s, core), b) == if Has(e, b) then Some(Marked(e, a, s, core, b)) else None
  {
    CutPieces(e, a, s, core, b);
    ViewShort(Cut(e, a, s, core), b);
  }

  lemma {:induction false} CutsView(stack: seq<Entry>, a: nat, s: nat, core: int, p: nat, l: nat, b: nat)
    requires Valid(stack) && s > 0 && l < |stack| && Has(stack[l], b)
    ensures View(Cuts(stack, a, s, core, p), b) ==
            Some(if Reaches(stack, a, s, p, l) then Marked(stack[l], a, s, core, b)
                 else Mark(stack[l].inv, stack[l].core))
    decreases l
  {
    var e, tail, left := stack[0], stack[1..], Left(stack[0], a, s, p);
    RestValid(stack);
    CutView(e, a, s, core, b);
    ViewJoin(Cut(e, a, s, core), Behind(tail, a, s, core, left), b);
    if l > 0 {
      assert tail[l - 1] == stack[l];
      assert InStack(tail, b);
      if left == 0 {
        ViewAt(tail, l - 1, b);
      } else {
        CutsView(tail, a, s, core, left, l - 1, b);
      }
    }
  }

  /** The pieces hold the same bytes and lie apart. */
  lemma {:induction false} CutsValid(stack: seq<Entry>, a: nat, s: nat, core: int, p: nat)
    requires Valid(stack) && s > 0
    ensures Valid(Cuts(stack, a, s, core, p))
    ensures forall b: nat :: InStack(Cuts(stack, a, s, core, p), b) <==> InStack(stack, b)
    decreases |stack|
  {
    if stack != [] {
      var e, tail, left := stack[0], stack[1..], Left(stack[0], a, s, p);
      var cut, behind := Cut(e, a, s, core), Behind(tail, a, s, core, left);
      RestValid(stack);
      if left != 0 {
        CutsValid(tail, a, s, core, left);
      }
      PiecesAre(e, a, s, core);
      ValidJoin(cut, behind);
      forall b: nat
        ensures InStack(cut + behind, b) <==> InStack(stack, b)
      {
        InStackJoin(cut, behind, b);
        InStackFirst(stack, b);
      }
    }
  }

  // ---------------------------------------------------------------- how far the walk gets

  /** Bytes subtracted twice on these entries. */
  function Twice(stack: seq<Entry>, a: nat, s: nat): nat {
    if stack == [] then 0 else (if Late(stack[0], a) then Overlap(stack[0], a, s) else 0) + Twice(stack[1..], a, s)
  }

  function Spent(stack: seq<Entry>, a: nat, s: nat): nat {
    Matched(stack, a, s) + Twice(stack, a, s)
  }

  lemma {:induction false} MatchedAppend(x: seq<Entry>, y: seq<Entry>, a: nat, s: nat)
    ensures Matched(x + y, a, s) == Matched(x, a, s) + Matched(y, a, s)
    ensures Twice(x + y, a, s) == Twice(x, a, s) + Twice(y, a, s)
  {
    if x == [] {
      assert x + y == y;
    } else {
      assert (x + y)[1..] == x[1..] + y;
      MatchedAppend(x[1..], y, a, s);
    }
  }

  lemma {:induction false} TwiceBounded(stack: seq<Entry>, a: nat, s: nat)
    ensures Twice(stack, a, s) <= Matched(stack, a, s)
  {
    if stack != [] {
      TwiceBounded(stack[1..], a, s);
    }
  }

  /** The 32-bit counter is zero exactly if the bytes subtracted are the bytes of the range. */
  lemma WrapsToZero(s: nat, x: nat, y: nat)
    requires 0 < s < WORD32 && x + y <= 2 * s
    ensures (s - x) % WORD32 < WORD32 && Sub32((s - x) % WORD32, y) == (s - (x + y)) % WORD32
    ensures (s - (x + y)) % WORD32 == 0 <==> x + y == s
  {
    assert (s - x) % WORD32 == s - x || (s - x) % WORD32 == s - x + WORD32;
  }

  /** The walk stops at this entry exactly if the bytes subtracted so far, or those without the second subtraction, are
      the bytes of the range. */
  lemma StopsHere(pre: seq<Entry>, e: Entry, a: nat, s: nat, p: nat)
    requires 0 < s < WORD32 && p == (s - Spent(pre, a, s)) % WORD32 && Spent(pre + [e], a, s) <= 2 * s
    ensures Left(e, a, s, p) == 0 <==>
            Spent(pre + [e], a, s) == s || (Late(e, a) && Spent(pre, a, s) + Overlap(e, a, s) == s)
    ensures Left(e, a, s, p) != 0 ==> Left(e, a, s, p) == (s - Spent(pre + [e], a, s)) % WORD32
  {
    var x, y := Spent(pre, a, s), Overlap(e, a, s);
    MatchedAppend(pre, [e], a, s);
    assert [e][1..] == [] && Matched([e], a, s) == y;
    WrapsToZero(s, x, y);
    if Late(e, a) {
      WrapsToZero(s, x + y, y);
    }
  }

  /** The walk stops behind the `j`-th entry. */
  ghost predicate Stops(stack: seq<Entry>, a: nat, s: nat, j: nat)
    requires 0 < j <= |stack|
  {
    || Spent(stack[..j], a, s) == s
    || (Late(stack[j - 1], a) && Spent(stack[..j - 1], a, s) + Overlap(stack[j - 1], a, s) == s)
  }

  lemma SpentBounded(stack: seq<Entry>, a: nat, s: nat, j: nat)
    requires Valid(stack) && j <= |stack|
    ensures Spent(stack[..j], a, s) <= 2 * s
  {
    assert stack == stack[..j] + stack[j..];
    MatchedAppend(stack[..j], stack[j..], a, s);
    MatchedBounded(stack, a, s);
    TwiceBounded(stack[..j], a, s);
  }

  lemma StopsAt(stack: seq<Entry>, a: nat, s: nat, k: nat, p: nat, up: nat)
    requires Valid(stack) && up == k + 1 <= |stack|
    requires 0 < s < WORD32 && p == (s - Spent(stack[..k], a, s)) % WORD32
    ensures Left(stack[k], a, s, p) == 0 <==> Stops(stack, a, s, up)
    ensures Left(stack[k], a, s, p) != 0 ==> Left(stack[k], a, s, p) == (s - Spent(stack[..up], a, s)) % WORD32
  {
    assert stack[..k] + [stack[k]] == stack[..up];
    SpentBounded(stack, a, s, up);
    StopsHere(stack[..k], stack[k], a, s, p);
  }

  /** The walk gets to an entry if and only if it stops nowhere before it. */
  lemma {:induction false} ReachesIs(stack: seq<Entry>, a: nat, s: nat, k: nat, p: nat, l: nat)
    requires Valid(stack) && k <= l <= |stack|
    requires 0 < s < WORD32 && p == (s - Spent(stack[..k], a, s)) % WORD32
    ensures Reaches(stack[k..], a, s, p, l - k) <==> forall j :: k < j <= l ==> !Stops(stack, a, s, j)
    decreases l - k
  {
    if k < l {
      var left := Left(stack[k], a, s, p);
      StopsAt(stack, a, s, k, p, k + 1);
      assert stack[k..][1..] == stack[k + 1..] && stack[k..][0] == stack[k];
      if left != 0 {
        ReachesIs(stack, a, s, k + 1, left, l);
      }
    }
  }

  // ---------------------------------------------------------------- when the walk ends, in terms of the bytes

  /** At most one entry has bytes on both sides of the beginning of the range. */
  lemma OneLate(stack: seq<Entry>, a: nat, i: nat, k: nat)
    requires Valid(stack) && i < |stack| && k < |stack| && i != k && Late(stack[i], a)
    ensures !Late(stack[k], a)
  {
    assert if i < k then Apart(stack[i], stack[k]) else Apart(stack[k], stack[i]);
  }

  ghost predicate NoLate(stack: seq<Entry>, a: nat, j: nat)
    requires j <= |stack|
  {
    forall i :: 0 <= i < j ==> !Late(stack[i], a)
  }

  lemma {:induction false} TwiceNone(stack: seq<Entry>, a: nat, s: nat, j: nat)
    requires j <= |stack| && NoLate(stack, a, j)
    ensures Twice(stack[..j], a, s) == 0
  {
    if j > 0 {
      TwiceNone(stack, a, s, j - 1);
      assert stack[..j - 1] + [stack[j - 1]] == stack[..j];
      MatchedAppend(stack[..j - 1], [stack[j - 1]], a, s);
      assert Twice([stack[j - 1]], a, s) == Twice([stack[j - 1]][1..], a, s);
    }
  }

  lemma {:induction false} TwiceOne(stack: seq<Entry>, a: nat, s: nat, i: nat, j: nat)
    requires Valid(stack) && i < j <= |stack| && Late(stack[i], a)
    ensures Twice(stack[..j], a, s) == Overlap(stack[i], a, s)
  {
    var e := stack[j - 1];
    assert stack[..j - 1] + [e] == stack[..j];
    MatchedAppend(stack[..j - 1], [e], a, s);
    assert [e][1..] == [] && [e][0] == e && Twice([e][1..], a, s) == 0;
    if i == j - 1 {
      forall k | 0 <= k < i
        ensures !Late(stack[k], a)
      {
        OneLate(stack, a, i, k);
      }
      TwiceNone(stack, a, s, i);
    } else {
      TwiceOne(stack, a, s, i, j - 1);
      OneLate(stack, a, i, j - 1);
    }
  }

  /** Of the bytes of the range, those found in the first `j` entries and those of the late match, again, are all. */
  ghost predicate Miscounted(stack: seq<Entry>, a: nat, s: nat, j: nat)
    requires j <= |stack|
  {
    exists i :: 0 <= i < j && Late(stack[i], a) && |Covered(stack[..j], a, s)| + (End(stack[i]) - a) == s
  }

  /** All bytes of the range are found in the first `j` entries, with no late match before the last of them. */
  ghost predicate AllFound(stack: seq<Entry>, a: nat, s: nat, j: nat)
    requires 0 < j <= |stack|
  {
    |Covered(stack[..j], a, s)| == s && NoLate(stack, a, j - 1)
  }

  lemma CoveredPrefix(stack: seq<Entry>, a: nat, s: nat, j: nat)
    requires Valid(stack) && j <= |stack|
    ensures |Covered(stack[..j], a, s)| == Matched(stack[..j], a, s) <= s
  {
    assert stack == stack[..j] + stack[j..];
    ValidPart(stack[..j], stack[j..]);
    MatchedIsCovered(stack[..j], a, s);
    MatchedBounded(stack[..j], a, s);
  }

  lemma ValidPart(x: seq<Entry>, y: seq<Entry>)
    requires Valid(x + y)
    ensures Valid(x)
  {
    forall i, j | 0 <= i < j < |x|
      ensures Apart(x[i], x[j])
    {
      assert Apart((x + y)[i], (x + y)[j]);
    }
    forall i | 0 <= i < |x|
      ensures x[i].size > 0
    {
      assert (x + y)[i].size > 0;
    }
  }

  /** What an entry matches is among what the entries down to it match. */
  lemma MatchedStep(stack: seq<Entry>, a: nat, s: nat, i: nat, up: nat)
    requires up == i + 1 <= |stack|
    ensures Matched(stack[..up], a, s) == Matched(stack[..i], a, s) + Overlap(stack[i], a, s)
    ensures Twice(stack[..up], a, s) ==
            Twice(stack[..i], a, s) + if Late(stack[i], a) then Overlap(stack[i], a, s) else 0
  {
    var e := stack[i];
    assert stack[..i] + [e] == stack[..up];
    MatchedAppend(stack[..i], [e], a, s);
    assert [e][1..] == [] && Matched([e], a, s) == Overlap(e, a, s);
  }

  lemma {:induction false} MatchedGrows(stack: seq<Entry>, a: nat, s: nat, i: nat, j: nat)
    requires i <= j <= |stack|
    ensures Matched(stack[..i], a, s) <= Matched(stack[..j], a, s)
  {
    if i < j {
      MatchedGrows(stack, a, s, i, j - 1);
      MatchedStep(stack, a, s, j - 1, j);
    }
  }

  lemma LateOverlap(e: Entry, a: nat, s: nat)
    requires s > 0 && Late(e, a)
    ensures Overlap(e, a, s) == Min(End(e) - a, s)
  {
  }

  /** The same stop, said with the bytes found and the entry that straddles the beginning of the range. */
  lemma StopsIs(stack: seq<Entry>, a: nat, s: nat, j: nat)
    requires Valid(stack) && s > 0 && 0 < j <= |stack|
    ensures Stops(stack, a, s, j) <==> AllFound(stack, a, s, j) || Miscounted(stack, a, s, j)
  {
    CoveredPrefix(stack, a, s, j);
    MatchedStep(stack, a, s, j - 1, j);
    if NoLate(stack, a, j) {
      TwiceNone(stack, a, s, j);
    } else {
      var i :| 0 <= i < j && Late(stack[i], a);
      StopsLate(stack, a, s, i, j);
    }
  }

  lemma StopsLate(stack: seq<Entry>, a: nat, s: nat, i: nat, j: nat)
    requires Valid(stack) && s > 0 && i < j <= |stack| && Late(stack[i], a)
    ensures Stops(stack, a, s, j) <==> AllFound(stack, a, s, j) || Miscounted(stack, a, s, j)
  {
    var m := Matched(stack[..j], a, s);
    CoveredPrefix(stack, a, s, j);
    MatchedStep(stack, a, s, j - 1, j);
    TwiceOne(stack, a, s, i, j);
    LateOverlap(stack[i], a, s);
    LateMatched(stack, a, s, i, j);
    MiscountedIs(stack, a, s, i, j);
    if i == j - 1 {
      forall k | 0 <= k < i
        ensures !Late(stack[k], a)
      {
        OneLate(stack, a, i, k);
      }
      TwiceNone(stack, a, s, i);
    } else {
      OneLate(stack, a, i, j - 1);
    }
  }

  lemma LateMatched(stack: seq<Entry>, a: nat, s: nat, i: nat, j: nat)
    requires i < j <= |stack|
    ensures Overlap(stack[i], a, s) <= Matched(stack[..j], a, s)
  {
    MatchedStep(stack, a, s, i, i + 1);
    MatchedGrows(stack, a, s, i + 1, j);
  }

  lemma MiscountedIs(stack: seq<Entry>, a: nat, s: nat, i: nat, j: nat)
    requires Valid(stack) && i < j <= |stack| && Late(stack[i], a)
    ensures Miscounted(stack, a, s, j) <==> |Covered(stack[..j], a, s)| + (End(stack[i]) - a) == s
  {
    if k :| 0 <= k < j && Late(stack[k], a) && |Covered(stack[..j], a, s)| + (End(stack[k]) - a) == s {
      if k != i {
        OneLate(stack, a, i, k);
      }
    }
  }

  /** Some miscount before the entry at `l`. */
  ghost predicate StopsShort(stack: seq<Entry>, a: nat, s: nat, l: nat)
    requires l <= |stack|
  {
    exists j :: 0 < j <= l && Miscounted(stack, a, s, j)
  }

  /** Nothing ends the walk before the bottom of the stack. */
  ghost predicate Through(stack: seq<Entry>, a: nat, s: nat) {
    forall j :: 0 < j <= |stack| ==> !AllFound(stack, a, s, j) && !Miscounted(stack, a, s, j)
  }

  lemma ReachesTop(stack: seq<Entry>, a: nat, s: nat, l: nat)
    requires Valid(stack) && 0 < s < WORD32 && l <= |stack|
    ensures Reaches(stack, a, s, s, l) <==>
            forall j :: 0 < j <= l ==> !AllFound(stack, a, s, j) && !Miscounted(stack, a, s, j)
  {
    assert stack[0..] == stack && Spent(stack[..0], a, s) == 0;
    ReachesIs(stack, a, s, 0, s, l);
    forall j | 0 < j <= l
      ensures Stops(stack, a, s, j) <==> AllFound(stack, a, s, j) || Miscounted(stack, a, s, j)
    {
      StopsIs(stack, a, s, j);
    }
  }

  /** Before an entry with bytes of the range the walk can only stop by a miscount. */
  lemma ReachesByte(stack: seq<Entry>, a: nat, s: nat, l: nat, b: nat)
    requires Valid(stack) && 0 < s < WORD32 && l < |stack| && Has(stack[l], b) && InRange(a, s, b)
    ensures Reaches(stack, a, s, s, l) <==> !StopsShort(stack, a, s, l)
  {
    ReachesTop(stack, a, s, l);
    forall j | 0 < j <= l
      ensures !AllFound(stack, a, s, j)
    {
      StillSome(stack, a, s, l, b, j);
    }
  }

  lemma StillSome(stack: seq<Entry>, a: nat, s: nat, l: nat, b: nat, j: nat)
    requires Valid(stack) && j <= l < |stack| && Has(stack[l], b) && InRange(a, s, b)
    ensures |Covered(stack[..j], a, s)| < s
  {
    assert Overlap(stack[l], a, s) > 0;
    MatchedGrows(stack, a, s, j, l);
    MatchedStep(stack, a, s, l, l + 1);
    CoveredPrefix(stack, a, s, j);
    CoveredPrefix(stack, a, s, l + 1);
  }

  // ---------------------------------------------------------------- the bytes that leave

  /** The last of the pieces, which the probe takes off the stack if it is invalid. */
  function LastPiece(e: Entry, a: nat, s: nat, core: int): Entry {
    var w := Cut(e, a, s, core);
    w[|w| - 1]
  }

  lemma {:induction false} CutsLast(stack: seq<Entry>, a: nat, s: nat, core: int, p: nat)
    requires stack != [] && Reaches(stack, a, s, p, |stack|)
    ensures var w := Cuts(stack, a, s, core, p);
            && |w| >= |stack| && w[|w| - 1] == LastPiece(stack[|stack| - 1], a, s, core)
            && (|w| == 1 <==> |stack| == 1 && |Cut(stack[0], a, s, core)| == 1)
  {
    var tail, left := stack[1..], Left(stack[0], a, s, p);
    if tail == [] {
      assert Cuts(stack, a, s, core, p) == Cut(stack[0], a, s, core);
    } else {
      CutsLast(tail, a, s, core, left);
      assert tail[|tail| - 1] == stack[|stack| - 1];
    }
  }

  /** The entry stays in one piece. */
  predicate Whole(e: Entry, a: nat, s: nat) {
    !Overlaps(e, a, s) || (a <= e.elem && End(e) <= a + s)
  }

  lemma LastPieceIs(e: Entry, a: nat, s: nat, core: int, b: nat)
    requires s > 0 && e.size > 0
    ensures |Cut(e, a, s, core)| == 1 <==> Whole(e, a, s)
    ensures var x := LastPiece(e, a, s, core);
            Has(x, b) && x.inv <==>
              Has(e, b) && if InRange(a, s, b) then End(e) <= a + s else e.inv && (!Overlaps(e, a, s) || b >= a + s)
  {
    PieceCounts(e, a, s, core, 0);
  }

  /** Byte `b` of the entry at `l` is on what is invalid at the bottom, with something above it. */
  predicate OnInvalidTail(stack: seq<Entry>, a: nat, s: nat, l: nat, b: nat)
    requires l < |stack|
  {
    var e := stack[l];
    && l == |stack| - 1 && !(l == 0 && Whole(e, a, s))
    && if InRange(a, s, b) then End(e) <= a + s else e.inv && (!Overlaps(e, a, s) || b >= a + s)
  }

  /** The byte goes: it is on an invalid tail when the walk gets to the bottom. */
  ghost predicate Leaves(stack: seq<Entry>, a: nat, s: nat, l: nat, b: nat)
    requires l < |stack|
  {
    Through(stack, a, s) && OnInvalidTail(stack, a, s, l, b)
  }

  lemma LastGoes(w: seq<Entry>, b: nat)
    requires Valid(w) && w != [] && InStack(w, b)
    ensures View(w[..|w| - 1], b) == if Has(w[|w| - 1], b) then None else View(w, b)
  {
    var n := |w| - 1;
    assert w == w[..n] + [w[n]];
    ViewJoin(w[..n], [w[n]], b);
    ViewIs(w, b);
    ViewIs(w[..n], b);
    assert View([w[n]][1..], b) == None;
    if i :| 0 <= i < n && Has(w[..n][i], b) {
      assert Apart(w[i], w[n]);
    }
  }

  /** The whole effect of a probe on a byte of the stack, whatever the stack. */
  lemma ProbeIs(st: State, a: nat, s: nat, core: int, l: nat, b: nat)
    requires Valid(st.stack) && 0 < s < WORD32 && l < |st.stack| && Has(st.stack[l], b)
    ensures var e, after := st.stack[l], Apply(st, Probe(a, s, core)).stack;
            View(after, b) ==
              if Leaves(st.stack, a, s, l, b) then None
              else if InRange(a, s, b) && !StopsShort(st.stack, a, s, l) then Some(Mark(true, core))
              else Some(Mark(e.inv, e.core))
  {
    var stack := st.stack;
    var w, through := Cuts(stack, a, s, core, s), Reaches(stack, a, s, s, |stack|);
    WalkIs(true, stack, a, s, core, s);
    ByteOf(stack, a, s, core, l, b);
    DroppedByte(stack, a, s, core, l, b, w, through);
  }

  lemma ByteOf(stack: seq<Entry>, a: nat, s: nat, core: int, l: nat, b: nat)
    requires Valid(stack) && 0 < s < WORD32 && l < |stack| && Has(stack[l], b)
    ensures View(Cuts(stack, a, s, core, s), b) ==
            Some(if InRange(a, s, b) && !StopsShort(stack, a, s, l) then Mark(true, core)
                 else Mark(stack[l].inv, stack[l].core))
  {
    CutsView(stack, a, s, core, s, l, b);
    if InRange(a, s, b) {
      ReachesByte(stack, a, s, l, b);
    }
  }

  lemma DroppedByte(stack: seq<Entry>, a: nat, s: nat, core: int, l: nat, b: nat, w: seq<Entry>, through: bool)
    requires Valid(stack) && 0 < s < WORD32 && l < |stack| && Has(stack[l], b)
    requires w == Cuts(stack, a, s, core, s) && through == Reaches(stack, a, s, s, |stack|)
    ensures View(Dropped(true, through, w), b) == if Leaves(stack, a, s, l, b) then None else View(w, b)
  {
    ThroughIs(stack, a, s);
    if through {
      CutsLast(stack, a, s, core, s);
      LastOf(stack, a, s, core, l, b);
      DroppedLast(stack, a, s, core, l, b, w);
    }
  }

  lemma ThroughIs(stack: seq<Entry>, a: nat, s: nat)
    requires Valid(stack) && 0 < s < WORD32
    ensures Reaches(stack, a, s, s, |stack|) <==> Through(stack, a, s)
  {
    ReachesTop(stack, a, s, |stack|);
  }

  lemma DroppedLast(stack: seq<Entry>, a: nat, s: nat, core: int, l: nat, b: nat, w: seq<Entry>)
    requires Valid(stack) && s > 0 && l < |stack| && Has(stack[l], b)
    requires w == Cuts(stack, a, s, core, s) && w != []
    ensures View(w[..|w| - 1], b) == if Has(w[|w| - 1], b) then None else View(w, b)
  {
    CutsValid(stack, a, s, core, s);
    assert InStack(stack, b);
    LastGoes(w, b);
  }

  lemma LastOf(stack: seq<Entry>, a: nat, s: nat, core: int, l: nat, b: nat)
    requires Valid(stack) && s > 0 && l < |stack| && Has(stack[l], b)
    ensures var x := LastPiece(stack[|stack| - 1], a, s, core);
            Has(x, b) && x.inv && !(|stack| == 1 && |Cut(stack[0], a, s, core)| == 1) <==>
              OnInvalidTail(stack, a, s, l, b)
  {
    var n := |stack| - 1;
    LastPieceIs(stack[n], a, s, core, b);
    if l < n {
      assert Apart(stack[l], stack[n]);
    } else {
      LastPieceIs(stack[0], a, s, core, b);
    }
  }

  // ---------------------------------------------------------------- what a caller can rely on

  /** The entry that straddles the beginning of the range ends inside it. */
  predicate EndMatch(e: Entry, a: nat, s: nat) {
    e.elem < a < End(e) <= a + s
  }

  /** Every byte of the entry would come out right even if the walk stopped short of it. */
  ghost predicate Reached(stack: seq<Entry>, a: nat, s: nat, core: int, l: nat)
    requires l < |stack|
  {
    StopsShort(stack, a, s, l) && Overlaps(stack[l], a, s) ==> stack[l].inv && stack[l].core == core
  }

  ghost predicate Invalidated(after: seq<Entry>, a: nat, s: nat, core: int, b: nat) {
    InRange(a, s, b) && InStack(after, b) ==> View(after, b) == Some(Mark(true, core))
  }

  lemma NoEndMatch(stack: seq<Entry>, a: nat, s: nat, j: nat)
    requires Valid(stack) && 0 < s && j <= |stack|
    requires forall i :: 0 <= i < |stack| ==> !EndMatch(stack[i], a, s)
    ensures !Miscounted(stack, a, s, j)
  {
    forall i | 0 <= i < j && Late(stack[i], a)
      ensures |Covered(stack[..j], a, s)| + (End(stack[i]) - a) != s
    {
      assert !EndMatch(stack[i], a, s);
    }
  }

  /** A probe invalidates every byte of its range on the stack if and only if the walk stops short of no valid entry
      and of no entry that another core invalidated; without an end match it always does. */
  lemma ProbeInvalidates(st: State, a: nat, s: nat, core: int)
    requires Valid(st.stack) && 0 < s < WORD32
    ensures var after := Apply(st, Probe(a, s, core)).stack;
            (forall b :: Invalidated(after, a, s, core, b)) <==>
              forall l :: 0 <= l < |st.stack| ==> Reached(st.stack, a, s, core, l)
    ensures (forall i :: 0 <= i < |st.stack| ==> !EndMatch(st.stack[i], a, s)) ==>
            forall b :: Invalidated(Apply(st, Probe(a, s, core)).stack, a, s, core, b)
  {
    var after := Apply(st, Probe(a, s, core)).stack;
    if forall l :: 0 <= l < |st.stack| ==> Reached(st.stack, a, s, core, l) {
      forall b: nat
        ensures Invalidated(after, a, s, core, b)
      {
        ReachedByte(st, a, s, core, b);
      }
    } else {
      var l :| 0 <= l < |st.stack| && !Reached(st.stack, a, s, core, l);
      var b := MissedByte(st, a, s, core, l);
    }
    if forall i :: 0 <= i < |st.stack| ==> !EndMatch(st.stack[i], a, s) {
      forall l | 0 <= l < |st.stack|
        ensures Reached(st.stack, a, s, core, l)
      {
        forall j | 0 < j <= l
          ensures !Miscounted(st.stack, a, s, j)
        {
          NoEndMatch(st.stack, a, s, j);
        }
      }
    }
  }

  lemma ReachedByte(st: State, a: nat, s: nat, core: int, b: nat)
    requires Valid(st.stack) && 0 < s < WORD32
    requires forall l :: 0 <= l < |st.stack| ==> Reached(st.stack, a, s, core, l)
    ensures Invalidated(Apply(st, Probe(a, s, core)).stack, a, s, core, b)
  {
    var after := Apply(st, Probe(a, s, core)).stack;
    ProbeKeepsValid(true, st.stack, a, s, core, s);
    if InRange(a, s, b) && InStack(after, b) {
      var l :| 0 <= l < |st.stack| && Has(st.stack[l], b);
      ProbeIs(st, a, s, core, l, b);
      ViewIs(after, b);
      assert Reached(st.stack, a, s, core, l);
    }
  }

  lemma MissedByte(st: State, a: nat, s: nat, core: int, l: nat) returns (b: nat)
    requires Valid(st.stack) && 0 < s < WORD32 && l < |st.stack| && !Reached(st.stack, a, s, core, l)
    ensures !Invalidated(Apply(st, Probe(a, s, core)).stack, a, s, core, b)
  {
    b := From(st.stack[l], a);
    ProbeIs(st, a, s, core, l, b);
    ViewIs(Apply(st, Probe(a, s, core)).stack, b);
    var j :| 0 < j <= l && Miscounted(st.stack, a, s, j);
    assert !Through(st.stack, a, s);
  }

  /** A byte outside the range keeps its bit and its core, or was invalid and goes with the tail. */
  lemma OutsideStays(st: State, a: nat, s: nat, core: int, b: nat)
    requires Valid(st.stack) && 0 < s < WORD32 && InStack(st.stack, b) && !InRange(a, s, b)
    ensures var before, after := View(st.stack, b), View(Apply(st, Probe(a, s, core)).stack, b);
            before.Some? && (after == before || (after == None && before.value.inv))
  {
    var l :| 0 <= l < |st.stack| && Has(st.stack[l], b);
    ViewAt(st.stack, l, b);
    ProbeIs(st, a, s, core, l, b);
  }

  /** An end match that stops short: byte 8 stays valid although the probe of [4, 12) covers it. */
  lemma EndMatchStopsShort()
    ensures View(RunTrace([Access(8, 4, 0), Access(0, 8, 0), Probe(4, 8, 1)]).stack, 8) == Some(Mark(false, 0))
  {
    var x, y, z := Access(8, 4, 0), Access(0, 8, 0), Probe(4, 8, 1);
    assert [x, y, z][..2] == [x, y];
    var st := RunTrace([x, y]);
    TwoAccesses(x, y);
    assert RunTrace([x, y, z]) == Apply(st, z);
    ProbeBoth(st.stack, Entry(0, 8, false, 0), Entry(8, 4, false, 0));
  }

  lemma TwoAccesses(x: Event, y: Event)
    requires x == Access(8, 4, 0) && y == Access(0, 8, 0)
    ensures RunTrace([x, y]).stack == [Entry(0, 8, false, 0), Entry(8, 4, false, 0)]
  {
    assert [x, y][..1] == [x] && [x][..0] == [];
    assert RunTrace([x]) == Apply(Init(), x) && RunTrace([x, y]) == Apply(RunTrace([x]), y);
    var f := Entry(8, 4, false, 0);
    assert Strip([], 8, 4) == [] && RunTrace([x]).stack == [f];
    assert [f][1..] == [] && Rest(f, 0, 8) == [f] && Strip([f], 0, 8) == [f];
  }

  lemma ProbeBoth(stack: seq<Entry>, e: Entry, f: Entry)
    requires stack == [e, f] && e == Entry(0, 8, false, 0) && f == Entry(8, 4, false, 0)
    ensures View(AfterProbe(true, stack, 4, 8, 1, 8), 8) == Some(Mark(false, 0))
  {
    var p := Entry(4, 4, true, 1);
    assert stack[1..] == [f] && ([p] + [f])[1..] == [f];
    assert Inserted(e, 4, 8, 1) == [p] && StillPending(e, 4, 8, 8) == 4;
    StepCut(true, stack, 4, 8, 1, 8, [p], 4);
    StepOver(false, [p] + [f], 4, 8, 1, 4, p, 0);
    ViewShort([e.(size := 4)] + ([p] + [f]), 8);
  }
}
