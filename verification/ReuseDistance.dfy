/** What the counted distance means, in distinct bytes touched since the last access. */
module ReuseDistance {
  // In any trace of accesses and probes the distance lies between the number of distinct bytes accessed since the last
  // access of the byte and the number accessed at or after that access; without probes a byte is cold exactly when new.

  import opened Collections
  import opened BinaryLog
  import opened ReuseStack
  import opened ReuseCover
  import opened ReuseTraces
  import opened ReuseProbes

  ghost predicate OnlyAccesses(trace: seq<Event>) {
    Sizes(trace) && forall i :: 0 <= i < |trace| ==> trace[i].Access?
  }

  predicate Touches(ev: Event, b: nat) {
    ev.Access? && ev.a <= b < ev.a + ev.s
  }

  /** When byte `b` was last accessed, -1 if never. */
  function LastAccess(trace: seq<Event>, b: nat): (t: int)
    ensures -1 <= t < |trace|
  {
    if trace == [] then -1
    else if Touches(trace[|trace| - 1], b) then |trace| - 1
    else LastAccess(trace[..|trace| - 1], b)
  }

  /** The distinct bytes accessed at time `t` or later. */
  ghost function AccessedFrom(trace: seq<Event>, t: nat): set<nat> {
    if trace == [] || t >= |trace| then {}
    else
      var ev := trace[|trace| - 1];
      AccessedFrom(trace[..|trace| - 1], t) + if ev.Access? then Range(ev.a, ev.s) else {}
  }

  lemma {:induction false} AccessedFromIs(trace: seq<Event>, t: nat, b: nat)
    ensures b in AccessedFrom(trace, t) <==> LastAccess(trace, b) >= t
  {
    if trace != [] {
      AccessedFromIs(trace[..|trace| - 1], t, b);
    }
  }

  /** Most recent first: bytes of one entry were last accessed together, bytes further down not later. */
  ghost predicate Ordered(stack: seq<Entry>, time: nat -> int) {
    stack == [] ||
    (&& (forall b: nat, c: nat :: Has(stack[0], b) && Has(stack[0], c) ==> time(b) == time(c))
     && (forall b: nat, c: nat :: Has(stack[0], b) && InStack(stack[1..], c) ==> time(b) >= time(c))
     && Ordered(stack[1..], time))
  }

  lemma OrderedCons(e: Entry, t: seq<Entry>, time: nat -> int)
    requires forall b: nat, c: nat :: Has(e, b) && Has(e, c) ==> time(b) == time(c)
    requires forall b: nat, c: nat :: Has(e, b) && InStack(t, c) ==> time(b) >= time(c)
    requires Ordered(t, time)
    ensures Ordered([e] + t, time)
  {
    assert ([e] + t)[1..] == t && ([e] + t)[0] == e;
  }

  /** Pieces accessed together, on top of anything not accessed later. */
  lemma {:induction false} PiecesOrdered(r: seq<Entry>, t: seq<Entry>, time: nat -> int)
    requires forall b: nat, c: nat :: InStack(r, b) && InStack(r, c) ==> time(b) == time(c)
    requires forall b: nat, c: nat :: InStack(r, b) && InStack(t, c) ==> time(b) >= time(c)
    requires Ordered(t, time)
    ensures Ordered(r + t, time)
  {
    if r == [] {
      assert r + t == t;
    } else {
      var q := r[1..];
      forall b: nat
        ensures InStack(r, b) <==> Has(r[0], b) || InStack(q, b)
      {
        InStackFirst(r, b);
      }
      PiecesOrdered(q, t, time);
      forall c: nat
        ensures InStack(q + t, c) <==> InStack(q, c) || InStack(t, c)
      {
        InStackJoin(q, t, c);
      }
      OrderedCons(r[0], q + t, time);
      assert r + t == [r[0]] + (q + t);
    }
  }

  /** Cutting keeps the order. */
  lemma {:induction false} StripOrdered(stack: seq<Entry>, a: nat, s: nat, time: nat -> int)
    requires Valid(stack) && Ordered(stack, time)
    ensures Ordered(Strip(stack, a, s), time)
  {
    if stack != [] {
      RestValid(stack);
      StripOrdered(stack[1..], a, s, time);
      StripIs(stack[1..], a, s);
      RestIs(stack[0], a, s);
      PiecesOrdered(Rest(stack[0], a, s), Strip(stack[1..], a, s), time);
    }
  }

  lemma {:induction false} OrderedAgrees(stack: seq<Entry>, time: nat -> int, time': nat -> int)
    requires Ordered(stack, time) && forall b: nat :: InStack(stack, b) ==> time(b) == time'(b)
    ensures Ordered(stack, time')
  {
    if stack != [] {
      forall b: nat
        ensures InStack(stack, b) <==> Has(stack[0], b) || InStack(stack[1..], b)
      {
        InStackFirst(stack, b);
      }
      OrderedAgrees(stack[1..], time, time');
    }
  }

  ghost function Times(trace: seq<Event>): nat -> int {
    (b: nat) => LastAccess(trace, b)
  }

  /** No byte on the stack was accessed before `c`. */
  ghost predicate Older(trace: seq<Event>, stack: seq<Entry>, c: nat) {
    forall b: nat :: InStack(stack, b) ==> LastAccess(trace, c) <= LastAccess(trace, b)
  }

  /** Disjoint entries of accessed bytes, most recent first; an accessed byte that is not there is older than all that
      are. */
  ghost predicate Recency(trace: seq<Event>, stack: seq<Entry>) {
    && Valid(stack) && Ordered(stack, Times(trace))
    && (forall b: nat :: InStack(stack, b) ==> LastAccess(trace, b) >= 0)
    && forall c: nat :: InStack(stack, c) || Older(trace, stack, c)
  }

  lemma {:induction false} StackIsRecency(trace: seq<Event>)
    requires Sizes(trace)
    ensures Recency(trace, RunTrace(trace).stack)
  {
    if trace != [] {
      var front, ev := trace[..|trace| - 1], trace[|trace| - 1];
      StackIsRecency(front);
      if ev.Access? {
        AccessKeepsRecency(trace, RunTrace(front).stack);
      } else {
        ProbeKeepsRecency(trace, front, RunTrace(front).stack, ev.a, ev.s, ev.core);
      }
    }
  }

  lemma AccessKeepsRecency(trace: seq<Event>, stack: seq<Entry>)
    requires trace != [] && trace[|trace| - 1].Access? && trace[|trace| - 1].s > 0
    requires Recency(trace[..|trace| - 1], stack)
    ensures var ev := trace[|trace| - 1];
            Recency(trace, AfterAccess(stack, ev.a, ev.s, ev.core))
  {
    var ev := trace[|trace| - 1];
    var after := AfterAccess(stack, ev.a, ev.s, ev.core);
    AccessKeepsValid(stack, ev.a, ev.s, ev.core);
    NewestOnTop(trace, stack);
    forall c: nat | !InStack(after, c)
      ensures Older(trace, after, c)
    {
      assert !Touches(ev, c) && Older(trace[..|trace| - 1], stack, c);
    }
  }

  /** Cutting entries in place keeps the order. */
  lemma {:induction false} CutsOrdered(stack: seq<Entry>, a: nat, s: nat, core: int, p: nat, time: nat -> int)
    requires Valid(stack) && s > 0 && Ordered(stack, time)
    ensures Ordered(Cuts(stack, a, s, core, p), time)
    decreases |stack|
  {
    if stack != [] {
      var e, tail, left := stack[0], stack[1..], Left(stack[0], a, s, p);
      RestValid(stack);
      if left != 0 {
        CutsOrdered(tail, a, s, core, left, time);
        CutsValid(tail, a, s, core, left);
      }
      PiecesAre(e, a, s, core);
      PiecesOrdered(Cut(e, a, s, core), Behind(tail, a, s, core, left), time);
    }
  }

  lemma {:induction false} PrefixOrdered(x: seq<Entry>, y: seq<Entry>, time: nat -> int)
    requires Ordered(x + y, time)
    ensures Ordered(x, time)
    ensures forall b: nat, c: nat :: InStack(x, b) && InStack(y, c) ==> time(c) <= time(b)
  {
    if x != [] {
      assert (x + y)[1..] == x[1..] + y;
      PrefixOrdered(x[1..], y, time);
      forall c: nat
        ensures InStack(x[1..] + y, c) <==> InStack(x[1..], c) || InStack(y, c)
      {
        InStackJoin(x[1..], y, c);
      }
      forall c: nat
        ensures InStack(x, c) <==> Has(x[0], c) || InStack(x[1..], c)
      {
        InStackFirst(x, c);
      }
    }
  }

  lemma ProbeKeepsRecency(trace: seq<Event>, front: seq<Event>, stack: seq<Entry>, a: nat, s: nat, core: int)
    requires trace == front + [Probe(a, s, core)] && s > 0 && Recency(front, stack)
    ensures Recency(trace, AfterProbe(true, stack, a, s, core, s))
  {
    var w, after := Cuts(stack, a, s, core, s), AfterProbe(true, stack, a, s, core, s);
    assert trace[..|trace| - 1] == front;
    WalkIs(true, stack, a, s, core, s);
    CutsValid(stack, a, s, core, s);
    CutsOrdered(stack, a, s, core, s, Times(front));
    OrderedAgrees(w, Times(front), Times(trace));
    SameBytes(front, trace, stack, w);
    if after != w {
      LastOffRecency(trace, w);
    }
  }

  /** The probe itself accesses nothing. */
  lemma SameBytes(front: seq<Event>, trace: seq<Event>, stack: seq<Entry>, w: seq<Entry>)
    requires Recency(front, stack) && Valid(w) && Ordered(w, Times(trace))
    requires forall b: nat :: InStack(w, b) <==> InStack(stack, b)
    requires forall b: nat :: LastAccess(trace, b) == LastAccess(front, b)
    ensures Recency(trace, w)
  {
    forall c: nat | !InStack(w, c)
      ensures Older(trace, w, c)
    {
      assert Older(front, stack, c);
    }
  }

  lemma LastOffRecency(trace: seq<Event>, w: seq<Entry>)
    requires w != [] && Recency(trace, w)
    ensures Recency(trace, w[..|w| - 1])
  {
    var x, y := w[..|w| - 1], w[|w| - 1..];
    assert w == x + y;
    ValidPart(x, y);
    PrefixOrdered(x, y, Times(trace));
    forall b: nat
      ensures InStack(w, b) <==> InStack(x, b) || InStack(y, b)
    {
      InStackJoin(x, y, b);
    }
    forall c: nat | !InStack(x, c)
      ensures Older(trace, x, c)
    {
      OlderOff(trace, x, y, w, c);
    }
  }

  lemma OlderOff(trace: seq<Event>, x: seq<Entry>, y: seq<Entry>, w: seq<Entry>, c: nat)
    requires InStack(w, c) || Older(trace, w, c)
    requires forall b: nat :: InStack(w, b) <==> InStack(x, b) || InStack(y, b)
    requires forall b: nat, c: nat :: InStack(x, b) && InStack(y, c) ==> Times(trace)(c) <= Times(trace)(b)
    ensures InStack(x, c) || Older(trace, x, c)
  {
    if !InStack(x, c) && InStack(w, c) {
      forall b: nat | InStack(x, b)
        ensures LastAccess(trace, c) <= LastAccess(trace, b)
      {
        assert Times(trace)(c) <= Times(trace)(b);
      }
    }
  }

  /** Without probes nothing leaves the stack. */
  ghost predicate Full(trace: seq<Event>, stack: seq<Entry>) {
    Recency(trace, stack) && forall b: nat :: InStack(stack, b) <==> LastAccess(trace, b) >= 0
  }

  lemma {:induction false} StackIsFull(trace: seq<Event>)
    requires OnlyAccesses(trace)
    ensures Full(trace, RunTrace(trace).stack)
  {
    StackIsRecency(trace);
    if trace != [] {
      var front, ev := trace[..|trace| - 1], trace[|trace| - 1];
      StackIsFull(front);
      AccessKeepsValid(RunTrace(front).stack, ev.a, ev.s, ev.core);
    }
  }

  lemma NewestOnTop(trace: seq<Event>, stack: seq<Entry>)
    requires trace != [] && trace[|trace| - 1].Access? && Valid(stack)
    requires Ordered(stack, Times(trace[..|trace| - 1]))
    ensures var ev := trace[|trace| - 1];
            Ordered(AfterAccess(stack, ev.a, ev.s, ev.core), Times(trace))
  {
    var front, ev := trace[..|trace| - 1], trace[|trace| - 1];
    var rest := Strip(stack, ev.a, ev.s);
    StripIs(stack, ev.a, ev.s);
    StripOrdered(stack, ev.a, ev.s, Times(front));
    forall b: nat | InStack(rest, b)
      ensures Times(front)(b) == Times(trace)(b)
    {
      assert !Touches(ev, b);
    }
    OrderedAgrees(rest, Times(front), Times(trace));
    var e := Entry(ev.a, ev.s, false, ev.core);
    forall b: nat | Has(e, b)
      ensures Times(trace)(b) == |trace| - 1
    {
      assert Touches(ev, b);
    }
    OrderedCons(e, rest, Times(trace));
  }

  lemma StackBytes(trace: seq<Event>, stack: seq<Entry>)
    requires Full(trace, stack)
    ensures Bytes(stack) == AccessedFrom(trace, 0)
  {
    forall b: nat
      ensures b in Bytes(stack) <==> b in AccessedFrom(trace, 0)
    {
      BytesAre(stack, b);
      AccessedFromIs(trace, 0, b);
    }
  }

  // ---------------------------------------------------------------- the distance of one entry

  /** Order around the entry at position |pre|. */
  lemma {:induction false} OrderedAround(pre: seq<Entry>, e: Entry, tail: seq<Entry>, time: nat -> int, b: nat)
    requires Ordered(pre + [e] + tail, time) && Has(e, b)
    ensures forall c: nat :: InStack(pre, c) ==> time(c) >= time(b)
    ensures forall c: nat :: InStack(tail, c) ==> time(c) <= time(b)
    ensures forall c: nat :: Has(e, c) ==> time(c) == time(b)
  {
    var all := pre + [e] + tail;
    if pre == [] {
      assert all[0] == e && all[1..] == tail;
    } else {
      assert all[1..] == pre[1..] + [e] + tail && all[0] == pre[0];
      OrderedAround(pre[1..], e, tail, time, b);
      InAll(pre[1..], e, tail, b);
      forall c: nat | InStack(pre, c)
        ensures time(c) >= time(b)
      {
        InStackFirst(pre, c);
      }
    }
  }

  lemma InAll(pre: seq<Entry>, e: Entry, tail: seq<Entry>, b: nat)
    ensures InStack(pre + [e] + tail, b) <==> InStack(pre, b) || Has(e, b) || InStack(tail, b)
  {
    InStackJoin(pre + [e], tail, b);
    InStackJoin(pre, [e], b);
    assert InStack([e], b) <==> Has([e][0], b);
  }

  lemma {:induction false} TotalAppend(x: seq<Entry>, y: seq<Entry>)
    ensures Total(x + y) == Total(x) + Total(y)
  {
    if x == [] {
      assert x + y == y;
    } else {
      assert (x + y)[1..] == x[1..] + y;
      TotalAppend(x[1..], y);
    }
  }

  /** Total size down to an entry: more than any set of bytes above it, at most any that holds it and those above. */
  lemma EntryDistance(x: set<nat>, w: set<nat>, stack: seq<Entry>, pre: seq<Entry>, e: Entry, tail: seq<Entry>)
    requires Valid(stack) && stack == pre + [e] + tail && x <= Bytes(pre) && Bytes(pre + [e]) <= w
    ensures |x| < Total(pre) + e.size <= |w|
  {
    PrefixTotals(pre, e, tail);
    Squeeze(x, Bytes(pre), Bytes(pre + [e]), w);
  }

  lemma Squeeze<T>(x: set<T>, y: set<T>, z: set<T>, w: set<T>)
    requires x <= y && z <= w
    ensures |x| <= |y| && |z| <= |w|
  {
    SubsetSize(x, y);
    SubsetSize(z, w);
  }

  /** The bytes accessed since are above the entry; the entry and what is above it were accessed at or after. */
  lemma EntrySets(trace: seq<Event>, stack: seq<Entry>, pre: seq<Entry>, e: Entry, tail: seq<Entry>, b: nat, t: int)
    requires Recency(trace, stack) && stack == pre + [e] + tail && Has(e, b) && t == LastAccess(trace, b)
    ensures t >= 0 && AccessedFrom(trace, t + 1) <= Bytes(pre) && Bytes(pre + [e]) <= AccessedFrom(trace, t)
  {
    InAll(pre, e, tail, b);
    OrderedAround(pre, e, tail, Times(trace), b);
    forall c: nat | LastAccess(trace, c) > t
      ensures InStack(stack, c)
    {
      assert InStack(stack, c) || Older(trace, stack, c);
    }
    SinceIsAbove(trace, pre, e, tail, b, t);
    AboveIsFrom(trace, pre, e, tail, b, t);
  }

  lemma PrefixTotals(pre: seq<Entry>, e: Entry, tail: seq<Entry>)
    requires Valid(pre + [e] + tail)
    ensures e.size > 0 && |Bytes(pre)| == Total(pre) && |Bytes(pre + [e])| == Total(pre) + e.size
  {
    ValidPart(pre + [e], tail);
    ValidPart(pre, [e]);
    TotalIsBytes(pre);
    TotalIsBytes(pre + [e]);
    TotalAppend(pre, [e]);
    assert Total([e]) == e.size + Total([e][1..]);
    assert (pre + [e])[|pre|] == e;
  }

  lemma SinceIsAbove(trace: seq<Event>, pre: seq<Entry>, e: Entry, tail: seq<Entry>, b: nat, t: nat)
    requires t == LastAccess(trace, b)
    requires forall c: nat :: LastAccess(trace, c) > t ==> InStack(pre + [e] + tail, c)
    requires forall c: nat :: InStack(tail, c) ==> Times(trace)(c) <= t
    requires forall c: nat :: Has(e, c) ==> Times(trace)(c) == t
    ensures AccessedFrom(trace, t + 1) <= Bytes(pre)
  {
    forall c | c in AccessedFrom(trace, t + 1)
      ensures c in Bytes(pre)
    {
      AccessedFromIs(trace, t + 1, c);
      InAll(pre, e, tail, c);
      assert Times(trace)(c) > t;
      BytesAre(pre, c);
    }
  }

  lemma AboveIsFrom(trace: seq<Event>, pre: seq<Entry>, e: Entry, tail: seq<Entry>, b: nat, t: nat)
    requires t == LastAccess(trace, b)
    requires forall c: nat :: InStack(pre, c) ==> Times(trace)(c) >= t
    requires forall c: nat :: Has(e, c) ==> Times(trace)(c) == t
    ensures Bytes(pre + [e]) <= AccessedFrom(trace, t)
  {
    forall c | c in Bytes(pre + [e])
      ensures c in AccessedFrom(trace, t)
    {
      BytesAre(pre + [e], c);
      InStackJoin(pre, [e], c);
      assert InStack([e], c) <==> Has([e][0], c);
      assert Times(trace)(c) >= t;
      AccessedFromIs(trace, t, c);
    }
  }

  // ---------------------------------------------------------------- the matches of an access

  predicate InMatch(m: Match, b: nat) {
    m.start <= b < m.start + m.bytes
  }

  lemma Unwrapped(x: nat, bound: nat)
    requires x <= bound
    ensures bound < WORD32 ==> x % WORD32 == x
  {
  }

  /** Adding to a wrapped sum is adding to the sum and wrapping once. */
  lemma WrapOnce(x: nat, y: nat)
    ensures Add32(x % WORD32, y) == (x + y) % WORD32
  {
    assert x == x / WORD32 * WORD32 + x % WORD32;
  }

  /** Every match comes from an entry of the stack, at the distance of that entry kept in 32 bits. */
  lemma {:induction false} MatchOrigin(pre: seq<Entry>, todo: seq<Entry>, a: nat, s: nat, k: nat)
    returns (i: nat)
    requires k < |Matches(todo, Total(pre) % WORD32, a, s)|
    ensures i < |todo|
    ensures var m := Matches(todo, Total(pre) % WORD32, a, s)[k];
            && m.distance == (Total(pre + todo[..i]) + todo[i].size) % WORD32
            && forall b: nat :: InMatch(m, b) ==> Has(todo[i], b)
    decreases |todo|
  {
    var e, d := todo[0], Total(pre) % WORD32;
    TotalAppend(pre, [e]);
    assert Total([e]) == e.size + Total([e][1..]);
    WrapOnce(Total(pre), e.size);
    assert Add32(d, e.size) == Total(pre + [e]) % WORD32;
    var rest := Matches(todo[1..], Total(pre + [e]) % WORD32, a, s);
    if Overlaps(e, a, s) && k == 0 {
      i := 0;
      assert pre + todo[..0] == pre;
    } else {
      var k' := if Overlaps(e, a, s) then k - 1 else k;
      assert Matches(todo, d, a, s)[k] == rest[k'];
      var j := MatchOrigin(pre + [e], todo[1..], a, s, k');
      i := j + 1;
      assert pre + [e] + todo[1..][..j] == pre + todo[..i];
    }
  }

  lemma BoundAt(trace: seq<Event>, stack: seq<Entry>, a: nat, s: nat, k: nat, b: nat, t: nat) returns (full: nat)
    requires Recency(trace, stack)
    requires k < |Matches(stack, 0, a, s)| && InMatch(Matches(stack, 0, a, s)[k], b) && LastAccess(trace, b) == t
    ensures |AccessedFrom(trace, t + 1)| < full <= |AccessedFrom(trace, t)|
    ensures Matches(stack, 0, a, s)[k].distance == full % WORD32
  {
    var i := TopMatchOrigin(stack, a, s, k);
    EntryBound(trace, stack, i, b, t);
    full := Total(stack[..i]) + stack[i].size;
  }

  lemma EntryBound(trace: seq<Event>, stack: seq<Entry>, i: nat, b: nat, t: nat)
    requires Recency(trace, stack) && i < |stack| && Has(stack[i], b) && t == LastAccess(trace, b)
    ensures |AccessedFrom(trace, t + 1)| < Total(stack[..i]) + stack[i].size <= |AccessedFrom(trace, t)|
  {
    EntrySetsAt(trace, stack, i, b, t);
    EntryDistanceAt(AccessedFrom(trace, t + 1), AccessedFrom(trace, t), stack, i);
  }

  lemma EntrySetsAt(trace: seq<Event>, stack: seq<Entry>, i: nat, b: nat, t: int)
    requires Recency(trace, stack) && i < |stack| && Has(stack[i], b) && t == LastAccess(trace, b)
    ensures t >= 0 && AccessedFrom(trace, t + 1) <= Bytes(stack[..i])
    ensures Bytes(stack[..i] + [stack[i]]) <= AccessedFrom(trace, t)
  {
    Located(stack, i);
    EntrySets(trace, stack, stack[..i], stack[i], stack[i + 1..], b, t);
  }

  lemma EntryDistanceAt(x: set<nat>, w: set<nat>, stack: seq<Entry>, i: nat)
    requires Valid(stack) && i < |stack| && x <= Bytes(stack[..i]) && Bytes(stack[..i] + [stack[i]]) <= w
    ensures |x| < Total(stack[..i]) + stack[i].size <= |w|
  {
    Located(stack, i);
    EntryDistance(x, w, stack, stack[..i], stack[i], stack[i + 1..]);
  }

  lemma TopMatchOrigin(stack: seq<Entry>, a: nat, s: nat, k: nat) returns (i: nat)
    requires k < |Matches(stack, 0, a, s)|
    ensures i < |stack|
    ensures var m := Matches(stack, 0, a, s)[k];
            && m.distance == (Total(stack[..i]) + stack[i].size) % WORD32
            && forall b: nat :: InMatch(m, b) ==> Has(stack[i], b)
  {
    assert [] + stack == stack;
    i := MatchOrigin([], stack, a, s, k);
    assert [] + stack[..i] == stack[..i];
  }

  lemma Located<T>(x: seq<T>, i: nat)
    requires i < |x|
    ensures x == x[..i] + [x[i]] + x[i + 1..]
  {
  }

  /** Reuse-distance bound: at a match of byte `b`, last accessed at time `t`, the distance is strictly more than the
      number of distinct bytes accessed since then, and at most the number accessed at or after then. It is kept in 32
      bits, so it is exact as long as the bytes accessed from `t` on can be counted in 32 bits. */
  lemma ReuseDistanceBound(trace: seq<Event>, stack: seq<Entry>, a: nat, s: nat, k: nat, b: nat, t: nat)
    returns (full: nat)
    requires Sizes(trace) && stack == RunTrace(trace).stack
    requires k < |Matches(stack, 0, a, s)| && InMatch(Matches(stack, 0, a, s)[k], b) && LastAccess(trace, b) == t
    ensures |AccessedFrom(trace, t + 1)| < full <= |AccessedFrom(trace, t)|
    ensures Matches(stack, 0, a, s)[k].distance == full % WORD32
    ensures |AccessedFrom(trace, t)| < WORD32 ==> Matches(stack, 0, a, s)[k].distance == full
  {
    StackIsRecency(trace);
    full := BoundAt(trace, stack, a, s, k, b, t);
    Unwrapped(full, |AccessedFrom(trace, t)|);
  }

  /** The bucket of a match brackets its distance, or the size of the access if that is larger. */
  lemma SlotBrackets(m: Match, s: nat)
    requires s > 0
    ensures Max(m.distance, s) <= Pow2(Slot(m, s))
    ensures Slot(m, s) > 0 ==> Pow2(Slot(m, s) - 1) < Max(m.distance, s)
  {
    BucketBrackets(Max(m.distance, s));
  }

  ghost predicate SomeMatch(ms: seq<Match>, b: nat) {
    exists k :: 0 <= k < |ms| && InMatch(ms[k], b)
  }

  lemma SomeMatchCons(m: Match, rest: seq<Match>, b: nat)
    ensures SomeMatch([m] + rest, b) <==> InMatch(m, b) || SomeMatch(rest, b)
  {
    var ms := [m] + rest;
    if k :| 0 <= k < |rest| && InMatch(rest[k], b) {
      assert InMatch(ms[k + 1], b);
    }
    if InMatch(m, b) {
      assert InMatch(ms[0], b);
    }
    if k :| 0 <= k < |ms| && InMatch(ms[k], b) {
      assert if k == 0 then InMatch(m, b) else InMatch(rest[k - 1], b);
    }
  }

  /** The matches cover exactly the bytes of the access that are on the stack. */
  lemma {:induction false} MatchesCover(stack: seq<Entry>, d: nat, a: nat, s: nat, b: nat)
    requires a <= b < a + s
    ensures SomeMatch(Matches(stack, d, a, s), b) <==> InStack(stack, b)
  {
    if stack != [] {
      var e, d' := stack[0], Add32(d, stack[0].size);
      var rest := Matches(stack[1..], d', a, s);
      MatchesCover(stack[1..], d', a, s, b);
      InStackFirst(stack, b);
      if Overlaps(e, a, s) {
        SomeMatchCons(Match(From(e, a), Common(e, a, s), d', e.inv, e.core), rest, b);
      } else {
        assert Matches(stack, d, a, s) == rest;
      }
    }
  }

  lemma ColdBytes(trace: seq<Event>, stack: seq<Entry>, a: nat, s: nat)
    requires Full(trace, stack)
    ensures Unmatched(stack, a, s) == |Range(a, s) - AccessedFrom(trace, 0)|
  {
    StackBytes(trace, stack);
    MatchedIsCovered(stack, a, s);
    RangeSize(a, s);
    Complement(Range(a, s), Bytes(stack));
  }

  lemma Complement<T>(x: set<T>, y: set<T>)
    ensures |x - y| == |x| - |y * x|
  {
    assert x == (x - y) + (y * x);
  }

  /** Cold exactly when new: a byte of an access is matched if and only if it was accessed before, and the bytes counted
      cold are as many as the bytes of the access never seen. */
  lemma ColdIffNew(trace: seq<Event>, a: nat, s: nat)
    requires OnlyAccesses(trace)
    ensures forall b: nat :: a <= b < a + s ==>
              (SomeMatch(Matches(RunTrace(trace).stack, 0, a, s), b) <==> LastAccess(trace, b) >= 0)
    ensures Unmatched(RunTrace(trace).stack, a, s) == |Range(a, s) - AccessedFrom(trace, 0)|
  {
    StackIsFull(trace);
    ColdBytes(trace, RunTrace(trace).stack, a, s);
    forall b: nat | a <= b < a + s
      ensures SomeMatch(Matches(RunTrace(trace).stack, 0, a, s), b) <==> LastAccess(trace, b) >= 0
    {
      MatchesCover(RunTrace(trace).stack, 0, a, s, b);
    }
  }
}
