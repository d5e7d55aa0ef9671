/** Whole traces: the stack stays a list of disjoint entries, every accessed word is counted once, and the counted
    distance is the LRU stack distance at byte level. */
module ReuseTraces {
  import opened BinaryLog
  import opened ReuseStack
  import opened ReuseCover

  datatype Event = Access(a: nat, s: nat, core: int) | Probe(a: nat, s: nat, core: int)

  datatype State = State(stack: seq<Entry>, hist: Histograms)

  function Zeros(n: nat): (v: seq<nat>)
    ensures |v| == n && forall i :: 0 <= i < n ==> v[i] == 0
  {
    if n == 0 then [] else Zeros(n - 1) + [0]
  }

  function Init(): State {
    State([], Histograms(Zeros(BUCKETS), Zeros(BUCKETS), Zeros(BUCKETS), 0, 0))
  }

  function Apply(st: State, ev: Event): State {
    match ev
    case Access(a, s, core) => State(AfterAccess(st.stack, a, s, core), CountAccess(st.hist, st.stack, a, s, core))
    case Probe(a, s, core) => State(AfterProbe(true, st.stack, a, s, core, s), st.hist)
  }

  function RunTrace(trace: seq<Event>): State {
    if trace == [] then Init() else Apply(RunTrace(trace[..|trace| - 1]), trace[|trace| - 1])
  }

  ghost predicate Sizes(trace: seq<Event>) {
    forall i :: 0 <= i < |trace| ==> 0 < trace[i].s < WORD32
  }

  ghost predicate WordAligned(trace: seq<Event>) {
    forall i :: 0 <= i < |trace| ==> trace[i].a % 4 == 0 && trace[i].s % 4 == 0
  }

  // ---------------------------------------------------------------- disjoint entries

  lemma ValidJoin(r: seq<Entry>, t: seq<Entry>)
    requires Valid(r) && Valid(t) && forall b: nat :: InStack(r, b) ==> !InStack(t, b)
    ensures Valid(r + t)
  {
    forall i, j | 0 <= i < j < |r + t|
      ensures Apart((r + t)[i], (r + t)[j])
    {
      if i < |r| <= j {
        NoCommonByte(r, i, t, j - |r|);
      }
    }
  }

  lemma NoCommonByte(r: seq<Entry>, i: nat, t: seq<Entry>, j: nat)
    requires i < |r| && j < |t| && r[i].size > 0 && t[j].size > 0
    requires forall b: nat :: InStack(r, b) ==> !InStack(t, b)
    ensures Apart(r[i], t[j])
  {
    var b := Max(r[i].elem, t[j].elem);
    assert Has(r[i], b) ==> InStack(r, b);
    assert Has(t[j], b) ==> InStack(t, b);
  }

  lemma InStackJoin(r: seq<Entry>, t: seq<Entry>, b: nat)
    ensures InStack(r + t, b) <==> InStack(r, b) || InStack(t, b)
  {
    if i :| 0 <= i < |r| && Has(r[i], b) {
      assert Has((r + t)[i], b);
    }
    if i :| 0 <= i < |t| && Has(t[i], b) {
      assert Has((r + t)[|r| + i], b);
    }
    if i :| 0 <= i < |r + t| && Has((r + t)[i], b) {
      assert if i < |r| then Has(r[i], b) else Has(t[i - |r|], b);
    }
  }

  lemma RestIs(e: Entry, a: nat, s: nat)
    requires e.size > 0
    ensures Valid(Rest(e, a, s))
    ensures forall b: nat :: InStack(Rest(e, a, s), b) <==> Has(e, b) && !(a <= b < a + s)
  {
    var r := Rest(e, a, s);
    forall b: nat
      ensures InStack(r, b) <==> Has(e, b) && !(a <= b < a + s)
    {
      if Has(e, b) && !(a <= b < a + s) {
        if Overlaps(e, a, s) && b >= a {
          assert Has(r[|r| - 1], b);
        } else {
          assert Has(r[0], b);
        }
      }
    }
  }

  /** Cutting a range out keeps the other bytes and the disjointness. */
  lemma {:induction false} StripIs(stack: seq<Entry>, a: nat, s: nat)
    requires Valid(stack)
    ensures Valid(Strip(stack, a, s))
    ensures forall b: nat :: InStack(Strip(stack, a, s), b) <==> InStack(stack, b) && !(a <= b < a + s)
  {
    if stack != [] {
      RestValid(stack);
      StripIs(stack[1..], a, s);
      RestIs(stack[0], a, s);
      var r, t := Rest(stack[0], a, s), Strip(stack[1..], a, s);
      ValidJoin(r, t);
      forall b: nat
        ensures InStack(r + t, b) <==> InStack(stack, b) && !(a <= b < a + s)
      {
        InStackJoin(r, t, b);
        InStackFirst(stack, b);
      }
    }
  }

  lemma AccessKeepsValid(stack: seq<Entry>, a: nat, s: nat, core: int)
    requires Valid(stack) && s > 0
    ensures Valid(AfterAccess(stack, a, s, core))
    ensures forall b: nat :: InStack(AfterAccess(stack, a, s, core), b) <==> InStack(stack, b) || a <= b < a + s
  {
    StripIs(stack, a, s);
    var x, t := [Entry(a, s, false, core)], Strip(stack, a, s);
    forall b: nat
      ensures InStack(x, b) <==> a <= b < a + s
    {
      assert Has(x[0], b) <==> a <= b < a + s;
    }
    ValidJoin(x, t);
    forall b: nat
      ensures InStack(x + t, b) <==> InStack(stack, b) || a <= b < a + s
    {
      InStackJoin(x, t, b);
    }
  }

  /** A probe cuts an entry into pieces that hold the same bytes. */
  lemma PiecesAre(e: Entry, a: nat, s: nat, core: int)
    requires e.size > 0 && s > 0
    ensures var p := [Probed(e, a, s, core)] + Inserted(e, a, s, core);
            Valid(p) && forall b: nat :: InStack(p, b) <==> Has(e, b)
  {
    var p := [Probed(e, a, s, core)] + Inserted(e, a, s, core);
    forall b: nat
      ensures InStack(p, b) <==> Has(e, b)
    {
      if Has(e, b) {
        assert Has(p[0], b) || (|p| > 1 && Has(p[1], b)) || (|p| > 2 && Has(p[2], b));
      }
    }
  }

  lemma {:induction false} ProbeKeepsValid(first: bool, rest: seq<Entry>, a: nat, s: nat, core: int, pending: nat)
    requires Valid(rest) && s > 0
    ensures Valid(AfterProbe(first, rest, a, s, core, pending))
    ensures forall b: nat :: InStack(AfterProbe(first, rest, a, s, core, pending), b) ==> InStack(rest, b)
    decreases Weight(rest, a, s)
  {
    if rest != [] {
      ProbeShrinks(rest, a, s, core);
      var cur, ins := Probed(rest[0], a, s, core), Inserted(rest[0], a, s, core);
      var next, left := ins + rest[1..], StillPending(rest[0], a, s, pending);
      PiecesJoin(rest, a, s, core);
      if left == 0 || (next == [] && !first && cur.inv) {
      } else {
        ProbeKeepsValid(false, next, a, s, core, left);
        ConsKeeps(cur, next, AfterProbe(false, next, a, s, core, left), rest);
      }
    }
  }

  lemma PiecesJoin(rest: seq<Entry>, a: nat, s: nat, core: int)
    requires Valid(rest) && rest != [] && s > 0
    ensures var cur, next := Probed(rest[0], a, s, core), Inserted(rest[0], a, s, core) + rest[1..];
            && Valid([cur] + next) && Valid(next)
            && forall b: nat :: InStack([cur] + next, b) <==> InStack(rest, b)
  {
    var cur, ins := Probed(rest[0], a, s, core), Inserted(rest[0], a, s, core);
    RestValid(rest);
    PiecesAre(rest[0], a, s, core);
    ValidJoin([cur] + ins, rest[1..]);
    assert [cur] + ins + rest[1..] == [cur] + (ins + rest[1..]);
    RestValid([cur] + (ins + rest[1..]));
    assert ([cur] + (ins + rest[1..]))[1..] == ins + rest[1..];
    forall b: nat
      ensures InStack([cur] + (ins + rest[1..]), b) <==> InStack(rest, b)
    {
      InStackJoin([cur] + ins, rest[1..], b);
      InStackFirst(rest, b);
    }
  }

  lemma ConsKeeps(cur: Entry, next: seq<Entry>, tail: seq<Entry>, rest: seq<Entry>)
    requires Valid([cur] + next) && Valid(tail) && forall b: nat :: InStack(tail, b) ==> InStack(next, b)
    requires forall b: nat :: InStack([cur] + next, b) <==> InStack(rest, b)
    ensures Valid([cur] + tail) && forall b: nat :: InStack([cur] + tail, b) ==> InStack(rest, b)
  {
    RestValid([cur] + next);
    assert ([cur] + next)[1..] == next && ([cur] + next)[0] == cur;
    forall b: nat
      ensures InStack([cur], b) <==> Has(cur, b)
    {
      assert Has([cur][0], b) <==> Has(cur, b);
    }
    ValidJoin([cur], tail);
    forall b: nat
      ensures InStack([cur] + tail, b) ==> InStack(rest, b)
    {
      InStackJoin([cur], tail, b);
      InStackJoin([cur], next, b);
    }
  }

  lemma {:induction false} RecordAllSized(h: Histograms, ms: seq<Match>, size: nat, core: int)
    requires Sized(h)
    ensures Sized(RecordAll(h, ms, size, core))
    decreases ms
  {
    if ms != [] {
      RecordAllSized(Record(h, ms[0], size, core), ms[1..], size, core);
    }
  }

  lemma {:induction false} RunValid(trace: seq<Event>)
    requires Sizes(trace)
    ensures Valid(RunTrace(trace).stack) && Sized(RunTrace(trace).hist)
  {
    if trace != [] {
      RunValid(trace[..|trace| - 1]);
      var st := RunTrace(trace[..|trace| - 1]);
      match trace[|trace| - 1] {
        case Access(a, s, core) =>
          AccessKeepsValid(st.stack, a, s, core);
          RecordAllSized(st.hist, Matches(st.stack, 0, a, s), s, core);
        case Probe(a, s, core) => ProbeKeepsValid(true, st.stack, a, s, core, s);
      }
    }
  }

  // ---------------------------------------------------------------- every accessed word is counted once

  function Sum(v: seq<nat>): nat {
    if v == [] then 0 else v[0] + Sum(v[1..])
  }

  lemma {:induction false} SumBump(v: seq<nat>, b: nat, n: nat)
    ensures Sum(Bump(v, b, n)) == Sum(v) + if b < |v| then n else 0
  {
    if b < |v| {
      if b == 0 {
        assert v[0 := v[0] + n][1..] == v[1..];
      } else {
        assert v[b := v[b] + n][1..] == v[1..][b - 1 := v[1..][b - 1] + n];
        SumBump(v[1..], b - 1, n);
      }
    }
  }

  lemma {:induction false} SumZeros(n: nat)
    ensures Sum(Zeros(n)) == 0
  {
    if n > 0 {
      SumZeros(n - 1);
      SumAppend(Zeros(n - 1), [0]);
    }
  }

  lemma {:induction false} SumAppend(v: seq<nat>, w: seq<nat>)
    ensures Sum(v + w) == Sum(v) + Sum(w)
  {
    if v == [] {
      assert v + w == w;
    } else {
      assert (v + w)[1..] == v[1..] + w;
      SumAppend(v[1..], w);
    }
  }

  /** Words counted so far, as reuses or as misses. */
  function Words(h: Histograms): nat {
    Sum(h.distance) + h.cold
  }

  function WordsOf(ms: seq<Match>): nat {
    if ms == [] then 0 else ms[0].bytes / 4 + WordsOf(ms[1..])
  }

  /** Shared reuses are reuses, and invalidation misses are misses. */
  ghost predicate Consistent(h: Histograms) {
    && Sized(h) && h.inv <= h.cold
    && forall b :: 0 <= b < BUCKETS ==> h.shared[b] <= h.distance[b]
  }

  ghost predicate Distances32(ms: seq<Match>) {
    forall i :: 0 <= i < |ms| ==> ms[i].distance < WORD32
  }

  lemma {:induction false} MatchesAre32(stack: seq<Entry>, d: nat, a: nat, s: nat)
    ensures Distances32(Matches(stack, d, a, s))
  {
    if stack != [] {
      MatchesAre32(stack[1..], Add32(d, stack[0].size), a, s);
    }
  }

  lemma RecordCounts(h: Histograms, m: Match, size: nat, core: int)
    requires Consistent(h) && Slot(m, size) < BUCKETS
    ensures Consistent(Record(h, m, size, core))
    ensures Words(Record(h, m, size, core)) == Words(h) + m.bytes / 4
  {
    SumBump(h.distance, Slot(m, size), m.bytes / 4);
  }

  lemma {:induction false} RecordAllCounts(h: Histograms, ms: seq<Match>, size: nat, core: int)
    requires Consistent(h) && Distances32(ms) && size < WORD32
    ensures Consistent(RecordAll(h, ms, size, core))
    ensures Words(RecordAll(h, ms, size, core)) == Words(h) + WordsOf(ms)
    decreases ms
  {
    if ms != [] {
      SlotBelow(Max(ms[0].distance, size));
      RecordCounts(h, ms[0], size, core);
      assert forall i :: 0 <= i < |ms[1..]| ==> ms[1..][i] == ms[i + 1];
      RecordAllCounts(Record(h, ms[0], size, core), ms[1..], size, core);
    }
  }

  lemma SlotBelow(x: nat)
    requires x < WORD32
    ensures Bucket(x) < BUCKETS
  {
    if x > 0 {
      BucketBrackets(x);
      var k := 2;
      Pow2Doubles(k, 4);
      Pow2Doubles(2 * k, 16);
      Pow2Doubles(4 * k, 256);
      Pow2Doubles(8 * k, 0x1_0000);
      if Bucket(x) > 32 {
        Pow2Monotone(16 * k, Bucket(x) - 1);
      }
    }
  }

  lemma {:induction false} MatchWords(stack: seq<Entry>, d: nat, a: nat, s: nat)
    requires Aligned(stack) && a % 4 == 0 && s % 4 == 0
    ensures Matched(stack, a, s) == 4 * WordsOf(Matches(stack, d, a, s))
  {
    if stack != [] {
      var e, tail := stack[0], stack[1..];
      assert forall i :: 0 <= i < |tail| ==> tail[i] == stack[i + 1];
      var rest := Matches(tail, Add32(d, e.size), a, s);
      MatchWords(tail, Add32(d, e.size), a, s);
      if Overlaps(e, a, s) {
        var ms := Matches(stack, d, a, s);
        assert ms[1..] == rest;
        OverlapAligned(e, a, s);
      } else {
        assert Matches(stack, d, a, s) == rest;
      }
    }
  }

  lemma AccessCounts(h: Histograms, stack: seq<Entry>, a: nat, s: nat, core: int)
    requires Consistent(h) && Valid(stack) && Aligned(stack) && a % 4 == 0 && s % 4 == 0 && 0 < s < WORD32
    ensures Consistent(CountAccess(h, stack, a, s, core))
    ensures Words(CountAccess(h, stack, a, s, core)) == Words(h) + s / 4
  {
    MatchesAre32(stack, 0, a, s);
    RecordAllCounts(h, Matches(stack, 0, a, s), s, core);
    MatchWords(stack, 0, a, s);
    MatchedBounded(stack, a, s);
  }

  lemma Multiples(x: nat, y: nat)
    requires x % 4 == 0 && y % 4 == 0
    ensures (x + y) % 4 == 0 && (x >= y ==> (x - y) % 4 == 0)
  {
  }

  ghost predicate WordEntry(e: Entry) {
    e.elem % 4 == 0 && e.size % 4 == 0
  }

  /** The borders of an overlap are multiples of four. */
  lemma OverlapAligned(e: Entry, a: nat, s: nat)
    requires WordEntry(e) && a % 4 == 0 && s % 4 == 0 && Overlaps(e, a, s)
    ensures From(e, a) % 4 == 0 && Common(e, a, s) % 4 == 0 && End(e) % 4 == 0
  {
    Multiples(e.elem, e.size);
    Multiples(a, s);
    Multiples(Min(End(e), a + s), From(e, a));
  }

  lemma RestAligned(e: Entry, a: nat, s: nat)
    requires WordEntry(e) && a % 4 == 0 && s % 4 == 0
    ensures Aligned(Rest(e, a, s))
  {
    if Overlaps(e, a, s) {
      OverlapAligned(e, a, s);
      Multiples(a, s);
      Multiples(a, e.elem);
      Multiples(End(e), a + s);
    }
  }

  lemma {:induction false} StripAligned(stack: seq<Entry>, a: nat, s: nat)
    requires Aligned(stack) && a % 4 == 0 && s % 4 == 0
    ensures Aligned(Strip(stack, a, s))
  {
    if stack != [] {
      assert forall i :: 0 <= i < |stack[1..]| ==> stack[1..][i] == stack[i + 1];
      StripAligned(stack[1..], a, s);
      RestAligned(stack[0], a, s);
    }
  }

  lemma PiecesAligned(e: Entry, a: nat, s: nat, core: int)
    requires WordEntry(e) && a % 4 == 0 && s % 4 == 0
    ensures WordEntry(Probed(e, a, s, core)) && Aligned(Inserted(e, a, s, core))
  {
    if Overlaps(e, a, s) {
      OverlapAligned(e, a, s);
      var start, bytes := From(e, a), Common(e, a, s);
      Multiples(start, bytes);
      Multiples(start, e.elem);
      Multiples(End(e), start + bytes);
      Multiples(e.size, bytes);
    }
  }

  lemma {:induction false} ProbeAligned(first: bool, rest: seq<Entry>, a: nat, s: nat, core: int, pending: nat)
    requires Valid(rest) && Aligned(rest) && a % 4 == 0 && s % 4 == 0 && s > 0
    ensures Aligned(AfterProbe(first, rest, a, s, core, pending))
    decreases Weight(rest, a, s)
  {
    if rest != [] {
      ProbeShrinks(rest, a, s, core);
      PiecesAligned(rest[0], a, s, core);
      PiecesJoin(rest, a, s, core);
      var next := Inserted(rest[0], a, s, core) + rest[1..];
      assert Aligned(next);
      ProbeAligned(false, next, a, s, core, StillPending(rest[0], a, s, pending));
    }
  }

  function WordsAccessed(trace: seq<Event>): nat {
    if trace == [] then 0
    else WordsAccessed(trace[..|trace| - 1]) + if trace[|trace| - 1].Access? then trace[|trace| - 1].s / 4 else 0
  }

  ghost predicate Sound(st: State) {
    Valid(st.stack) && Aligned(st.stack) && Consistent(st.hist)
  }

  lemma ApplySound(st: State, ev: Event)
    requires Sound(st) && 0 < ev.s < WORD32 && ev.a % 4 == 0 && ev.s % 4 == 0
    ensures Sound(Apply(st, ev))
    ensures Words(Apply(st, ev).hist) == Words(st.hist) + if ev.Access? then ev.s / 4 else 0
  {
    match ev {
      case Access(a, s, core) =>
        AccessKeepsValid(st.stack, a, s, core);
        StripAligned(st.stack, a, s);
        AccessCounts(st.hist, st.stack, a, s, core);
      case Probe(a, s, core) =>
        ProbeKeepsValid(true, st.stack, a, s, core, s);
        ProbeAligned(true, st.stack, a, s, core, s);
    }
  }

  /** Conservation: under any mix of accesses and probes the reuses and the cold misses add up to the words accessed,
      shared reuses never exceed reuses, invalidation misses never exceed cold misses, entries stay disjoint. */
  lemma {:induction false} Conservation(trace: seq<Event>)
    requires Sizes(trace) && WordAligned(trace)
    ensures Sound(RunTrace(trace))
    ensures Words(RunTrace(trace).hist) == WordsAccessed(trace)
  {
    if trace == [] {
      SumZeros(BUCKETS);
    } else {
      Conservation(trace[..|trace| - 1]);
      ApplySound(RunTrace(trace[..|trace| - 1]), trace[|trace| - 1]);
    }
  }
}
