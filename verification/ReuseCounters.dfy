/** What every histogram counter counts: words of the accesses, by what the stack knew of them. */
module ReuseCounters {
  // The counters are the numbers of accessed words that were new, that lay in an invalid entry, or that were reused at
  // a distance in the bucket, by the same or another core. Then the same in terms of the trace alone: a word is reused
  // if it was accessed before and not probed since, and shared if another core accessed it last.

  import opened Collections
  import opened BinaryLog
  import opened ReuseStack
  import opened ReuseCover
  import opened ReuseTraces
  import opened ReuseProbes
  import opened ReuseDistance

  /** Bytes on the stack down to and with the entry that holds `b`. */
  function Depth(stack: seq<Entry>, b: nat): nat {
    if stack == [] then 0
    else stack[0].size + if Has(stack[0], b) then 0 else Depth(stack[1..], b)
  }

  /** The bucket `k` for `x`: the powers of two that enclose it. */
  predicate Brackets(x: nat, k: nat) {
    x <= Pow2(k) && (k > 0 ==> Pow2(k - 1) < x)
  }

  datatype Kind = Known | New | Stale | StaleIn(bucket: nat) | ReusedIn(bucket: nat) | SharedIn(bucket: nat)

  /** Whether a word found with mark `m` is of the kind, `x` being its distance or the size of the access if larger. */
  predicate IsKind(kind: Kind, m: Mark, x: nat, core: int) {
    match kind
    case Known => true
    case New => false
    case Stale => m.inv
    case StaleIn(k) => m.inv && Brackets(x, k)
    case ReusedIn(k) => !m.inv && Brackets(x, k)
    case SharedIn(k) => !m.inv && m.core != core && Brackets(x, k)
  }

  /** Whether the word at `w`, accessed with `s` bytes by `core`, is of the kind; `above` bytes lie above this stack. */
  predicate Counts(kind: Kind, stack: seq<Entry>, above: nat, w: nat, s: nat, core: int) {
    match View(stack, w)
    case None => kind.New?
    case Some(m) => IsKind(kind, m, Max((above + Depth(stack, w)) % WORD32, s), core)
  }

  predicate IsWord(w: nat) {
    w % 4 == 0
  }

  /** The words of a range, by their addresses. */
  ghost function WordSet(a: nat, s: nat): set<nat> {
    set w | w in Range(a, s) && IsWord(w)
  }

  ghost function Those(kind: Kind, stack: seq<Entry>, above: nat, a: nat, s: nat, core: int): set<nat> {
    set w | w in WordSet(a, s) && Counts(kind, stack, above, w, s, core)
  }

  /** How many words of the kind the accesses of a trace had. */
  ghost function Times(kind: Kind, trace: seq<Event>): nat {
    if trace == [] then 0
    else
      var front, ev := trace[..|trace| - 1], trace[|trace| - 1];
      Times(kind, front) +
      if ev.Access? then |Those(kind, RunTrace(front).stack, 0, ev.a, ev.s, ev.core)| else 0
  }

  // ---------------------------------------------------------------- numbers of words

  lemma {:induction false} WordSetSize(a: nat, s: nat)
    requires a % 4 == 0 && s % 4 == 0
    ensures |WordSet(a, s)| == s / 4
  {
    if s == 0 {
      assert WordSet(a, s) == {};
    } else {
      WordSetSize(a, s - 4);
      LastWord(a, s, a + s - 4);
    }
  }

  lemma LastWord(a: nat, s: nat, w: nat)
    requires a % 4 == 0 && s % 4 == 0 && s > 0 && w == a + s - 4
    ensures WordSet(a, s) == WordSet(a, s - 4) + {w} && w !in WordSet(a, s - 4)
  {
    Multiples(a, s - 4);
    forall x
      ensures x in WordSet(a, s) <==> x in WordSet(a, s - 4) + {w}
    {
      if w < x < a + s {
        NoWordBetween(w, x);
      }
    }
  }

  lemma NoWordBetween(w: nat, x: nat)
    requires w % 4 == 0 && w < x < w + 4
    ensures !IsWord(x)
  {
  }

  /** The words of the range in one entry. */
  ghost function WordsIn(e: Entry, a: nat, s: nat): set<nat> {
    set w | w in WordSet(a, s) && Has(e, w)
  }

  lemma WordsInSize(e: Entry, a: nat, s: nat)
    requires WordEntry(e) && a % 4 == 0 && s % 4 == 0
    ensures |WordsIn(e, a, s)| == Overlap(e, a, s) / 4
  {
    if Overlaps(e, a, s) {
      OverlapAligned(e, a, s);
      WordSetSize(From(e, a), Common(e, a, s));
      assert WordsIn(e, a, s) == WordSet(From(e, a), Common(e, a, s));
    } else {
      assert WordsIn(e, a, s) == {};
    }
  }

  // ---------------------------------------------------------------- one access

  predicate MatchIs(kind: Kind, m: Match, size: nat, core: int) {
    IsKind(kind, Mark(m.inv, m.core), Max(m.distance, size), core)
  }

  /** Words of the matches that are of the kind. */
  function Adds(kind: Kind, ms: seq<Match>, size: nat, core: int): nat {
    if ms == [] then 0
    else (if MatchIs(kind, ms[0], size, core) then ms[0].bytes / 4 else 0) + Adds(kind, ms[1..], size, core)
  }

  lemma AddsCons(kind: Kind, m: Match, rest: seq<Match>, size: nat, core: int)
    ensures Adds(kind, [m] + rest, size, core) ==
            (if MatchIs(kind, m, size, core) then m.bytes / 4 else 0) + Adds(kind, rest, size, core)
  {
    assert ([m] + rest)[1..] == rest;
  }

  /** Which words are of the kind: those of the first entry, or none of them, and those further down. */
  lemma ThoseCons(kind: Kind, stack: seq<Entry>, above: nat, a: nat, s: nat, core: int, e: Entry, x: nat)
    requires Valid(stack) && stack != [] && !kind.New? && e == stack[0] && x == Max((above + e.size) % WORD32, s)
    ensures var here := if IsKind(kind, Mark(e.inv, e.core), x, core) then WordsIn(e, a, s) else {};
            var below := Those(kind, stack[1..], above + e.size, a, s, core);
            Those(kind, stack, above, a, s, core) == here + below && here !! below
  {
    var here := if IsKind(kind, Mark(e.inv, e.core), x, core) then WordsIn(e, a, s) else {};
    var below := Those(kind, stack[1..], above + e.size, a, s, core);
    RestValid(stack);
    forall w | w in below
      ensures !Has(e, w)
    {
      ViewIs(stack[1..], w);
    }
    forall w
      ensures w in Those(kind, stack, above, a, s, core) <==> w in here + below
    {
      CountsCons(kind, stack, above, w, s, core, e);
    }
  }

  lemma ThoseSize(kind: Kind, stack: seq<Entry>, above: nat, a: nat, s: nat, core: int, e: Entry, d: nat)
    requires Valid(stack) && stack != [] && !kind.New? && e == stack[0] && d == (above + e.size) % WORD32
    requires WordEntry(e) && a % 4 == 0 && s % 4 == 0
    ensures |Those(kind, stack, above, a, s, core)| ==
            (if IsKind(kind, Mark(e.inv, e.core), Max(d, s), core) then Overlap(e, a, s) / 4 else 0) +
            |Those(kind, stack[1..], above + e.size, a, s, core)|
  {
    ThoseCons(kind, stack, above, a, s, core, e, Max(d, s));
    WordsInSize(e, a, s);
  }

  lemma CountsCons(kind: Kind, stack: seq<Entry>, above: nat, w: nat, s: nat, core: int, e: Entry)
    requires stack != [] && e == stack[0]
    ensures Counts(kind, stack, above, w, s, core) <==>
            if Has(e, w) then IsKind(kind, Mark(e.inv, e.core), Max((above + e.size) % WORD32, s), core)
            else Counts(kind, stack[1..], above + e.size, w, s, core)
  {
  }

  /** The matches of a kind have as many words as there are of the kind in the range. */
  lemma {:induction false} MatchesAdd(kind: Kind, stack: seq<Entry>, above: nat, a: nat, s: nat, core: int)
    requires Valid(stack) && Aligned(stack) && a % 4 == 0 && s % 4 == 0 && !kind.New?
    ensures Adds(kind, Matches(stack, above % WORD32, a, s), s, core) == |Those(kind, stack, above, a, s, core)|
    decreases |stack|
  {
    if stack == [] {
      assert Those(kind, stack, above, a, s, core) == {};
    } else {
      var e, tail := stack[0], stack[1..];
      RestValid(stack);
      assert forall i :: 0 <= i < |tail| ==> tail[i] == stack[i + 1];
      MatchesAdd(kind, tail, above + e.size, a, s, core);
      ThoseSize(kind, stack, above, a, s, core, e, (above + e.size) % WORD32);
      AddsFirst(kind, stack, above, a, s, core, e, (above + e.size) % WORD32);
    }
  }

  lemma AddsFirst(kind: Kind, stack: seq<Entry>, above: nat, a: nat, s: nat, core: int, e: Entry, d: nat)
    requires stack != [] && e == stack[0] && d == (above + e.size) % WORD32
    ensures Adds(kind, Matches(stack, above % WORD32, a, s), s, core) ==
            (if IsKind(kind, Mark(e.inv, e.core), Max(d, s), core) then Overlap(e, a, s) / 4 else 0) +
            Adds(kind, Matches(stack[1..], d, a, s), s, core)
  {
    WrapOnce(above, e.size);
    var rest := Matches(stack[1..], d, a, s);
    if Overlaps(e, a, s) {
      AddsCons(kind, Match(From(e, a), Common(e, a, s), d, e.inv, e.core), rest, s, core);
    } else {
      assert Matches(stack, above % WORD32, a, s) == rest;
    }
  }

  // ---------------------------------------------------------------- the counters

  predicate InBounds(kind: Kind) {
    (kind.StaleIn? || kind.ReusedIn? || kind.SharedIn?) ==> kind.bucket < BUCKETS
  }

  ghost function Counter(kind: Kind, h: Histograms): int
    requires Sized(h) && InBounds(kind)
  {
    match kind
    case Known => 0
    case New => h.cold - h.inv
    case Stale => h.inv
    case StaleIn(k) => h.invMiss[k]
    case ReusedIn(k) => h.distance[k]
    case SharedIn(k) => h.shared[k]
  }

  lemma SlotIs(m: Match, size: nat, k: nat)
    requires size > 0
    ensures Brackets(Max(m.distance, size), k) <==> k == Slot(m, size)
  {
    SlotBrackets(m, size);
    if Brackets(Max(m.distance, size), k) {
      BucketUnique(Max(m.distance, size), k);
    }
  }

  lemma RecordAdds(kind: Kind, h: Histograms, m: Match, size: nat, core: int)
    requires Sized(h) && InBounds(kind) && !kind.Known? && size > 0
    ensures Sized(Record(h, m, size, core))
    ensures Counter(kind, Record(h, m, size, core)) ==
            Counter(kind, h) + if MatchIs(kind, m, size, core) then m.bytes / 4 else 0
  {
    if kind.StaleIn? || kind.ReusedIn? || kind.SharedIn? {
      SlotIs(m, size, kind.bucket);
    }
  }

  lemma {:induction false} RecordAllAdds(kind: Kind, h: Histograms, ms: seq<Match>, size: nat, core: int)
    requires Sized(h) && InBounds(kind) && !kind.Known? && size > 0
    ensures Sized(RecordAll(h, ms, size, core))
    ensures Counter(kind, RecordAll(h, ms, size, core)) == Counter(kind, h) + Adds(kind, ms, size, core)
    decreases ms
  {
    if ms != [] {
      RecordAdds(kind, h, ms[0], size, core);
      RecordAllAdds(kind, Record(h, ms[0], size, core), ms[1..], size, core);
    }
  }

  lemma {:induction false} AllKnown(ms: seq<Match>, size: nat, core: int)
    ensures Adds(Known, ms, size, core) == WordsOf(ms)
    ensures Adds(New, ms, size, core) == 0
  {
    if ms != [] {
      AllKnown(ms[1..], size, core);
    }
  }

  /** The new words are those that the matches leave over. */
  lemma NewWords(stack: seq<Entry>, a: nat, s: nat, core: int)
    requires Valid(stack) && Aligned(stack) && a % 4 == 0 && s % 4 == 0
    ensures Unmatched(stack, a, s) == 4 * |Those(New, stack, 0, a, s, core)|
  {
    var known, unseen := Those(Known, stack, 0, a, s, core), Those(New, stack, 0, a, s, core);
    assert WordSet(a, s) == known + unseen && known !! unseen;
    WordSetSize(a, s);
    MatchesAdd(Known, stack, 0, a, s, core);
    AllKnown(Matches(stack, 0, a, s), s, core);
    MatchWords(stack, 0, a, s);
    MatchedBounded(stack, a, s);
  }

  lemma AccessAdds(kind: Kind, h: Histograms, stack: seq<Entry>, a: nat, s: nat, core: int)
    requires Sized(h) && InBounds(kind) && !kind.Known? && s > 0
    requires Valid(stack) && Aligned(stack) && a % 4 == 0 && s % 4 == 0
    ensures Sized(CountAccess(h, stack, a, s, core))
    ensures Counter(kind, CountAccess(h, stack, a, s, core)) ==
            Counter(kind, h) + |Those(kind, stack, 0, a, s, core)|
  {
    var ms := Matches(stack, 0, a, s);
    RecordAllAdds(kind, h, ms, s, core);
    if kind.New? {
      NewWords(stack, a, s, core);
      AllKnown(ms, s, core);
    } else {
      MatchesAdd(kind, stack, 0, a, s, core);
    }
  }

  lemma {:induction false} CounterIs(kind: Kind, trace: seq<Event>)
    requires Sizes(trace) && WordAligned(trace) && InBounds(kind) && !kind.Known?
    ensures Sized(RunTrace(trace).hist) && Counter(kind, RunTrace(trace).hist) == Times(kind, trace)
  {
    if trace != [] {
      var front, ev := trace[..|trace| - 1], trace[|trace| - 1];
      CounterIs(kind, front);
      Conservation(front);
      if ev.Access? {
        AccessAdds(kind, RunTrace(front).hist, RunTrace(front).stack, ev.a, ev.s, ev.core);
      }
    }
  }

  /** Every counter after every trace: words reused in the bucket, those of them that another core touched last, words
      found invalid by bucket and in all, and words that were new or invalid. */
  lemma CountersMean(trace: seq<Event>, k: nat)
    requires Sizes(trace) && WordAligned(trace) && k < BUCKETS
    ensures Sized(RunTrace(trace).hist)
    ensures RunTrace(trace).hist.distance[k] == Times(ReusedIn(k), trace)
    ensures RunTrace(trace).hist.shared[k] == Times(SharedIn(k), trace)
    ensures RunTrace(trace).hist.invMiss[k] == Times(StaleIn(k), trace)
    ensures RunTrace(trace).hist.inv == Times(Stale, trace)
    ensures RunTrace(trace).hist.cold == Times(New, trace) + Times(Stale, trace)
  {
    CounterIs(ReusedIn(k), trace);
    CounterIs(SharedIn(k), trace);
    CounterIs(StaleIn(k), trace);
    CounterIs(Stale, trace);
    CounterIs(New, trace);
  }

  // ---------------------------------------------------------------- in terms of the trace

  /** Some probe of the byte after its last access. */
  predicate ProbedSince(trace: seq<Event>, b: nat) {
    trace != [] &&
    (var ev := trace[|trace| - 1];
     !Touches(ev, b) && ((ev.Probe? && InRange(ev.a, ev.s, b)) || ProbedSince(trace[..|trace| - 1], b)))
  }

  /** No probe stops short of a byte of its range. */
  ghost predicate Clean(trace: seq<Event>) {
    trace == [] ||
    (var front, ev := trace[..|trace| - 1], trace[|trace| - 1];
     && Clean(front)
     && (ev.Probe? ==> forall l :: 0 <= l < |RunTrace(front).stack| ==>
           Reached(RunTrace(front).stack, ev.a, ev.s, ev.core, l)))
  }

  lemma RestView(e: Entry, a: nat, s: nat, b: nat)
    requires e.size > 0 && !InRange(a, s, b)
    ensures View(Rest(e, a, s), b) == if Has(e, b) then Some(Mark(e.inv, e.core)) else None
  {
    var r := Rest(e, a, s);
    if r != [] {
      ViewShort(r, b);
    }
  }

  lemma {:induction false} StripView(stack: seq<Entry>, a: nat, s: nat, b: nat)
    requires Valid(stack) && !InRange(a, s, b)
    ensures View(Strip(stack, a, s), b) == View(stack, b)
  {
    if stack != [] {
      RestValid(stack);
      StripView(stack[1..], a, s, b);
      RestView(stack[0], a, s, b);
      ViewJoin(Rest(stack[0], a, s), Strip(stack[1..], a, s), b);
    }
  }

  lemma AccessView(stack: seq<Entry>, a: nat, s: nat, core: int, b: nat)
    requires Valid(stack)
    ensures View(AfterAccess(stack, a, s, core), b) ==
            if InRange(a, s, b) then Some(Mark(false, core)) else View(stack, b)
  {
    var e, rest := Entry(a, s, false, core), Strip(stack, a, s);
    assert ([e] + rest)[1..] == rest;
    if !InRange(a, s, b) {
      StripView(stack, a, s, b);
    }
  }

  /** An invalid byte was probed since its last access, a valid one carries the core of that access, and an accessed
      byte that is gone was probed since. */
  ghost predicate Right(trace: seq<Event>, stack: seq<Entry>, b: nat) {
    match View(stack, b)
    case None => LastAccess(trace, b) >= 0 ==> ProbedSince(trace, b)
    case Some(m) =>
      var t := LastAccess(trace, b);
      t >= 0 && if m.inv then ProbedSince(trace, b) else m.core == trace[t].core
  }

  lemma {:induction false} StackIsRight(trace: seq<Event>, b: nat)
    requires Sizes(trace)
    ensures Right(trace, RunTrace(trace).stack, b)
  {
    if trace != [] {
      var front, ev := trace[..|trace| - 1], trace[|trace| - 1];
      StackIsRight(front, b);
      RunValid(front);
      if ev.Access? {
        AccessView(RunTrace(front).stack, ev.a, ev.s, ev.core, b);
      } else {
        ProbeIsRight(front, trace, RunTrace(front), ev.a, ev.s, ev.core, b);
      }
    }
  }

  lemma ProbeIsRight(front: seq<Event>, trace: seq<Event>, st: State, a: nat, s: nat, core: int, b: nat)
    requires trace == front + [Probe(a, s, core)] && 0 < s < WORD32
    requires Valid(st.stack) && Right(front, st.stack, b)
    ensures Right(trace, Apply(st, Probe(a, s, core)).stack, b)
  {
    assert trace[..|trace| - 1] == front;
    ViewIs(st.stack, b);
    if InStack(st.stack, b) {
      var l :| 0 <= l < |st.stack| && Has(st.stack[l], b);
      ViewAt(st.stack, l, b);
      ProbeIs(st, a, s, core, l, b);
    } else {
      GoneStays(st, a, s, core, b);
    }
  }

  lemma GoneStays(st: State, a: nat, s: nat, core: int, b: nat)
    requires Valid(st.stack) && 0 < s < WORD32 && !InStack(st.stack, b)
    ensures View(Apply(st, Probe(a, s, core)).stack, b) == None
  {
    ProbeKeepsValid(true, st.stack, a, s, core, s);
    ViewIs(Apply(st, Probe(a, s, core)).stack, b);
  }

  /** In a clean trace a byte probed since its last access is not valid any more. */
  lemma {:induction false} ProbedIsStale(trace: seq<Event>, b: nat)
    requires Sizes(trace) && Clean(trace) && ProbedSince(trace, b)
    ensures var v := View(RunTrace(trace).stack, b);
            v == None || v.value.inv
  {
    var front, ev := trace[..|trace| - 1], trace[|trace| - 1];
    RunValid(front);
    if ev.Access? {
      ProbedIsStale(front, b);
      AccessView(RunTrace(front).stack, ev.a, ev.s, ev.core, b);
    } else {
      if ProbedSince(front, b) {
        ProbedIsStale(front, b);
      }
      ProbeMakesStale(RunTrace(front), ev.a, ev.s, ev.core, b, ProbedSince(front, b));
    }
  }

  lemma ProbeMakesStale(st: State, a: nat, s: nat, core: int, b: nat, before: bool)
    requires Valid(st.stack) && 0 < s < WORD32
    requires forall l :: 0 <= l < |st.stack| ==> Reached(st.stack, a, s, core, l)
    requires before ==> View(st.stack, b) == None || View(st.stack, b).value.inv
    requires before || InRange(a, s, b)
    ensures var v := View(Apply(st, Probe(a, s, core)).stack, b);
            v == None || v.value.inv
  {
    if InStack(st.stack, b) {
      var l :| 0 <= l < |st.stack| && Has(st.stack[l], b);
      ViewAt(st.stack, l, b);
      ProbeIs(st, a, s, core, l, b);
      assert Reached(st.stack, a, s, core, l);
    } else {
      GoneStays(st, a, s, core, b);
    }
  }

  /** The reuse distance of the next access of `w`, as it is kept. */
  function Distance(trace: seq<Event>, w: nat): nat {
    Depth(RunTrace(trace).stack, w) % WORD32
  }

  /** Accessed before, not probed since, at a distance in the bucket. */
  ghost predicate Reuses(front: seq<Event>, w: nat, s: nat, k: nat) {
    LastAccess(front, w) >= 0 && !ProbedSince(front, w) && Brackets(Max(Distance(front, w), s), k)
  }

  ghost function ReusedWords(front: seq<Event>, ev: Event, k: nat): set<nat> {
    set w | w in WordSet(ev.a, ev.s) && Reuses(front, w, ev.s, k)
  }

  /** Those that another core accessed last. */
  ghost function SharedWords(front: seq<Event>, ev: Event, k: nat): set<nat> {
    set w | w in ReusedWords(front, ev, k) && front[LastAccess(front, w)].core != ev.core
  }

  ghost function TimesReused(trace: seq<Event>, k: nat): nat {
    if trace == [] then 0
    else
      var front, ev := trace[..|trace| - 1], trace[|trace| - 1];
      TimesReused(front, k) + if ev.Access? then |ReusedWords(front, ev, k)| else 0
  }

  ghost function TimesShared(trace: seq<Event>, k: nat): nat {
    if trace == [] then 0
    else
      var front, ev := trace[..|trace| - 1], trace[|trace| - 1];
      TimesShared(front, k) + if ev.Access? then |SharedWords(front, ev, k)| else 0
  }

  lemma ViewInTrace(front: seq<Event>, w: nat)
    requires Sizes(front) && Clean(front)
    ensures var v, t := View(RunTrace(front).stack, w), LastAccess(front, w);
            && (v.Some? && !v.value.inv <==> t >= 0 && !ProbedSince(front, w))
            && (v.Some? && !v.value.inv ==> v.value.core == front[t].core)
  {
    StackIsRight(front, w);
    if ProbedSince(front, w) {
      ProbedIsStale(front, w);
    }
  }

  lemma ReusedAre(front: seq<Event>, ev: Event, k: nat)
    requires Sizes(front) && Clean(front)
    ensures Those(ReusedIn(k), RunTrace(front).stack, 0, ev.a, ev.s, ev.core) == ReusedWords(front, ev, k)
    ensures Those(SharedIn(k), RunTrace(front).stack, 0, ev.a, ev.s, ev.core) == SharedWords(front, ev, k)
  {
    forall w | w in WordSet(ev.a, ev.s)
      ensures Counts(ReusedIn(k), RunTrace(front).stack, 0, w, ev.s, ev.core) <==> Reuses(front, w, ev.s, k)
      ensures Counts(SharedIn(k), RunTrace(front).stack, 0, w, ev.s, ev.core) <==>
              Reuses(front, w, ev.s, k) && front[LastAccess(front, w)].core != ev.core
    {
      ViewInTrace(front, w);
    }
  }

  lemma {:induction false} TimesAre(trace: seq<Event>, k: nat)
    requires Sizes(trace) && Clean(trace)
    ensures Times(ReusedIn(k), trace) == TimesReused(trace, k)
    ensures Times(SharedIn(k), trace) == TimesShared(trace, k)
  {
    if trace != [] {
      TimesAre(trace[..|trace| - 1], k);
      ReusedAre(trace[..|trace| - 1], trace[|trace| - 1], k);
    }
  }

  /** The histograms in terms of the trace: in bucket `k` are the accessed words that had been accessed before and not
      been probed since, at a distance there, and in the shared histogram those of them that another core had accessed
      last. */
  lemma ReusesMean(trace: seq<Event>, k: nat)
    requires Sizes(trace) && WordAligned(trace) && Clean(trace) && k < BUCKETS
    ensures Sized(RunTrace(trace).hist)
    ensures RunTrace(trace).hist.distance[k] == TimesReused(trace, k)
    ensures RunTrace(trace).hist.shared[k] == TimesShared(trace, k)
  {
    CountersMean(trace, k);
    TimesAre(trace, k);
  }

  lemma {:induction false} DepthAt(stack: seq<Entry>, i: nat, b: nat)
    requires Valid(stack) && i < |stack| && Has(stack[i], b)
    ensures Depth(stack, b) == Total(stack[..i]) + stack[i].size
  {
    if i > 0 {
      RestValid(stack);
      assert stack[1..][i - 1] == stack[i] && InStack(stack[1..], b);
      DepthAt(stack[1..], i - 1, b);
      assert stack[..i][1..] == stack[1..][..i - 1];
    }
  }

  /** The distance at which a byte on the stack counts, in distinct bytes accessed since its last access. */
  lemma DistanceMeans(trace: seq<Event>, b: nat, t: int, d: nat)
    requires Sizes(trace) && InStack(RunTrace(trace).stack, b)
    requires t == LastAccess(trace, b) && d == Depth(RunTrace(trace).stack, b)
    ensures t >= 0 && |AccessedFrom(trace, t + 1)| < d <= |AccessedFrom(trace, t)|
    ensures |AccessedFrom(trace, t)| < WORD32 ==> Distance(trace, b) == d
  {
    StackDepth(trace, RunTrace(trace).stack, b, t);
    Unwrapped(d, |AccessedFrom(trace, t)|);
  }

  lemma StackDepth(trace: seq<Event>, stack: seq<Entry>, b: nat, t: int)
    requires Sizes(trace) && stack == RunTrace(trace).stack && InStack(stack, b) && t == LastAccess(trace, b)
    ensures t >= 0 && |AccessedFrom(trace, t + 1)| < Depth(stack, b) <= |AccessedFrom(trace, t)|
  {
    StackIsRecency(trace);
    DepthBound(trace, stack, b, t);
  }

  lemma DepthBound(trace: seq<Event>, stack: seq<Entry>, b: nat, t: int)
    requires Recency(trace, stack) && InStack(stack, b) && t == LastAccess(trace, b)
    ensures t >= 0 && |AccessedFrom(trace, t + 1)| < Depth(stack, b) <= |AccessedFrom(trace, t)|
  {
    var i :| 0 <= i < |stack| && Has(stack[i], b);
    DepthAt(stack, i, b);
    EntryBound(trace, stack, i, b, t);
  }

  // ---------------------------------------------------------------- accesses only

  lemma {:induction false} NeverProbed(trace: seq<Event>, b: nat)
    requires OnlyAccesses(trace)
    ensures !ProbedSince(trace, b) && Clean(trace)
  {
    if trace != [] {
      NeverProbed(trace[..|trace| - 1], b);
    }
  }

  lemma {:induction false} NoneStale(trace: seq<Event>, kind: Kind)
    requires OnlyAccesses(trace) && (kind.Stale? || kind.StaleIn?)
    ensures Times(kind, trace) == 0
  {
    if trace != [] {
      var front, ev := trace[..|trace| - 1], trace[|trace| - 1];
      NoneStale(front, kind);
      forall w
        ensures !Counts(kind, RunTrace(front).stack, 0, w, ev.s, ev.core)
      {
        NeverProbed(front, w);
        StackIsRight(front, w);
      }
      assert Those(kind, RunTrace(front).stack, 0, ev.a, ev.s, ev.core) == {};
    }
  }

  lemma {:induction false} NewAre(trace: seq<Event>)
    requires OnlyAccesses(trace) && WordAligned(trace)
    ensures 4 * Times(New, trace) == |AccessedFrom(trace, 0)|
  {
    if trace != [] {
      var front, ev := trace[..|trace| - 1], trace[|trace| - 1];
      NewAre(front);
      Conservation(front);
      NewWords(RunTrace(front).stack, ev.a, ev.s, ev.core);
      ColdIffNew(front, ev.a, ev.s);
      var before, now := AccessedFrom(front, 0), Range(ev.a, ev.s);
      assert before + now == before + (now - before);
      assert AccessedFrom(trace, 0) == before + (now - before);
    }
  }

  /** Without probes: no invalidation misses, a cold miss for every word ever accessed, and a reuse in its bucket for
      every access of a word accessed before, shared if another core accessed it last. */
  lemma AccessesMean(trace: seq<Event>, k: nat)
    requires OnlyAccesses(trace) && WordAligned(trace) && k < BUCKETS
    ensures Sized(RunTrace(trace).hist)
    ensures RunTrace(trace).hist.inv == 0 && RunTrace(trace).hist.invMiss[k] == 0
    ensures 4 * RunTrace(trace).hist.cold == |AccessedFrom(trace, 0)|
    ensures RunTrace(trace).hist.distance[k] == TimesReused(trace, k)
    ensures RunTrace(trace).hist.shared[k] == TimesShared(trace, k)
    ensures forall n: nat, w: nat :: n <= |trace| ==> !ProbedSince(trace[..n], w)
  {
    forall n: nat, w: nat | n <= |trace|
      ensures !ProbedSince(trace[..n], w)
    {
      NeverProbed(trace[..n], w);
    }
    NeverProbed(trace, 0);
    CountersMean(trace, k);
    ReusesMean(trace, k);
    NoneStale(trace, Stale);
    NoneStale(trace, StaleIn(k));
    NewAre(trace);
  }
}
