/** The kernel-reuse-distance stack: accesses and invalidation probes on a list of byte intervals, most recent first.

    The stack is a sequence here, which the linked list of ReuseList is proved to hold. */
module ReuseStack {
  import opened BinaryLog

  const WORD32: nat := 0x1_0000_0000
  const BUCKETS: nat := 128

  datatype Entry = Entry(elem: nat, size: nat, inv: bool, core: int)

  /** One overlap found on the way down the stack, with the reuse distance reached there. */
  datatype Match = Match(start: nat, bytes: nat, distance: nat, inv: bool, core: int)

  datatype Histograms = Histograms(distance: seq<nat>, shared: seq<nat>, invMiss: seq<nat>, cold: nat, inv: nat)

  function Max(x: nat, y: nat): nat {
    if x > y then x else y
  }

  function Min(x: nat, y: nat): nat {
    if x < y then x else y
  }

  /** 32-bit unsigned arithmetic. */
  function Add32(x: nat, y: nat): nat {
    (x + y) % WORD32
  }

  function Sub32(x: nat, y: nat): nat {
    (x - y) % WORD32
  }

  /** x - y, cut off at zero. */
  function Sub(x: nat, y: nat): nat {
    if y <= x then x - y else 0
  }

  // ---------------------------------------------------------------- overlap

  function End(e: Entry): nat {
    e.elem + e.size
  }

  predicate Overlaps(e: Entry, a: nat, s: nat) {
    a + s > e.elem && a < End(e)
  }

  function From(e: Entry, a: nat): nat {
    Max(e.elem, a)
  }

  /** Size of the common part. */
  function Common(e: Entry, a: nat, s: nat): nat
    requires Overlaps(e, a, s)
  {
    if From(e, a) <= Min(End(e), a + s) then Min(End(e), a + s) - From(e, a) else 0
  }

  /** The matched region covers the whole entry. */
  predicate Superset(e: Entry, start: nat, bytes: nat) {
    e.elem >= start && End(e) <= start + bytes
  }

  // ---------------------------------------------------------------- what an access does

  /** What is left of an entry once the accessed range is cut out. */
  function Rest(e: Entry, a: nat, s: nat): seq<Entry> {
    if !Overlaps(e, a, s) then [e]
    else
      (if e.elem < a then [e.(size := a - e.elem)] else []) +
      (if a + s < End(e) then [e.(elem := a + s, size := End(e) - (a + s))] else [])
  }

  /** The stack with the accessed range cut out. */
  function Strip(stack: seq<Entry>, a: nat, s: nat): seq<Entry> {
    if stack == [] then [] else Rest(stack[0], a, s) + Strip(stack[1..], a, s)
  }

  /** The matches of an access from here on down, `d` being the reuse distance so far. */
  function Matches(stack: seq<Entry>, d: nat, a: nat, s: nat): seq<Match> {
    if stack == [] then []
    else
      var e, d' := stack[0], Add32(d, stack[0].size);
      (if Overlaps(e, a, s) then [Match(From(e, a), Common(e, a, s), d', e.inv, e.core)] else []) +
      Matches(stack[1..], d', a, s)
  }

  /** How many bytes of the access these entries match. */
  function Matched(stack: seq<Entry>, a: nat, s: nat): nat {
    if stack == [] then 0 else Overlap(stack[0], a, s) + Matched(stack[1..], a, s)
  }

  function Overlap(e: Entry, a: nat, s: nat): nat {
    if Overlaps(e, a, s) then Common(e, a, s) else 0
  }

  function Bump(v: seq<nat>, b: nat, n: nat): seq<nat> {
    if b < |v| then v[b := v[b] + n] else v
  }

  /** Bucket in which a match is counted: never nearer than the size of the access itself. */
  function Slot(m: Match, size: nat): nat {
    Bucket(Max(m.distance, size))
  }

  /** Count one match: a miss if the bytes had been invalidated, a reuse otherwise. */
  function Record(h: Histograms, m: Match, size: nat, core: int): Histograms {
    var words := m.bytes / 4;
    if m.inv then
      h.(inv := h.inv + words, cold := h.cold + words, invMiss := Bump(h.invMiss, Slot(m, size), words))
    else
      h.(distance := Bump(h.distance, Slot(m, size), words),
         shared := if m.core != core then Bump(h.shared, Slot(m, size), words) else h.shared)
  }

  function RecordAll(h: Histograms, ms: seq<Match>, size: nat, core: int): Histograms
    decreases ms
  {
    if ms == [] then h else RecordAll(Record(h, ms[0], size, core), ms[1..], size, core)
  }

  /** Bytes of the access found nowhere in the stack. */
  function Unmatched(stack: seq<Entry>, a: nat, s: nat): nat {
    Sub(s, Matched(stack, a, s))
  }

  function AfterAccess(stack: seq<Entry>, a: nat, s: nat, core: int): seq<Entry> {
    [Entry(a, s, false, core)] + Strip(stack, a, s)
  }

  function CountAccess(h: Histograms, stack: seq<Entry>, a: nat, s: nat, core: int): Histograms {
    var r := RecordAll(h, Matches(stack, 0, a, s), s, core);
    r.(cold := r.cold + Unmatched(stack, a, s) / 4)
  }

  // ---------------------------------------------------------------- what an invalidation probe does

  /** The visited entry after the probe has looked at it. */
  function Probed(e: Entry, a: nat, s: nat, core: int): Entry {
    if !Overlaps(e, a, s) then e
    else
      var start, bytes := From(e, a), Common(e, a, s);
      if Superset(e, start, bytes) then e.(inv := true, core := core)
      else if start > e.elem && start + bytes < End(e) then e.(size := start - e.elem)
      else if e.elem == start then Entry(start, bytes, true, core)
      else e.(size := Sub(e.size, bytes))
  }

  /** The entries that the probe links in behind it. */
  function Inserted(e: Entry, a: nat, s: nat, core: int): seq<Entry> {
    if !Overlaps(e, a, s) then []
    else
      var start, bytes := From(e, a), Common(e, a, s);
      if Superset(e, start, bytes) then []
      else if start > e.elem && start + bytes < End(e) then
        [Entry(start, bytes, true, core), e.(elem := start + bytes, size := End(e) - (start + bytes))]
      else if e.elem == start then [e.(elem := start + bytes, size := Sub(e.size, bytes))]
      else [Entry(start, bytes, true, core)]
  }

  function StillPending(e: Entry, a: nat, s: nat, pending: nat): nat {
    if Overlaps(e, a, s) then Sub32(pending, Common(e, a, s)) else pending
  }

  /** An entry that the probe will still cut counts four, any other one. */
  function Weight(stack: seq<Entry>, a: nat, s: nat): nat {
    if stack == [] then 0
    else
      (if Overlaps(stack[0], a, s) && (stack[0].elem < a || a + s < End(stack[0])) then 4 else 1) +
      Weight(stack[1..], a, s)
  }

  lemma {:induction false} WeightAppend(x: seq<Entry>, y: seq<Entry>, a: nat, s: nat)
    ensures Weight(x + y, a, s) == Weight(x, a, s) + Weight(y, a, s)
    decreases |x|
  {
    if x == [] {
      assert x + y == y;
    } else {
      assert (x + y)[1..] == x[1..] + y;
      WeightAppend(x[1..], y, a, s);
    }
  }

  /** The probe goes on behind the visited entry, and that is less work. */
  lemma ProbeShrinks(rest: seq<Entry>, a: nat, s: nat, core: int)
    requires rest != []
    ensures Weight(Inserted(rest[0], a, s, core) + rest[1..], a, s) < Weight(rest, a, s)
  {
    var e := rest[0];
    var ins := Inserted(e, a, s, core);
    WeightAppend(ins, rest[1..], a, s);
    if ins != [] {
      InsertedLight(e, a, s, core);
    }
  }

  lemma InsertedLight(e: Entry, a: nat, s: nat, core: int)
    ensures Weight(Inserted(e, a, s, core), a, s) <= 2
    ensures Inserted(e, a, s, core) != [] ==> Overlaps(e, a, s) && (e.elem < a || a + s < End(e))
  {
    var ins := Inserted(e, a, s, core);
    if Overlaps(e, a, s) {
      var start, bytes := From(e, a), Common(e, a, s);
      if Superset(e, start, bytes) {
        assert ins == [];
      } else if start > e.elem && start + bytes < End(e) {
        var post := ins[1..];
        assert post[1..] == [];
        assert Weight(post, a, s) <= 1;
      } else {
        assert ins[1..] == [];
      }
    }
  }

  /** The stack from the cursor on, once the probe is through. `first` says that the cursor is at the head. */
  function AfterProbe(first: bool, rest: seq<Entry>, a: nat, s: nat, core: int, pending: nat): seq<Entry>
    decreases Weight(rest, a, s)
  {
    if rest == [] then []
    else
      ProbeShrinks(rest, a, s, core);
      var cur, next := Probed(rest[0], a, s, core), Inserted(rest[0], a, s, core) + rest[1..];
      var left := StillPending(rest[0], a, s, pending);
      if left == 0 then [cur] + next
      else if next == [] && !first && cur.inv then []
      else [cur] + AfterProbe(false, next, a, s, core, left)
  }

  // ---------------------------------------------------------------- well-formed stacks

  ghost predicate Apart(e: Entry, f: Entry) {
    End(e) <= f.elem || End(f) <= e.elem
  }

  /** Entries are nonempty and pairwise disjoint. */
  ghost predicate Valid(stack: seq<Entry>) {
    && (forall i :: 0 <= i < |stack| ==> stack[i].size > 0)
    && (forall i, j :: 0 <= i < j < |stack| ==> Apart(stack[i], stack[j]))
  }

  ghost predicate Aligned(stack: seq<Entry>) {
    forall i :: 0 <= i < |stack| ==> stack[i].elem % 4 == 0 && stack[i].size % 4 == 0
  }

  ghost predicate Sized(h: Histograms) {
    |h.distance| == BUCKETS && |h.shared| == BUCKETS && |h.invMiss| == BUCKETS
  }
}
