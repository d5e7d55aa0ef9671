/** The histogram generator: the loops over the stack, proved against the functions of ReuseStack.

    An access walks down the linked list, counts what it matches, cuts it out, and ends with a new head; the cursor
    steps back when an entry is removed, possibly to null, which stands for the place in front of the head. A probe
    walks down the list and marks what it matches as invalid, splitting entries where needed, and cuts off an invalid
    tail. Both loops are described by what is still to be done from the cursor on, so that their results are those of
    the recursive functions on the sequence of entries. */
module ReuseProfiler {
  import opened BinaryLog
  import opened ReuseStack
  import opened ReuseList
  import opened ReuseCover
  import opened ReuseTraces

  lemma Shape<T>(st: seq<T>, pos: nat, mid: seq<T>)
    requires pos < |st|
    ensures st[pos..] == [st[pos]] + st[pos + 1..]
    ensures var st' := st[..pos] + mid + st[pos + 1..];
            && st'[..pos + |mid|] == st[..pos] + mid && st'[pos + |mid|..] == st[pos + 1..]
  {
  }

  lemma Regrouped<T>(x: seq<T>, y: seq<T>, z: seq<T>)
    ensures x + (y + z) == x + y + z
  {
  }

  ghost predicate Positive(stack: seq<Entry>) {
    forall i :: 0 <= i < |stack| ==> stack[i].size > 0
  }

  lemma FirstPositive(stack: seq<Entry>, pos: nat)
    requires pos < |stack| && Positive(stack[pos..])
    ensures stack[pos].size > 0 && Positive(stack[pos + 1..])
  {
    assert stack[pos] == stack[pos..][0];
    var tail := stack[pos + 1..];
    forall i | 0 <= i < |tail|
      ensures tail[i].size > 0
    {
      assert tail[i] == stack[pos..][i + 1];
    }
  }

  // ---------------------------------------------------------------- an access on its way down

  /** Cutting, counting and adding up the entries from `pos` on completes the access. */
  ghost predicate AccessLeft(stack: seq<Entry>, h: Histograms, pos: nat, d: nat, pending: nat, a: nat, s: nat,
                             core: int,
                             goal: seq<Entry>, counted: Histograms, cold: nat)
    requires pos <= |stack|
  {
    var holds :=
      && Positive(stack[pos..]) && Sized(h)
      && stack[..pos] + Strip(stack[pos..], a, s) == goal
      && RecordAll(h, Matches(stack[pos..], d, a, s), s, core) == counted
      && pending == cold + Matched(stack[pos..], a, s);
    holds
  }

  function Counted(h: Histograms, e: Entry, d: nat, a: nat, s: nat, core: int): Histograms {
    if Overlaps(e, a, s) then Record(h, Match(From(e, a), Common(e, a, s), d, e.inv, e.core), s, core) else h
  }

  /** The recursions of Strip, Matched and Matches, on a first entry and a tail. */
  lemma AccessUnfolds(h: Histograms, e: Entry, tail: seq<Entry>, d: nat, a: nat, s: nat, core: int)
    ensures Strip([e] + tail, a, s) == Rest(e, a, s) + Strip(tail, a, s)
    ensures Matched([e] + tail, a, s) == Overlap(e, a, s) + Matched(tail, a, s)
    ensures var d' := Add32(d, e.size);
            RecordAll(h, Matches([e] + tail, d, a, s), s, core) ==
            RecordAll(Counted(h, e, d', a, s, core), Matches(tail, d', a, s), s, core)
  {
    assert ([e] + tail)[1..] == tail;
    var d' := Add32(d, e.size);
    var rest := Matches(tail, d', a, s);
    if Overlaps(e, a, s) {
      var m := Match(From(e, a), Common(e, a, s), d', e.inv, e.core);
      assert Matches([e] + tail, d, a, s) == [m] + rest;
      assert ([m] + rest)[1..] == rest;
    } else {
      assert Matches([e] + tail, d, a, s) == rest;
    }
  }

  lemma AccessOnce(st: seq<Entry>, h: Histograms, pos: nat, d: nat, pending: nat, a: nat, s: nat, core: int,
                   goal: seq<Entry>, counted: Histograms, cold: nat)
    requires pos < |st| && AccessLeft(st, h, pos, d, pending, a, s, core, goal, counted, cold)
    ensures st[pos].size > 0 && Sized(h) && Overlap(st[pos], a, s) <= pending
    ensures var e, r, d' := st[pos], Rest(st[pos], a, s), Add32(d, st[pos].size);
            AccessLeft(st[..pos] + r + st[pos + 1..], Counted(h, e, d', a, s, core), pos + |r|, d',
                       pending - Overlap(e, a, s), a, s, core, goal, counted, cold)
  {
    var e, tail, r := st[pos], st[pos + 1..], Rest(st[pos], a, s);
    Shape(st, pos, r);
    FirstPositive(st, pos);
    AccessUnfolds(h, e, tail, d, a, s, core);
    Regrouped(st[..pos], r, Strip(tail, a, s));
  }

  /** The access has nothing left to match, or nowhere left to look. */
  lemma AccessDone(st: seq<Entry>, h: Histograms, pos: nat, d: nat, pending: nat, a: nat, s: nat, core: int,
                   goal: seq<Entry>, counted: Histograms, cold: nat)
    requires pos <= |st| && AccessLeft(st, h, pos, d, pending, a, s, core, goal, counted, cold)
    requires s > 0 && (pending == 0 || pos == |st|)
    ensures st == goal && h == counted && pending == cold
  {
    NothingLeft(st[pos..], d, a, s);
    Rejoin(st, pos);
  }

  lemma Rejoin<T>(x: seq<T>, k: nat)
    requires k <= |x|
    ensures x[..k] + x[k..] == x
  {
  }

  lemma NothingLeft(todo: seq<Entry>, d: nat, a: nat, s: nat)
    requires s > 0 && Positive(todo) && (Matched(todo, a, s) == 0 || todo == [])
    ensures Strip(todo, a, s) == todo && Matches(todo, d, a, s) == [] && Matched(todo, a, s) == 0
  {
    Untouched(todo, d, a, s);
  }

  lemma AccessStarts(st: seq<Entry>, h: Histograms, a: nat, s: nat, core: int)
    requires Valid(st) && Sized(h)
    ensures AccessLeft(st, h, 0, 0, s, a, s, core, Strip(st, a, s), RecordAll(h, Matches(st, 0, a, s), s, core),
                       Unmatched(st, a, s))
  {
    MatchedBounded(st, a, s);
    assert st[0..] == st;
  }

  lemma Rejoined(st: seq<Entry>, pos: nat)
    requires pos < |st|
    ensures st[..pos] + [st[pos]] + st[pos + 1..] == st
  {
  }

  /** What is left of an entry, by where the match lies in it. */
  lemma RestByCase(e: Entry, a: nat, s: nat, start: nat, bytes: nat)
    requires e.size > 0 && s > 0 && Overlaps(e, a, s) && start == From(e, a) && bytes == Common(e, a, s)
    ensures Superset(e, start, bytes) ==> Rest(e, a, s) == []
    ensures start > e.elem && start + bytes < End(e) ==>
              bytes == s && Rest(e, a, s)
                  == [e.(size := start - e.elem), e.(elem := start + bytes, size := End(e) - (start + bytes))]
    ensures !Superset(e, start, bytes) && !(start > e.elem && start + bytes < End(e)) ==>
              bytes <= e.size && Rest(e, a, s)
                  == [if e.elem == start then e.(elem := start + bytes, size := e.size - bytes)
                                                   else e.(size := e.size - bytes)]
  {
  }

  /** The first entry that a probe leaves and the ones it adds, by where the match lies. */
  lemma ProbedIs(e: Entry, a: nat, s: nat, core: int, start: nat, bytes: nat)
    requires e.size > 0 && s > 0 && Overlaps(e, a, s) && start == From(e, a) && bytes == Common(e, a, s)
    ensures !Superset(e, start, bytes) ==> bytes <= e.size && start + bytes <= End(e)
    ensures var p := [Probed(e, a, s, core)] + Inserted(e, a, s, core);
            if Superset(e, start, bytes) then p == [e.(inv := true, core := core)]
            else if start > e.elem && start + bytes < End(e) then
              p == [e.(size := start - e.elem), Entry(start, bytes, true, core),
                    e.(elem := start + bytes, size := End(e) - (start + bytes))]
            else if e.elem == start then
              p == [Entry(start, bytes, true, core), e.(elem := start + bytes, size := e.size - bytes)]
            else p == [e.(size := e.size - bytes), Entry(start, bytes, true, core)]
  {
  }

  class Profiler {
    const stack: EntryStack
    var hist: Histograms

    constructor ()
      ensures stack.Valid() && fresh(stack) && stack.chain == [] && stack.repr == {}
      ensures State(stack.Contents(), hist) == Init()
    {
      stack := new EntryStack();
      hist := Histograms(Zeros(BUCKETS), Zeros(BUCKETS), Zeros(BUCKETS), 0, 0);
    }

    /** Where the walk goes on from `sentry`: its successor, or the head if the walk has stepped back to null. */
    ghost function Onward(sentry: StackEntry?): StackEntry?
      reads stack, sentry
    {
      if sentry == null then stack.head else sentry.next
    }

    /** Count `matching` bytes found in entry `e` at the given distance. */
    method Count(e: Entry, start: nat, matching: nat, distance: nat, size: nat, core: int)
      requires Sized(hist) && distance < WORD32 && size < WORD32
      modifies this`hist
      ensures Sized(hist)
      ensures hist == Record(old(hist), Match(start, matching, distance, e.inv, e.core), size, core)
    {
      var bounded := if distance > size then distance else size;
      var b := CeilLog2(bounded);
      SlotBelow(bounded);
      if e.inv {
        hist := hist.(inv := hist.inv + matching / 4, cold := hist.cold + matching / 4);
        hist := hist.(invMiss := hist.invMiss[b := hist.invMiss[b] + matching / 4]);
      } else {
        hist := hist.(distance := hist.distance[b := hist.distance[b] + matching / 4]);
        if e.core != core {
          hist := hist.(shared := hist.shared[b := hist.shared[b] + matching / 4]);
        }
      }
    }

    /** The list is `st` with `rest` in place of the entry at `pos`. */
    ghost predicate IsCut(st: seq<Entry>, pos: nat, rest: seq<Entry>)
      reads stack, stack.chain
    {
      var holds := stack.Valid() && pos < |st| && stack.Contents() == st[..pos] + rest + st[pos + 1..];
      holds
    }

    /** The match is the whole entry, which goes. */
    method CutAll(sentry: StackEntry, ghost pos: nat, ghost st: seq<Entry>, ghost rest: seq<Entry>)
      returns (on: StackEntry?)
      requires stack.Valid() && pos < |stack.chain| && sentry == stack.chain[pos] && st == stack.Contents()
      requires rest == []
      modifies stack, stack.repr
      ensures IsCut(st, pos, rest) && fresh(stack.repr - old(stack.repr))
      ensures Onward(on) == NodeAt(stack.chain, pos + |rest|)
    {
      on := stack.Remove(sentry, pos);
      Stands(pos);
    }

    /** It is in the middle of the entry, which splits. */
    method CutMiddle(sentry: StackEntry, ghost pos: nat, pre: Entry, post: Entry, ghost st: seq<Entry>,
                     ghost rest: seq<Entry>)
      requires stack.Valid() && pos < |stack.chain| && sentry == stack.chain[pos] && st == stack.Contents()
      requires rest == [pre, post]
      modifies stack, stack.repr
      ensures IsCut(st, pos, rest) && fresh(stack.repr - old(stack.repr))
    {
      stack.Split(sentry, pos, pre, post);
    }

    /** It is at one end of the entry, which gets shorter. */
    method CutEnd(sentry: StackEntry, ghost pos: nat, left: Entry, ghost st: seq<Entry>, ghost rest: seq<Entry>)
      requires stack.Valid() && pos < |stack.chain| && sentry == stack.chain[pos] && st == stack.Contents()
      requires rest == [left]
      modifies stack, stack.repr
      ensures IsCut(st, pos, rest) && fresh(stack.repr - old(stack.repr))
      ensures Onward(sentry) == NodeAt(stack.chain, pos + |rest|)
    {
      stack.Replace(sentry, pos, left);
      StepsOn(pos);
    }

    /** Take the matched bytes out of the entry at the cursor. Returns where the walk stands then: the entry itself, or
        the one before it, which may be null. */
    method CutOut(sentry: StackEntry, ghost pos: nat, e: Entry, a: nat, s: nat, ghost st: seq<Entry>)
      returns (on: StackEntry?)
      requires stack.Valid() && pos < |stack.chain| && sentry == stack.chain[pos] && st == stack.Contents()
      requires e == sentry.Val() && e.size > 0 && s > 0 && Overlaps(e, a, s)
      modifies stack, stack.repr
      ensures IsCut(st, pos, Rest(e, a, s)) && fresh(stack.repr - old(stack.repr))
      ensures Common(e, a, s) < s ==> Onward(on) == NodeAt(stack.chain, pos + |Rest(e, a, s)|)
    {
      var start, bytes := From(e, a), Common(e, a, s);
      RestByCase(e, a, s, start, bytes);
      if Superset(e, start, bytes) {
        on := CutAll(sentry, pos, st, Rest(e, a, s));
      } else if start > e.elem && start + bytes < End(e) {
        on := sentry;
        CutMiddle(sentry, pos, e.(size := start - e.elem),
                  e.(elem := start + bytes, size := End(e) - (start + bytes)), st, Rest(e, a, s));
      } else {
        on := sentry;
        CutEnd(sentry, pos, if e.elem == start then e.(elem := start + bytes, size := e.size - bytes)
                            else e.(size := e.size - bytes), st, Rest(e, a, s));
      }
    }

    /** The step from an entry, and from the place before one that has been removed. */
    lemma StepsOn(pos: nat)
      requires stack.Valid() && pos < |stack.chain|
      ensures Onward(stack.chain[pos]) == NodeAt(stack.chain, pos + 1)
    {
      assert LinkedAt(stack.chain, pos);
    }

    lemma Stands(pos: nat)
      requires stack.Valid() && pos <= |stack.chain|
      ensures Onward(NodeBefore(stack.chain, pos)) == NodeAt(stack.chain, pos)
    {
      if pos > 0 {
        StepsOn(pos - 1);
      }
    }

    /** The step of the walk. */
    method Advance(on: StackEntry?) returns (next: StackEntry?)
      ensures next == Onward(on)
    {
      if on == null {
        next := stack.head;
      } else {
        next := on.next;
      }
    }

    /** The match at the cursor: it is counted and cut out. */
    method CountAndCut(sentry: StackEntry, ghost pos: nat, e: Entry, a: nat, s: nat, core: int, d: nat)
      returns (on: StackEntry?)
      requires stack.Valid() && pos < |stack.chain| && sentry == stack.chain[pos] && e == sentry.Val()
      requires Sized(hist) && d < WORD32 && 0 < s < WORD32 && e.size > 0 && Overlaps(e, a, s)
      modifies this`hist, stack, stack.repr
      ensures stack.Valid() && fresh(stack.repr - old(stack.repr))
      ensures hist == Counted(old(hist), e, d, a, s, core)
      ensures stack.Contents() == old(stack.Contents())[..pos] + Rest(e, a, s) + old(stack.Contents())[pos + 1..]
      ensures Common(e, a, s) < s ==> Onward(on) == NodeAt(stack.chain, pos + |Rest(e, a, s)|)
    {
      Count(e, From(e, a), Common(e, a, s), d, s, core);
      on := CutOut(sentry, pos, e, a, s, stack.Contents());
    }

    /** The walk of an access is at `sentry`, the entry at `pos`, and what lies from there on completes it. */
    ghost predicate Descending(sentry: StackEntry?, pos: nat, a: nat, s: nat, core: int, distance: nat, pending: nat,
                               goal: seq<Entry>, counted: Histograms, cold: nat)
      reads this, stack, stack.chain
    {
      var holds :=
        && stack.Valid() && pos <= |stack.chain| && pending <= s
        && AccessLeft(stack.Contents(), hist, pos, distance, pending, a, s, core, goal, counted, cold)
        && (pending > 0 ==> sentry == NodeAt(stack.chain, pos));
      holds
    }

    /** The body of the loop of an access, at an entry that holds some of the bytes. `cut` is the position behind what
        is left of the entry. */
    method VisitMatch(sentry: StackEntry, ghost pos: nat, e: Entry, a: nat, s: nat, core: int, d: nat, pending: nat,
                      ghost distance: nat, ghost goal: seq<Entry>, ghost counted: Histograms, ghost cold: nat,
                      ghost cut: nat)
      returns (next: StackEntry?, p: nat)
      requires Descending(sentry, pos, a, s, core, distance, pending, goal, counted, cold)
      requires pos < |stack.chain| && sentry == stack.chain[pos] && e == sentry.Val() && 0 < s < WORD32
      requires Overlaps(e, a, s) && d == Add32(distance, e.size) && cut == pos + |Rest(e, a, s)|
      modifies this, stack, stack.repr
      ensures fresh(stack.repr - old(stack.repr)) && |stack.chain| - cut < |old(stack.chain)| - pos
      ensures Descending(next, cut, a, s, core, d, p, goal, counted, cold)
    {
      AccessOnce(stack.Contents(), hist, pos, distance, pending, a, s, core, goal, counted, cold);
      p := pending - Common(e, a, s);
      var on := CountAndCut(sentry, pos, e, a, s, core, d);
      next := Advance(on);
    }

    /** At an entry that holds none of them. */
    method VisitOther(sentry: StackEntry, ghost pos: nat, e: Entry, a: nat, s: nat, ghost core: int, d: nat,
                      pending: nat, ghost distance: nat, ghost goal: seq<Entry>, ghost counted: Histograms,
                      ghost cold: nat)
      returns (next: StackEntry?)
      requires Descending(sentry, pos, a, s, core, distance, pending, goal, counted, cold)
      requires pos < |stack.chain| && sentry == stack.chain[pos] && e == sentry.Val()
      requires !Overlaps(e, a, s) && d == Add32(distance, e.size)
      ensures Descending(next, pos + 1, a, s, core, d, pending, goal, counted, cold)
    {
      AccessOnce(stack.Contents(), hist, pos, distance, pending, a, s, core, goal, counted, cold);
      StepsOn(pos);
      Rejoined(stack.Contents(), pos);
      next := Advance(sentry);
    }

    method Visit(sentry: StackEntry, ghost pos: nat, a: nat, s: nat, core: int, distance: nat, pending: nat,
                 ghost goal: seq<Entry>, ghost counted: Histograms, ghost cold: nat)
      returns (next: StackEntry?, d: nat, p: nat, ghost cut: nat)
      requires Descending(sentry, pos, a, s, core, distance, pending, goal, counted, cold)
      requires 0 < s < WORD32 && pending > 0
      modifies this, stack, stack.repr
      ensures fresh(stack.repr - old(stack.repr)) && |stack.chain| - cut < |old(stack.chain)| - pos
      ensures Descending(next, cut, a, s, core, d, p, goal, counted, cold)
    {
      var e := sentry.Read();
      d := Add32(distance, e.size);
      if Overlaps(e, a, s) {
        cut := pos + |Rest(e, a, s)|;
        next, p := VisitMatch(sentry, pos, e, a, s, core, d, pending, distance, goal, counted, cold, cut);
      } else {
        cut, p := pos + 1, pending;
        next := VisitOther(sentry, pos, e, a, s, core, d, pending, distance, goal, counted, cold);
      }
    }

    /** Go down the stack until all bytes are matched or the end is reached. */
    method Descend(a: nat, s: nat, core: int) returns (pending: nat)
      requires stack.Valid() && Valid(stack.Contents()) && Sized(hist) && 0 < s < WORD32
      modifies this, stack, stack.repr
      ensures stack.Valid() && fresh(stack.repr - old(stack.repr))
      ensures stack.Contents() == Strip(old(stack.Contents()), a, s)
      ensures hist == RecordAll(old(hist), Matches(old(stack.Contents()), 0, a, s), s, core)
      ensures pending == Unmatched(old(stack.Contents()), a, s)
    {
      ghost var st := stack.Contents();
      ghost var goal, counted := Strip(st, a, s), RecordAll(hist, Matches(st, 0, a, s), s, core);
      ghost var cold, cut: nat := Unmatched(st, a, s), 0;
      var distance: nat, sentry := 0, stack.head;
      pending := s;
      AccessStarts(st, hist, a, s, core);
      while pending > 0 && sentry != null
        invariant fresh(stack.repr - old(stack.repr))
        invariant Descending(sentry, cut, a, s, core, distance, pending, goal, counted, cold)
        decreases |stack.chain| - cut
      {
        sentry, distance, pending, cut := Visit(sentry, cut, a, s, core, distance, pending, goal, counted, cold);
      }
      AccessDone(stack.Contents(), hist, cut, distance, pending, a, s, core, goal, counted, cold);
    }

    /** A regular access of `s` bytes at `a`: what it finds moves to the top, what it does not find is a cold miss. */
    method Access(a: nat, s: nat, core: int)
      requires stack.Valid() && Valid(stack.Contents()) && Sized(hist) && 0 < s < WORD32
      modifies this, stack, stack.repr
      ensures stack.Valid() && fresh(stack.repr - old(stack.repr))
      ensures stack.Contents() == AfterAccess(old(stack.Contents()), a, s, core)
      ensures hist == CountAccess(old(hist), old(stack.Contents()), a, s, core)
    {
      var pending := Descend(a, s, core);
      stack.PushFront(Entry(a, s, false, core));
      if pending > 0 {
        hist := hist.(cold := hist.cold + pending / 4);
      }
    }

    /** Mark the matched bytes of the entry at the cursor invalid, splitting it where needed. */
    method Invalidate(sentry: StackEntry, ghost pos: nat, a: nat, s: nat, core: int)
      requires stack.Valid() && pos < |stack.chain| && sentry == stack.chain[pos]
      requires s > 0 && sentry.size > 0 && Overlaps(sentry.Val(), a, s)
      modifies stack, stack.repr
      ensures stack.Valid() && fresh(stack.repr - old(stack.repr))
      ensures pos < |stack.chain| && sentry == stack.chain[pos]
      ensures stack.Contents() ==
              old(stack.Contents())[..pos] +
              ([Probed(old(sentry.Val()), a, s, core)] + Inserted(old(sentry.Val()), a, s, core))
              + old(stack.Contents())[pos + 1..]
    {
      var e := sentry.Read();
      var start, bytes := From(e, a), Common(e, a, s);
      ProbedIs(e, a, s, core, start, bytes);
      if Superset(e, start, bytes) {
        stack.Replace(sentry, pos, e.(inv := true, core := core));
      } else if start > e.elem && start + bytes < End(e) {
        stack.SplitInThree(sentry, pos, e.(size := start - e.elem), Entry(start, bytes, true, core),
                           e.(elem := start + bytes, size := End(e) - (start + bytes)));
      } else if e.elem == start {
        stack.Split(sentry, pos, Entry(start, bytes, true, core), e.(elem := start + bytes, size := e.size - bytes));
      } else {
        stack.Split(sentry, pos, e.(size := e.size - bytes), Entry(start, bytes, true, core));
      }
    }

    /** The entry at the cursor, as the probe leaves it. */
    method ProbeHere(sentry: StackEntry, ghost pos: nat, a: nat, s: nat, core: int, pending: nat) returns (p: nat)
      requires stack.Valid() && pos < |stack.chain| && sentry == stack.chain[pos] && s > 0 && sentry.size > 0
      modifies stack, stack.repr
      ensures stack.Valid() && fresh(stack.repr - old(stack.repr))
      ensures pos < |stack.chain| && sentry == stack.chain[pos] && p == StillPending(old(sentry.Val()), a, s, pending)
      ensures stack.Contents() == AfterEntry(old(stack.Contents()), pos, a, s, core)
    {
      var e := sentry.Read();
      p := pending;
      if Overlaps(e, a, s) {
        p := Sub32(pending, Common(e, a, s));
        Invalidate(sentry, pos, a, s, core);
        Regrouped(old(stack.Contents())[..pos], [Probed(e, a, s, core)], Inserted(e, a, s, core));
      } else {
        Unchanged(stack.Contents(), pos, a, s, core);
      }
    }

    /** Where the probe goes on: nowhere when all bytes have been found, and nowhere behind an invalid last entry, which
        is cut off. */
    method ProbeOn(sentry: StackEntry, ghost pos: nat, p: nat) returns (next: StackEntry?, on: bool)
      requires stack.Valid() && pos < |stack.chain| && sentry == stack.chain[pos]
      modifies stack, stack.repr
      ensures stack.Valid() && fresh(stack.repr - old(stack.repr))
      ensures var last := pos + 1 == |old(stack.chain)| && pos > 0 && old(sentry.inv);
              && on == (p != 0 && !last)
              && stack.Contents() == (if p != 0 && last then old(stack.Contents())[..pos] else old(stack.Contents()))
      ensures on ==> stack.chain == old(stack.chain) && next == NodeAt(stack.chain, pos + 1)
    {
      next, on := null, p != 0;
      if on {
        assert LinkedAt(stack.chain, pos);
        if sentry.next == null && sentry.prev != null && sentry.inv {
          stack.DropTail(sentry, pos);
          on := false;
        } else {
          next := sentry.next;
        }
      }
    }

    /** The walk of a probe is at `sentry`, the entry at `pos`, with this much work ahead, or it is through. */
    ghost predicate Probing(sentry: StackEntry?, pos: nat, a: nat, s: nat, core: int, pending: nat, on: bool,
                            goal: seq<Entry>, work: nat)
      reads stack, stack.chain
    {
      var holds :=
        && stack.Valid()
        && (if on then
              && pos <= |stack.chain| && sentry == NodeAt(stack.chain, pos)
              && ProbeLeft(stack.Contents(), pos, a, s, core, pending, goal)
              && work == Weight(stack.Contents()[pos..], a, s)
            else stack.Contents() == goal);
      holds
    }

    /** The body of the loop of a probe. Returns the next entry, null if the probe is through. */
    method ProbeEntry(sentry: StackEntry, ghost pos: nat, a: nat, s: nat, core: int, pending: nat, on0: bool,
                      ghost goal: seq<Entry>, ghost work0: nat)
      returns (next: StackEntry?, p: nat, on: bool, ghost work: nat)
      requires on0 && s > 0 && Probing(sentry, pos, a, s, core, pending, on0, goal, work0)
      modifies stack, stack.repr
      ensures fresh(stack.repr - old(stack.repr)) && Probing(next, pos + 1, a, s, core, p, on, goal, work)
      ensures on ==> work < work0
    {
      ProbeOnce(stack.Contents(), pos, a, s, core, pending, goal);
      p := ProbeHere(sentry, pos, a, s, core, pending);
      next, on := ProbeOn(sentry, pos, p);
      work := if on then Weight(stack.Contents()[pos + 1..], a, s) else 0;
    }

    lemma ProbeBegins(a: nat, s: nat, core: int, on: bool, goal: seq<Entry>) returns (pos: nat, work: nat)
      requires on && stack.Valid() && ProbeLeft(stack.Contents(), 0, a, s, core, s, goal)
      ensures Probing(stack.head, pos, a, s, core, s, on, goal, work)
    {
      pos := 0;
      work := Weight(stack.Contents()[0..], a, s);
    }

    /** Go down the stack until all bytes are found, the end is reached or the tail has been cut off. */
    method ProbeDown(a: nat, s: nat, core: int, ghost goal: seq<Entry>)
      requires stack.Valid() && s > 0 && ProbeLeft(stack.Contents(), 0, a, s, core, s, goal)
      modifies stack, stack.repr
      ensures stack.Valid() && fresh(stack.repr - old(stack.repr)) && stack.Contents() == goal
    {
      var sentry, pending: nat, on := stack.head, s, true;
      ghost var pos, work := ProbeBegins(a, s, core, on, goal);
      while on && sentry != null
        invariant fresh(stack.repr - old(stack.repr))
        invariant Probing(sentry, pos, a, s, core, pending, on, goal, work)
        decreases on, work
      {
        sentry, pending, on, work := ProbeEntry(sentry, pos, a, s, core, pending, on, goal, work);
        pos := pos + 1;
      }
      if on {
        ProbeEnds(stack.Contents(), a, s, core, pending, goal);
      }
    }

    /** An invalidation probe of `s` bytes at `a`. */
    method Probe(a: nat, s: nat, core: int)
      requires stack.Valid() && Valid(stack.Contents()) && 0 < s < WORD32
      modifies stack, stack.repr
      ensures stack.Valid() && fresh(stack.repr - old(stack.repr))
      ensures stack.Contents() == AfterProbe(true, old(stack.Contents()), a, s, core, s)
    {
      ProbeStarts(stack.Contents(), a, s, core);
      ProbeDown(a, s, core, AfterProbe(true, stack.Contents(), a, s, core, s));
    }

    /** The loop over a whole trace. */
    method Process(trace: seq<Event>)
      requires stack.Valid() && Sizes(trace) && State(stack.Contents(), hist) == Init()
      modifies this, stack, stack.repr
      ensures stack.Valid() && State(stack.Contents(), hist) == RunTrace(trace)
    {
      for i := 0 to |trace|
        invariant stack.Valid() && fresh(stack.repr - old(stack.repr))
        invariant State(stack.Contents(), hist) == RunTrace(trace[..i])
      {
        assert trace[..i + 1][..i] == trace[..i];
        RunValid(trace[..i]);
        match trace[i] {
          case Access(a, s, core) => Access(a, s, core);
          case Probe(a, s, core) => Probe(a, s, core);
        }
      }
      assert trace[..|trace|] == trace;
    }
  }

  /** Probing the entries from `pos` on completes the probe. */
  ghost predicate ProbeLeft(stack: seq<Entry>, pos: nat, a: nat, s: nat, core: int, pending: nat, goal: seq<Entry>)
    requires pos <= |stack|
  {
    var holds :=
      && Positive(stack[pos..])
      && stack[..pos] + AfterProbe(pos == 0, stack[pos..], a, s, core, pending) == goal;
    holds
  }

  lemma ProbeStarts(st: seq<Entry>, a: nat, s: nat, core: int)
    requires Valid(st)
    ensures ProbeLeft(st, 0, a, s, core, s, AfterProbe(true, st, a, s, core, s))
  {
    assert st[0..] == st;
  }

  lemma ProbeEnds(st: seq<Entry>, a: nat, s: nat, core: int, pending: nat, goal: seq<Entry>)
    requires ProbeLeft(st, |st|, a, s, core, pending, goal)
    ensures st == goal
  {
  }

  lemma Unchanged(stack: seq<Entry>, pos: nat, a: nat, s: nat, core: int)
    requires pos < |stack| && !Overlaps(stack[pos], a, s)
    ensures stack[..pos] + [Probed(stack[pos], a, s, core)] + Inserted(stack[pos], a, s, core) + stack[pos + 1..]
            == stack
  {
  }

  lemma ProbeShape<T>(st: seq<T>, pos: nat, cur: T, ins: seq<T>)
    requires pos < |st|
    ensures st[pos..] == [st[pos]] + st[pos + 1..]
    ensures var st' := st[..pos] + [cur] + ins + st[pos + 1..];
            && st'[pos] == cur && st'[..pos] == st[..pos] && st'[..pos + 1] == st[..pos] + [cur]
            && st'[pos + 1..] == ins + st[pos + 1..] && st' == st[..pos] + ([cur] + (ins + st[pos + 1..]))
  {
  }

  lemma NextPositive(e: Entry, tail: seq<Entry>, a: nat, s: nat, core: int)
    requires Positive([e] + tail) && s > 0
    ensures Positive(Inserted(e, a, s, core) + tail)
  {
    var ins := Inserted(e, a, s, core);
    var next := ins + tail;
    assert ([e] + tail)[0] == e;
    forall i | 0 <= i < |next|
      ensures next[i].size > 0
    {
      if i >= |ins| {
        assert next[i] == ([e] + tail)[i - |ins| + 1];
      }
    }
  }

  /** The recursion of `AfterProbe`, on a first entry and a tail. */
  lemma ProbeUnfolds(first: bool, e: Entry, tail: seq<Entry>, a: nat, s: nat, core: int, pending: nat)
    ensures var cur, next, left := Probed(e, a, s, core), Inserted(e, a, s, core) + tail,
            StillPending(e, a, s, pending);
            && Weight(next, a, s) < Weight([e] + tail, a, s)
            && AfterProbe(first, [e] + tail, a, s, core, pending) ==
               if left == 0 then [cur] + next
               else if next == [] && !first && cur.inv then []
               else [cur] + AfterProbe(false, next, a, s, core, left)
  {
    assert ([e] + tail)[1..] == tail;
    ProbeShrinks([e] + tail, a, s, core);
  }

  /** The list once the probe has looked at the entry at `pos`. */
  ghost function AfterEntry(st: seq<Entry>, pos: nat, a: nat, s: nat, core: int): seq<Entry>
    requires pos < |st|
  {
    st[..pos] + [Probed(st[pos], a, s, core)] + Inserted(st[pos], a, s, core) + st[pos + 1..]
  }

  /** One round of a probe on the list `st`. */
  lemma ProbeOnce(st: seq<Entry>, pos: nat, a: nat, s: nat, core: int, pending: nat, goal: seq<Entry>)
    requires pos < |st| && s > 0 && ProbeLeft(st, pos, a, s, core, pending, goal)
    ensures st[pos].size > 0
    ensures var st', left := AfterEntry(st, pos, a, s, core), StillPending(st[pos], a, s, pending);
            var last := |st'| == pos + 1 && pos > 0 && st'[pos].inv;
            && (left == 0 ==> st' == goal)
            && (left != 0 && last ==> st'[..pos] == goal)
            && (left != 0 && !last ==> ProbeLeft(st', pos + 1, a, s, core, left, goal))
            && Weight(st'[pos + 1..], a, s) < Weight(st[pos..], a, s)
  {
    var e, tail := st[pos], st[pos + 1..];
    var cur, ins := Probed(e, a, s, core), Inserted(e, a, s, core);
    FirstPositive(st, pos);
    ProbeShape(st, pos, cur, ins);
    NextPositive(e, tail, a, s, core);
    ProbeUnfolds(pos == 0, e, tail, a, s, core, pending);
    Regrouped(st[..pos], [cur], AfterProbe(false, ins + tail, a, s, core, StillPending(e, a, s, pending)));
  }
}
