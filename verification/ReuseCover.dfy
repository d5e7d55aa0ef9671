/** The bytes on the reuse stack: every byte is in at most one entry, and an access matches exactly the bytes of its
    range that are there. */
module ReuseCover {
  import opened Collections
  import opened ReuseStack

  predicate Has(e: Entry, b: nat) {
    e.elem <= b < End(e)
  }

  ghost predicate InStack(stack: seq<Entry>, b: nat) {
    exists i :: 0 <= i < |stack| && Has(stack[i], b)
  }

  ghost function Range(a: nat, s: nat): (r: set<nat>)
    ensures forall b: nat :: b in r <==> a <= b < a + s
  {
    if s == 0 then {} else Range(a, s - 1) + {a + s - 1}
  }

  lemma {:induction false} RangeSize(a: nat, s: nat)
    ensures |Range(a, s)| == s
  {
    if s > 0 {
      RangeSize(a, s - 1);
    }
  }

  /** All bytes on the stack. */
  ghost function Bytes(stack: seq<Entry>): set<nat> {
    if stack == [] then {} else Range(stack[0].elem, stack[0].size) + Bytes(stack[1..])
  }

  lemma InStackFirst(stack: seq<Entry>, b: nat)
    requires stack != []
    ensures InStack(stack, b) <==> Has(stack[0], b) || InStack(stack[1..], b)
  {
    var rest := stack[1..];
    if InStack(rest, b) {
      var i :| 0 <= i < |rest| && Has(rest[i], b);
      assert Has(stack[i + 1], b);
    }
    if i :| 0 <= i < |stack| && Has(stack[i], b) {
      assert i > 0 ==> Has(rest[i - 1], b);
    }
  }

  lemma {:induction false} BytesAre(stack: seq<Entry>, b: nat)
    ensures b in Bytes(stack) <==> InStack(stack, b)
  {
    if stack != [] {
      BytesAre(stack[1..], b);
      InStackFirst(stack, b);
    }
  }

  /** Total size of the entries. */
  function Total(stack: seq<Entry>): nat {
    if stack == [] then 0 else stack[0].size + Total(stack[1..])
  }

  lemma RestValid(stack: seq<Entry>)
    requires Valid(stack) && stack != []
    ensures stack[0].size > 0 && Valid(stack[1..])
    ensures forall b :: InStack(stack[1..], b) ==> !Has(stack[0], b)
  {
    var rest := stack[1..];
    forall i, j | 0 <= i < j < |rest|
      ensures Apart(rest[i], rest[j])
    {
      assert Apart(stack[i + 1], stack[j + 1]);
    }
    forall b | InStack(rest, b)
      ensures !Has(stack[0], b)
    {
      var i :| 0 <= i < |rest| && Has(rest[i], b);
      assert Apart(stack[0], stack[i + 1]);
    }
  }

  lemma FirstApart(stack: seq<Entry>)
    requires Valid(stack) && stack != []
    ensures Range(stack[0].elem, stack[0].size) !! Bytes(stack[1..])
  {
    RestValid(stack);
    forall b | b in Bytes(stack[1..])
      ensures b !in Range(stack[0].elem, stack[0].size)
    {
      BytesAre(stack[1..], b);
    }
  }

  /** Disjoint entries: as many bytes as the sizes say. */
  lemma {:induction false} TotalIsBytes(stack: seq<Entry>)
    requires Valid(stack)
    ensures |Bytes(stack)| == Total(stack)
  {
    if stack != [] {
      RestValid(stack);
      TotalIsBytes(stack[1..]);
      RangeSize(stack[0].elem, stack[0].size);
      FirstApart(stack);
    }
  }

  // ---------------------------------------------------------------- what an access matches

  /** The bytes of the accessed range that are on the stack. */
  ghost function Covered(stack: seq<Entry>, a: nat, s: nat): set<nat> {
    Bytes(stack) * Range(a, s)
  }

  lemma OverlapIs(e: Entry, a: nat, s: nat)
    ensures |Range(e.elem, e.size) * Range(a, s)| == Overlap(e, a, s)
  {
    var both := Range(e.elem, e.size) * Range(a, s);
    if Overlaps(e, a, s) {
      assert both == Range(From(e, a), Common(e, a, s));
      RangeSize(From(e, a), Common(e, a, s));
    } else {
      assert both == {};
    }
  }

  /** An access matches each of these bytes once. */
  lemma {:induction false} MatchedIsCovered(stack: seq<Entry>, a: nat, s: nat)
    requires Valid(stack)
    ensures |Covered(stack, a, s)| == Matched(stack, a, s)
  {
    if stack != [] {
      var e := stack[0];
      RestValid(stack);
      MatchedIsCovered(stack[1..], a, s);
      var c, d := Range(e.elem, e.size) * Range(a, s), Covered(stack[1..], a, s);
      FirstApart(stack);
      assert Covered(stack, a, s) == c + d && c !! d;
      OverlapIs(e, a, s);
    } else {
      assert Covered(stack, a, s) == {};
    }
  }

  lemma MatchedBounded(stack: seq<Entry>, a: nat, s: nat)
    requires Valid(stack)
    ensures Matched(stack, a, s) <= s
  {
    MatchedIsCovered(stack, a, s);
    RangeSize(a, s);
    SubsetSize(Covered(stack, a, s), Range(a, s));
  }

  // ---------------------------------------------------------------- once all bytes are matched the rest is not touched

  /** Entries outside the range add nothing and stay as they are. */
  lemma {:induction false} Untouched(stack: seq<Entry>, d: nat, a: nat, s: nat)
    requires Matched(stack, a, s) == 0 && s > 0
    requires forall i :: 0 <= i < |stack| ==> stack[i].size > 0
    ensures Strip(stack, a, s) == stack && Matches(stack, d, a, s) == []
  {
    if stack != [] {
      assert !Overlaps(stack[0], a, s);
      Untouched(stack[1..], Add32(d, stack[0].size), a, s);
    }
  }
}
