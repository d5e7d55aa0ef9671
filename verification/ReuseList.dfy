/** The stack itself: a doubly linked list of entries, spliced in place.

    A ghost sequence lists the entries from the head on; `Valid` says that `next` and `prev` agree with it everywhere,
    that no entry occurs twice and that no entry of the list has been freed. Every splice of the profiler is a method:
    a new head, a new entry behind another one, unlinking an entry anywhere in the list, cutting off the tail, and the
    replacement of one entry by two or three. Each says what becomes of the sequence of values, which is all the loops
    of the profiler need to know, and where the cursor stands afterwards, which may be nowhere. */
module ReuseList {
  import opened ReuseStack

  class StackEntry {
    var elem: nat
    var size: nat
    var inv: bool
    var core: int
    var next: StackEntry?
    var prev: StackEntry?

    constructor (e: Entry)
      ensures Val() == e && next == null && prev == null
    {
      elem, size, inv, core, next, prev := e.elem, e.size, e.inv, e.core, null, null;
    }

    ghost function Val(): Entry
      reads this
    {
      Entry(elem, size, inv, core)
    }

    method Read() returns (e: Entry)
      ensures e == Val()
    {
      e := Entry(elem, size, inv, core);
    }

    method Write(e: Entry)
      modifies this
      ensures Val() == e && next == old(next) && prev == old(prev)
    {
      elem, size, inv, core := e.elem, e.size, e.inv, e.core;
    }
  }

  /** The entry at position `i`, null behind the end. */
  ghost function NodeAt(chain: seq<StackEntry>, i: nat): StackEntry? {
    if i < |chain| then chain[i] else null
  }

  /** The entry before position `i`, null at the head. */
  ghost function NodeBefore(chain: seq<StackEntry>, i: nat): StackEntry?
    requires i <= |chain|
  {
    if i > 0 then chain[i - 1] else null
  }

  ghost predicate Different(chain: seq<StackEntry>) {
    forall i, j :: 0 <= i < j < |chain| ==> chain[i] != chain[j]
  }

  /** The links of position `i` agree with the chain, in both directions. */
  ghost predicate LinkedAt(chain: seq<StackEntry>, i: nat)
    requires i < |chain|
    reads chain
  {
    chain[i].next == NodeAt(chain, i + 1) && chain[i].prev == NodeBefore(chain, i)
  }

  ghost predicate Linked(chain: seq<StackEntry>)
    reads chain
  {
    forall i: nat :: i < |chain| ==> LinkedAt(chain, i)
  }

  ghost function Values(chain: seq<StackEntry>): (s: seq<Entry>)
    reads chain
    ensures |s| == |chain| && forall i :: 0 <= i < |chain| ==> s[i] == chain[i].Val()
  {
    seq(|chain|, i requires 0 <= i < |chain| reads chain => chain[i].Val())
  }

  ghost function Spliced(chain: seq<StackEntry>, pos: nat, post: StackEntry): seq<StackEntry>
    requires pos < |chain|
  {
    chain[..pos + 1] + [post] + chain[pos + 1..]
  }

  lemma SplicedAt(chain: seq<StackEntry>, pos: nat, post: StackEntry)
    requires pos < |chain| && Different(chain) && post !in chain
    ensures var c := Spliced(chain, pos, post);
            && |c| == |chain| + 1 && Different(c)
            && forall i: nat :: i < |c| ==>
                c[i] == if i <= pos then chain[i] else if i == pos + 1 then post else chain[i - 1]
  {
  }

  lemma ValuesSpliced(chain: seq<StackEntry>, pos: nat, post: StackEntry, was: seq<Entry>)
    requires pos < |chain| == |was|
    requires forall i :: 0 <= i < |chain| ==> chain[i].Val() == was[i]
    ensures Values(Spliced(chain, pos, post)) == was[..pos + 1] + [post.Val()] + was[pos + 1..]
  {
  }

  /** The links of the chain, but for those that lead to the new entry behind position `pos`. */
  ghost predicate RelinkedAt(chain: seq<StackEntry>, pos: nat, post: StackEntry, i: nat)
    requires i < |chain|
    reads chain
  {
    && chain[i].next == (if i == pos then post else NodeAt(chain, i + 1))
    && chain[i].prev == (if i == pos + 1 then post else NodeBefore(chain, i))
  }

  ghost predicate Relinked(chain: seq<StackEntry>, pos: nat, post: StackEntry)
    requires pos < |chain|
    reads chain, post
  {
    && (forall i: nat :: i < |chain| ==> RelinkedAt(chain, pos, post, i))
    && post.next == NodeAt(chain, pos + 1) && post.prev == chain[pos]
  }

  lemma SplicedLinked(chain: seq<StackEntry>, pos: nat, post: StackEntry)
    requires pos < |chain| && Relinked(chain, pos, post)
    ensures Linked(Spliced(chain, pos, post))
  {
    var c := Spliced(chain, pos, post);
    forall i: nat | i < |c|
      ensures LinkedAt(c, i)
    {
      if i <= pos {
        assert RelinkedAt(chain, pos, post, i);
      } else if i > pos + 1 {
        assert RelinkedAt(chain, pos, post, i - 1);
      }
    }
  }

  /** The chain after a splice, with everything the stack has to know about it. */
  lemma Splice(chain: seq<StackEntry>, pos: nat, post: StackEntry) returns (c: seq<StackEntry>, values: seq<Entry>)
    requires pos < |chain| && Different(chain) && post !in chain && Relinked(chain, pos, post)
    ensures c == Spliced(chain, pos, post)
    ensures values == Values(chain)[..pos + 1] + [post.Val()] + Values(chain)[pos + 1..]
    ensures Different(c) && Linked(c) && Values(c) == values && |c| > 0 && c[0] == chain[0]
    ensures forall n :: n in c ==> n in chain || n == post
    ensures c[pos] == chain[pos] && c[pos + 1] == post
  {
    c, values := Spliced(chain, pos, post), Values(Spliced(chain, pos, post));
    SplicedAt(chain, pos, post);
    ValuesSpliced(chain, pos, post, Values(chain));
    SplicedLinked(chain, pos, post);
  }

  /** The links of the chain, but for those to and from a new head. */
  ghost predicate HeadLinkedAt(chain: seq<StackEntry>, entry: StackEntry, i: nat)
    requires i < |chain|
    reads chain
  {
    chain[i].next == NodeAt(chain, i + 1) && chain[i].prev == (if i == 0 then entry else NodeBefore(chain, i))
  }

  ghost predicate HeadLinked(chain: seq<StackEntry>, entry: StackEntry)
    reads chain, entry
  {
    && (forall i: nat :: i < |chain| ==> HeadLinkedAt(chain, entry, i))
    && entry.next == NodeAt(chain, 0) && entry.prev == null
  }

  lemma PrependedLinked(chain: seq<StackEntry>, entry: StackEntry)
    requires HeadLinked(chain, entry)
    ensures Linked([entry] + chain)
  {
    var c := [entry] + chain;
    forall i: nat | i < |c|
      ensures LinkedAt(c, i)
    {
      if i > 0 {
        assert HeadLinkedAt(chain, entry, i - 1);
      }
    }
  }

  lemma Prepend(chain: seq<StackEntry>, entry: StackEntry) returns (c: seq<StackEntry>, values: seq<Entry>)
    requires Different(chain) && entry !in chain && HeadLinked(chain, entry)
    ensures c == [entry] + chain && values == [entry.Val()] + Values(chain)
    ensures Different(c) && Linked(c) && Values(c) == values && forall n :: n in c ==> n in chain || n == entry
  {
    c, values := [entry] + chain, Values([entry] + chain);
    PrependedLinked(chain, entry);
  }

  /** The links of the chain, leading past position `pos`. */
  ghost predicate BypassedAt(chain: seq<StackEntry>, pos: nat, i: nat)
    requires i < |chain| && pos < |chain|
    reads chain
  {
    && chain[i].next == (if i + 1 == pos then NodeAt(chain, pos + 1) else NodeAt(chain, i + 1))
    && chain[i].prev == (if i == pos + 1 then NodeBefore(chain, pos) else NodeBefore(chain, i))
  }

  ghost predicate Bypassed(chain: seq<StackEntry>, pos: nat)
    requires pos < |chain|
    reads chain
  {
    forall i: nat :: i < |chain| && i != pos ==> BypassedAt(chain, pos, i)
  }

  ghost function Cut(chain: seq<StackEntry>, pos: nat): (c: seq<StackEntry>)
    requires pos < |chain|
  {
    chain[..pos] + chain[pos + 1..]
  }

  lemma CutAt(chain: seq<StackEntry>, pos: nat)
    requires pos < |chain| && Different(chain)
    ensures var c := Cut(chain, pos);
            && |c| == |chain| - 1 && Different(c) && chain[pos] !in c
            && forall i: nat :: i < |c| ==> c[i] == if i < pos then chain[i] else chain[i + 1]
  {
  }

  lemma CutLinked(chain: seq<StackEntry>, pos: nat)
    requires pos < |chain| && Bypassed(chain, pos)
    ensures Linked(Cut(chain, pos))
  {
    var c := Cut(chain, pos);
    forall i: nat | i < |c|
      ensures LinkedAt(c, i)
    {
      if i < pos {
        assert BypassedAt(chain, pos, i);
      } else {
        assert BypassedAt(chain, pos, i + 1);
      }
    }
  }

  lemma ValuesCut(chain: seq<StackEntry>, pos: nat)
    requires pos < |chain|
    ensures Values(Cut(chain, pos)) == Values(chain)[..pos] + Values(chain)[pos + 1..]
  {
  }

  lemma Without(chain: seq<StackEntry>, pos: nat) returns (c: seq<StackEntry>, values: seq<Entry>)
    requires pos < |chain| && Different(chain) && Bypassed(chain, pos)
    ensures c == Cut(chain, pos) && values == Values(chain)[..pos] + Values(chain)[pos + 1..]
    ensures Different(c) && Linked(c) && Values(c) == values && NodeBefore(c, pos) == NodeBefore(chain, pos)
    ensures forall n :: n in c ==> n in chain && n != chain[pos]
    ensures NodeAt(c, 0) == if pos == 0 then NodeAt(chain, 1) else NodeAt(chain, 0)
  {
    c, values := Cut(chain, pos), Values(Cut(chain, pos));
    CutAt(chain, pos);
    CutLinked(chain, pos);
    ValuesCut(chain, pos);
  }

  class EntryStack {
    var head: StackEntry?
    ghost var chain: seq<StackEntry>
    ghost var freed: set<StackEntry>
    ghost var repr: set<StackEntry>   // every entry the stack has ever had

    ghost predicate Valid()
      reads this, chain
    {
      var holds :=
        && Different(chain) && Linked(chain) && head == NodeAt(chain, 0)
        && forall n :: n in chain ==> n !in freed && n in repr;
      holds
    }

    ghost function Contents(): (s: seq<Entry>)
      reads this, chain
      ensures |s| == |chain|
    {
      Values(chain)
    }

    constructor ()
      ensures Valid() && chain == [] && freed == {} && repr == {} && Contents() == []
    {
      head, chain, freed, repr := null, [], {}, {};
    }

    /** The links to and from a new head. */
    method LinkFront(entry: StackEntry)
      requires Different(chain) && Linked(chain) && head == NodeAt(chain, 0) && entry !in chain && entry.prev == null
      modifies this`head, chain, entry
      ensures HeadLinked(chain, entry) && head == entry && entry.Val() == old(entry.Val())
      ensures Values(chain) == old(Values(chain))
    {
      entry.next := head;
      if head != null {
        head.prev := entry;
      }
      head := entry;
      forall i: nat | i < |chain|
        ensures HeadLinkedAt(chain, entry, i)
        ensures chain[i].Val() == old(chain[i].Val())
      {
        assert old(LinkedAt(chain, i));
      }
    }

    /** The new entry becomes the head. */
    method PushFront(e: Entry)
      requires Valid()
      modifies this, repr
      ensures Valid() && Contents() == [e] + old(Contents())
      ensures fresh(repr - old(repr))
    {
      var entry := new StackEntry(e);
      repr := repr + {entry};
      LinkFront(entry);
      ghost var c, values := Prepend(chain, entry);
      Adopt(c, values);
    }

    /** The links around a new entry right behind `sentry`. */
    method Link(sentry: StackEntry, ghost pos: nat, post: StackEntry)
      requires Different(chain) && Linked(chain) && pos < |chain| && sentry == chain[pos] && post !in chain
      modifies chain, post
      ensures Relinked(chain, pos, post) && post.Val() == old(post.Val()) && Values(chain) == old(Values(chain))
    {
      assert LinkedAt(chain, pos);
      assert pos + 1 < |chain| ==> LinkedAt(chain, pos + 1);
      post.next := sentry.next;
      post.prev := sentry;
      sentry.next := post;
      if post.next != null {
        post.next.prev := post;
      }
      forall i: nat | i < |chain|
        ensures RelinkedAt(chain, pos, post, i)
        ensures chain[i].Val() == old(chain[i].Val())
      {
        assert old(LinkedAt(chain, i));
      }
    }

    /** The chain that the links now describe. */
    ghost method Adopt(c: seq<StackEntry>, values: seq<Entry>)
      requires Different(c) && Linked(c) && head == NodeAt(c, 0) && Values(c) == values
      requires forall n :: n in c ==> n !in freed && n in repr
      modifies this`chain
      ensures Valid() && chain == c && Contents() == values
    {
      chain := c;
    }

    /** A new entry right behind `sentry`. */
    method InsertAfter(sentry: StackEntry, ghost pos: nat, e: Entry) returns (post: StackEntry)
      requires Valid() && pos < |chain| && sentry == chain[pos]
      modifies this, repr
      ensures Valid() && fresh(post) && chain == Spliced(old(chain), pos, post)
      ensures Contents() == old(Contents())[..pos + 1] + [e] + old(Contents())[pos + 1..]
      ensures sentry == chain[pos] && post == chain[pos + 1]
      ensures fresh(repr - old(repr))
    {
      post := new StackEntry(e);
      repr := repr + {post};
      Link(sentry, pos, post);
      ghost var c, values := Splice(chain, pos, post);
      Adopt(c, values);
    }

    /** The links lead past `sentry`. */
    method Unlink(sentry: StackEntry, ghost pos: nat)
      requires Different(chain) && Linked(chain) && head == NodeAt(chain, 0) && pos < |chain| && sentry == chain[pos]
      modifies this`head, chain
      ensures Bypassed(chain, pos) && Values(chain) == old(Values(chain)) && sentry.prev == NodeBefore(chain, pos)
      ensures head == if pos == 0 then NodeAt(chain, 1) else NodeAt(chain, 0)
    {
      assert LinkedAt(chain, pos);
      assert pos + 1 < |chain| ==> LinkedAt(chain, pos + 1);
      if sentry != head {
        sentry.prev.next := sentry.next;
        if sentry.next != null {
          sentry.next.prev := sentry.prev;
        }
      } else {
        head := sentry.next;
        if sentry.next != null {
          sentry.next.prev := null;
        }
      }
      forall i: nat | i < |chain|
        ensures chain[i].Val() == old(chain[i].Val())
        ensures i != pos ==> BypassedAt(chain, pos, i)
      {
        assert old(LinkedAt(chain, i));
      }
    }

    /** Unlink and free `sentry`; the entry before it, or null, is where the walk goes on from. */
    method Remove(sentry: StackEntry, ghost pos: nat) returns (before: StackEntry?)
      requires Valid() && pos < |chain| && sentry == chain[pos]
      modifies this, repr
      ensures Valid() && chain == Cut(old(chain), pos) && before == NodeBefore(chain, pos)
      ensures Contents() == old(Contents())[..pos] + old(Contents())[pos + 1..]
      ensures freed == old(freed) + {sentry} && repr == old(repr)
    {
      Unlink(sentry, pos);
      ghost var c, values := Without(chain, pos);
      before := sentry.prev;
      freed := freed + {sentry};
      Adopt(c, values);
    }

    /** Cut off and free the last entry, which is not the only one. */
    method DropTail(sentry: StackEntry, ghost pos: nat)
      requires Valid() && 0 < pos && pos + 1 == |chain| && sentry == chain[pos]
      modifies this, repr
      ensures Valid() && chain == old(chain)[..pos] && Contents() == old(Contents())[..pos]
      ensures freed == old(freed) + {sentry} && repr == old(repr)
    {
      assert LinkedAt(chain, pos);
      sentry.prev.next := null;
      freed := freed + {sentry};
      ghost var was := chain;
      chain := chain[..pos];
      forall i: nat | i < |chain|
        ensures LinkedAt(chain, i)
      {
        assert old(LinkedAt(was, i));
      }
    }

    /** New values for an entry; no link changes. */
    method Update(sentry: StackEntry, ghost pos: nat, e: Entry)
      requires Valid() && pos < |chain| && sentry == chain[pos]
      modifies repr
      ensures Valid() && Contents() == old(Contents())[pos := e]
    {
      sentry.Write(e);
      forall i: nat | i < |chain|
        ensures LinkedAt(chain, i)
      {
        assert old(LinkedAt(chain, i));
      }
    }

    /** Another entry in place of `sentry`. */
    method Replace(sentry: StackEntry, ghost pos: nat, e: Entry)
      requires Valid() && pos < |chain| && sentry == chain[pos]
      modifies repr
      ensures Valid() && Contents() == old(Contents())[..pos] + [e] + old(Contents())[pos + 1..]
    {
      Update(sentry, pos, e);
    }

    /** Two entries in place of `sentry`, which becomes the first of them. */
    method Split(sentry: StackEntry, ghost pos: nat, pre: Entry, post: Entry)
      requires Valid() && pos < |chain| && sentry == chain[pos]
      modifies this, repr
      ensures Valid() && Contents() == old(Contents())[..pos] + [pre, post] + old(Contents())[pos + 1..]
      ensures |chain| == |old(chain)| + 1 && sentry == chain[pos]
      ensures fresh(repr - old(repr))
    {
      var added := InsertAfter(sentry, pos, post);
      SplitShape(old(Contents()), pos, pre, post);
      Update(sentry, pos, pre);
    }

    /** Three entries in place of `sentry`, which becomes the first of them. */
    method SplitInThree(sentry: StackEntry, ghost pos: nat, pre: Entry, middle: Entry, post: Entry)
      requires Valid() && pos < |chain| && sentry == chain[pos]
      modifies this, repr
      ensures Valid() && Contents() == old(Contents())[..pos] + [pre, middle, post] + old(Contents())[pos + 1..]
      ensures pos < |chain| && sentry == chain[pos]
      ensures fresh(repr - old(repr))
    {
      Split(sentry, pos, middle, post);
      SplitAgainShape(old(Contents()), pos, pre, middle, post);
      Split(sentry, pos, pre, middle);
    }
  }

  lemma SplitAgainShape(st: seq<Entry>, pos: nat, pre: Entry, middle: Entry, post: Entry)
    requires pos < |st|
    ensures var t := st[..pos] + [middle, post] + st[pos + 1..];
            t[..pos] + [pre, middle] + t[pos + 1..] == st[..pos] + [pre, middle, post] + st[pos + 1..]
  {
  }

  lemma SplitShape(st: seq<Entry>, pos: nat, pre: Entry, post: Entry)
    requires pos < |st|
    ensures (st[..pos + 1] + [post] + st[pos + 1..])[pos := pre] == st[..pos] + [pre, post] + st[pos + 1..]
  {
  }
}
