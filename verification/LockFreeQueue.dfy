/** The linked FIFO behind the assembly queues: one consumer, producers serialised by a lock.

    Every method below is one atomic step. A push is two steps, publish and update of `last`. The consumer
    either tests, reads the front, unlinks, clears and deletes, as the worker does with `front` and `pop`, or calls
    `pop_front`, which tests, unlinks, takes the item, clears and deletes. `freed` holds the deleted nodes. */
module LockFreeQueue {

  import opened Collections

  class Node<T> {
    var value: Option<T>
    var next: Node?<T>

    constructor (v: Option<T>)
      ensures value == v && next == null
    {
      value := v;
      next := null;
    }
  }

  /** Progress of the consumer through one pop. */
  datatype Stage<T> = Rest | Tested | Held(item: T) | Unlinked(item: T) | Cleared(item: T)

  class LFQueue<T(==)> {
    var first: Node<T>
    var last: Node<T>
    ghost var chain: seq<Node<T>>     // the live nodes, from `first` on
    ghost var inFlight: bool          // a producer has published but not yet updated `last`
    ghost var stage: Stage<T>
    ghost var retired: Node?<T>       // unlinked but not yet deleted
    ghost var freed: set<Node<T>>

    ghost predicate Valid()
      reads this, chain
    {
      && |chain| >= 1 && chain[0] == first
      && (forall i, j :: 0 <= i < j < |chain| ==> chain[i] != chain[j])
      && (forall i :: 0 <= i < |chain| - 1 ==> chain[i].next == chain[i + 1])
      && chain[|chain| - 1].next == null
      && (forall i :: 1 <= i < |chain| ==> chain[i].value.Some?)
      && (forall n :: n in chain ==> n !in freed && n != retired)
      && (if inFlight then |chain| >= 2 ==> last == chain[|chain| - 2] else last == chain[|chain| - 1])
      && (retired != null <==> stage.Unlinked? || stage.Cleared?)
      && (stage.Tested? ==> |chain| >= 2)
      && (stage.Held? ==> |chain| >= 2 && chain[1].value == Some(stage.item))
      && (stage.Unlinked? ==> first.value == Some(stage.item))
    }

    /** The items in the queue, oldest first. */
    ghost function Contents(): (s: seq<T>)
      requires Valid()
      reads this, chain
      ensures |s| == |chain| - 1
    {
      seq(|chain| - 1, i requires 0 <= i < |chain| - 1 && Valid() reads this, chain => chain[i + 1].value.value)
    }

    constructor ()
      ensures Valid() && Contents() == [] && stage == Rest && !inFlight && freed == {}
      ensures fresh(chain)
    {
      var dummy := new Node<T>(None);
      first := dummy;
      last := dummy;
      chain := [dummy];
      inFlight := false;
      stage := Rest;
      retired := null;
      freed := {};
    }

    /** Step A of `push`: the producer dereferences `last`, which has not been deleted. */
    method Publish(t: T) returns (tmp: Node<T>)
      requires Valid() && !inFlight
      modifies this`chain, this`inFlight, last
      ensures Valid() && inFlight && tmp == chain[|chain| - 1] && fresh(tmp)
      ensures chain == old(chain) + [tmp]
      ensures old(last) !in freed && old(last) != retired
      ensures Contents() == old(Contents()) + [t]
      ensures stage == old(stage)
    {
      tmp := new Node<T>(Some(t));
      assert last in chain;
      last.next := tmp;
      chain := chain + [tmp];
      inFlight := true;
    }

    /** Step B of `push`. */
    method FinishPush(tmp: Node<T>)
      requires Valid() && inFlight && tmp == chain[|chain| - 1]
      modifies this`last, this`inFlight
      ensures Valid() && !inFlight && Contents() == old(Contents()) && last == tmp
    {
      last := tmp;
      inFlight := false;
    }

    /** `empty()`, read by the consumer before a pop. */
    method Test() returns (empty: bool)
      requires Valid() && stage.Rest?
      modifies this`stage
      ensures Valid() && empty == (Contents() == []) && Contents() == old(Contents())
      ensures stage == if empty then Rest else Tested
    {
      assert |chain| >= 2 ==> chain[0].next == chain[1];
      assert |Contents()| == |chain| - 1;
      empty := first.next == null;
      if !empty {
        stage := Tested;
      }
    }

    /** `front()`: the oldest item, still the same when producers have published since the test. */
    method Front() returns (item: Option<T>)
      requires Valid() && (stage.Rest? || stage.Tested?)
      modifies this`stage
      ensures Valid() && Contents() == old(Contents())
      ensures item == if Contents() != [] then Some(Contents()[0]) else first.value
      ensures old(stage).Tested? ==> Contents() != [] && stage == Held(Contents()[0])
      ensures old(stage).Rest? ==> stage.Rest?
    {
      assert |chain| >= 2 ==> chain[0].next == chain[1];
      assert |Contents()| == |chain| - 1;
      var nxt := first.next;
      if nxt != null {
        item := nxt.value;
      } else {
        item := first.value;
      }
      if stage.Tested? {
        stage := Held(Contents()[0]);
      }
    }

    /** `pop()` and `pop_front()`, first half: `first` moves on. */
    method Unlink() returns (oldFirst: Node<T>)
      requires Valid() && (stage.Tested? || stage.Held?)
      modifies this`first, this`stage, this`chain, this`retired
      ensures Valid() && stage.Unlinked? && old(Contents()) == [stage.item] + Contents()
      ensures old(stage).Held? ==> stage.item == old(stage).item
      ensures oldFirst == retired && chain == old(chain)[1..]
    {
      assert chain[0].next == chain[1];
      oldFirst := first;
      first := first.next;
      retired := oldFirst;
      stage := Unlinked(first.value.value);
      chain := chain[1..];
    }

    /** `pop_front()` takes the item out of the new dummy node. */
    method Take() returns (item: Option<T>)
      requires Valid() && stage.Unlinked?
      ensures item == Some(stage.item)
    {
      item := first.value;
    }

    /** The new dummy node forgets its item. */
    method Clear()
      requires Valid() && stage.Unlinked?
      modifies this`stage, first`value
      ensures Valid() && Contents() == old(Contents()) && stage == Cleared(old(stage).item)
    {
      first.value := None;
      stage := Cleared(stage.item);
    }

    /** `delete oldFirst`: a node that no producer will dereference any more. */
    method Delete(oldFirst: Node<T>)
      requires Valid() && stage.Cleared? && oldFirst == retired
      modifies this`stage, this`retired, this`freed
      ensures Valid() && Contents() == old(Contents()) && stage == Rest
      ensures freed == old(freed) + {oldFirst} && (!inFlight ==> last !in freed)
    {
      freed := freed + {oldFirst};
      retired := null;
      stage := Rest;
      assert last in chain || inFlight;
    }
  }

  /** A step that some thread tries to take next; the producers' lock and the consumer's position decide
      whether it is possible. The consumer may go on to `front` and `pop` or to `pop_front`. */
  datatype Move<T> = ProducerA(item: T) | ProducerB | Consumer(popFront: bool)

  /** The items of the publish steps that the producers' lock lets happen. */
  ghost function Items<T>(schedule: seq<Move<T>>, inFlight: bool): seq<T> {
    if schedule == [] then []
    else match schedule[0]
      case ProducerA(t) => (if inFlight then [] else [t]) + Items(schedule[1..], true)
      case ProducerB => Items(schedule[1..], false)
      case Consumer(_) => Items(schedule[1..], inFlight)
  }

  /** The consumer's position; at 3 it has unlinked a node, at 4 it has the item too. */
  ghost predicate Follows<T>(stage: Stage<T>, at: nat) {
    match stage
    case Rest => at == 0
    case Tested => at == 1
    case Held(_) => at == 2
    case Unlinked(_) => at == 3 || at == 4
    case Cleared(_) => at == 5
  }

  /** What the consumer has in its hands: the retired node, and the item once it has been read. */
  ghost predicate Holds<T>(q: LFQueue<T>, at: nat, item: Option<T>, oldFirst: Node<T>)
    reads q
  {
    && Follows(q.stage, at)
    && (at >= 3 ==> oldFirst == q.retired)
    && (at == 2 || at == 4 ==> item == Some(q.stage.item))
  }

  /** The item that has left the queue but has not been handed out. */
  ghost function Leaving<T>(stage: Stage<T>): seq<T> {
    if stage.Unlinked? then [stage.item] else []
  }

  /** Everything published has been handed out, is on its way or is still in the queue, in this order. */
  ghost predicate Accounted<T>(q: LFQueue<T>, taken: seq<T>, published: seq<T>)
    requires q.Valid()
    reads q, q.chain
  {
    taken + Leaving(q.stage) + q.Contents() == published
  }

  /** The consumer takes its next step; the item is handed out when the node is cleared. */
  method Consume<T(==)>(q: LFQueue<T>, popFront: bool, at: nat, item: Option<T>, oldFirst: Node<T>, taken: seq<T>,
                            ghost published: seq<T>)
    returns (at': nat, item': Option<T>, oldFirst': Node<T>, taken': seq<T>)
    requires q.Valid() && Holds(q, at, item, oldFirst) && Accounted(q, taken, published)
    modifies q`stage, q`first, q`chain, q`retired, q`freed, q.first`value
    ensures q.Valid() && Holds(q, at', item', oldFirst') && Accounted(q, taken', published)
    ensures forall n :: n in q.chain ==> n in old(q.chain)
    ensures q.chain[|q.chain| - 1] == old(q.chain[|q.chain| - 1])
  {
    at', item', oldFirst', taken' := at, item, oldFirst, taken;
    if at == 0 {
      var empty := q.Test();
      at' := if empty then 0 else 1;
    } else if at == 1 && !popFront {
      item' := q.Front();
      at' := 2;
    } else if at == 1 || at == 2 {
      oldFirst' := q.Unlink();
      at' := if at == 1 then 3 else 4;
    } else if at == 3 {
      item' := q.Take();
      at' := 4;
    } else if at == 4 {
      q.Clear();
      taken' := taken + [item.value];
      at' := 5;
    } else {
      q.Delete(oldFirst);
      at' := 0;
    }
  }

  /** A producer takes its next step, if the lock lets it. */
  method Produce<T(==)>(q: LFQueue<T>, move: Move<T>, producing: bool, tmp: Node<T>, published: seq<T>,
                            ghost taken: seq<T>)
    returns (producing': bool, tmp': Node<T>, published': seq<T>)
    requires q.Valid() && !move.Consumer? && Produces(q, producing, tmp) && Accounted(q, taken, published)
    requires !q.inFlight ==> q.last in q.chain
    modifies q`chain, q`inFlight, q`last, if q.inFlight then {} else {q.last}
    ensures q.Valid() && Produces(q, producing', tmp') && Accounted(q, taken, published')
    ensures published' == published + Items([move], producing) && q.stage == old(q.stage)
    ensures forall n :: n in q.chain ==> n in old(q.chain) || fresh(n)
    ensures producing' == move.ProducerA?
  {
    producing', tmp', published' := producing, tmp, published;
    if move.ProducerA? && !producing {
      tmp' := q.Publish(move.item);
      producing', published' := true, published + [move.item];
    } else if move.ProducerB? && producing {
      q.FinishPush(tmp);
      producing' := false;
    }
  }

  /** The producer that holds the lock knows the node it has published. */
  ghost predicate Produces<T>(q: LFQueue<T>, producing: bool, tmp: Node<T>)
    reads q
  {
    q.inFlight == producing && (producing ==> |q.chain| > 0 && tmp == q.chain[|q.chain| - 1])
  }

  lemma EndsInChain<T>(q: LFQueue<T>)
    requires q.Valid()
    ensures q.first in q.chain && (!q.inFlight ==> q.last in q.chain)
  {
    assert q.first == q.chain[0] && (!q.inFlight ==> q.last == q.chain[|q.chain| - 1]);
  }

  /** The items published so far and those of the rest of the schedule are all there are. */
  ghost predicate Due<T>(schedule: seq<Move<T>>, k: nat, producing: bool, published: seq<T>) {
    k <= |schedule| && Items(schedule, false) == published + Items(schedule[k..], producing)
  }

  lemma DueNext<T>(schedule: seq<Move<T>>, k: nat, producing: bool, published: seq<T>)
    requires k < |schedule| && Due(schedule, k, producing, published)
    ensures if schedule[k].Consumer? then Due(schedule, k + 1, producing, published)
            else Due(schedule, k + 1, schedule[k].ProducerA?, published + Items([schedule[k]], producing))
  {
    assert schedule[k..][1..] == schedule[k + 1..];
    assert [schedule[k]][1..] == [];
  }

  /** Any interleaving of the producers' steps with the consumer's, by either way of popping: the items handed out,
      then the one on its way, then those still in the queue are exactly the items published, in order. */
  method Interleave<T(==)>(schedule: seq<Move<T>>) returns (published: seq<T>, taken: seq<T>, q: LFQueue<T>)
    ensures q.Valid() && Accounted(q, taken, published) && published == Items(schedule, false)
  {
    q := new LFQueue<T>();
    published, taken := [], [];
    var producing := false;
    var at: nat := 0;
    var tmp, oldFirst: Node<T> := q.first, q.first;
    var item: Option<T> := None;
    var k := 0;
    while k < |schedule|
      invariant 0 <= k <= |schedule|
      invariant q.Valid() && fresh(q) && (forall n :: n in q.chain ==> fresh(n))
      invariant Produces(q, producing, tmp) && Holds(q, at, item, oldFirst)
      invariant Accounted(q, taken, published)
      invariant Due(schedule, k, producing, published)
    {
      EndsInChain(q);
      DueNext(schedule, k, producing, published);
      if schedule[k].Consumer? {
        at, item, oldFirst, taken := Consume(q, schedule[k].popFront, at, item, oldFirst, taken, published);
      } else {
        producing, tmp, published := Produce(q, schedule[k], producing, tmp, published, taken);
      }
      k := k + 1;
    }
  }
}
