/** Execution of a task graph: what every topological order of a DAG has in common. */
module DagExecution {
  // A task is described by the locations it reads, the locations it writes and its effect. `Exec` lets the effect see
  // only the locations read and change only the locations written, so the frame of a task is part of its meaning.


  type Store<!L, V> = map<L, V>

  datatype Op<!L, !V> = Op(input: set<L>, output: set<L>, effect: map<L, V> -> map<L, V>)

  ghost function Restrict<L, V>(s: map<L, V>, ls: set<L>): map<L, V> {
    map l | l in s && l in ls :: s[l]
  }

  ghost function Exec<L, V>(op: Op<L, V>, s: map<L, V>): map<L, V> {
    s + Restrict(op.effect(Restrict(s, op.input)), op.output)
  }

  /** One of the two tasks writes a location that the other one touches. */
  ghost predicate Conflict<L, V>(a: Op<L, V>, b: Op<L, V>) {
    a.output * (b.input + b.output) != {} || a.input * b.output != {}
  }

  lemma NonConflictingCommute<L, V>(a: Op<L, V>, b: Op<L, V>, s: map<L, V>)
    requires !Conflict(a, b)
    ensures Exec(a, Exec(b, s)) == Exec(b, Exec(a, s))
  {
    var ea := a.effect(Restrict(s, a.input));
    var eb := b.effect(Restrict(s, b.input));
    assert a.input * b.output == {};
    assert b.input * a.output == {} by {
      assert b.input * a.output <= a.output * (b.input + b.output);
    }
    ReadsUnaffected(a, b, s);
    ReadsUnaffected(b, a, s);
    assert Exec(a, Exec(b, s)) == (s + Restrict(eb, b.output)) + Restrict(ea, a.output);
    assert Exec(b, Exec(a, s)) == (s + Restrict(ea, a.output)) + Restrict(eb, b.output);
    DisjointMembers(a.output, b.output, a.output * (b.input + b.output));
  }

  lemma DisjointMembers<L>(a: set<L>, b: set<L>, meet: set<L>)
    requires a * b <= meet && meet == {}
    ensures forall l :: l in a ==> l !in b
  {
    forall l | l in a
      ensures l !in b
    {
      assert l in b ==> l in a * b;
    }
  }

  lemma ReadsUnaffected<L, V>(a: Op<L, V>, b: Op<L, V>, s: map<L, V>)
    requires a.input * b.output == {}
    ensures Restrict(Exec(b, s), a.input) == Restrict(s, a.input)
  {
    DisjointMembers(a.input, b.output, {});
  }

  /** Run the tasks named by `order`, first to last. */
  ghost function Run<L, V>(ops: seq<Op<L, V>>, order: seq<nat>, s: map<L, V>): map<L, V>
    requires forall k :: 0 <= k < |order| ==> order[k] < |ops|
    decreases |order|
  {
    if order == [] then s else Run(ops, order[1..], Exec(ops[order[0]], s))
  }

  ghost predicate Distinct(order: seq<nat>) {
    forall i, j :: 0 <= i < j < |order| ==> order[i] != order[j]
  }

  /** `order` lists every task in [0, n) exactly once and no task before one of its predecessors. */
  ghost predicate Topological(order: seq<nat>, n: nat, edges: set<(nat, nat)>) {
    && Distinct(order)
    && (forall i :: 0 <= i < |order| ==> order[i] < n)
    && (forall t: nat :: t < n ==> t in order)
    && (forall i, j :: 0 <= i < j < |order| ==> (order[j], order[i]) !in edges)
  }

  ghost predicate IsPath(edges: set<(nat, nat)>, p: seq<nat>) {
    |p| >= 2 && forall k :: 0 <= k < |p| - 1 ==> (p[k], p[k + 1]) in edges
  }

  /** A chain of edges leads from `a` to `b`. */
  ghost predicate Reaches(edges: set<(nat, nat)>, a: nat, b: nat) {
    exists p :: IsPath(edges, p) && p[0] == a && p[|p| - 1] == b
  }

  lemma EdgeReaches(edges: set<(nat, nat)>, a: nat, b: nat)
    requires (a, b) in edges
    ensures Reaches(edges, a, b)
  {
    assert IsPath(edges, [a, b]);
  }

  lemma ReachesTransitive(edges: set<(nat, nat)>, a: nat, b: nat, c: nat)
    requires Reaches(edges, a, b) && Reaches(edges, b, c)
    ensures Reaches(edges, a, c)
  {
    var p :| IsPath(edges, p) && p[0] == a && p[|p| - 1] == b;
    var q :| IsPath(edges, q) && q[0] == b && q[|q| - 1] == c;
    var r := p + q[1..];
    forall k | 0 <= k < |r| - 1
      ensures (r[k], r[k + 1]) in edges
    {
      if k < |p| - 1 {
        assert (p[k], p[k + 1]) in edges;
      } else {
        var j := k - (|p| - 1);
        assert (q[j], q[j + 1]) in edges;
        assert r[k] == q[j] && r[k + 1] == q[j + 1];
      }
    }
    assert IsPath(edges, r);
  }

  /** In a topological order the end of a path never comes before its start. */
  lemma {:induction false} PathRespected(order: seq<nat>, n: nat, edges: set<(nat, nat)>, p: seq<nat>, i: nat, j: nat)
    requires Topological(order, n, edges)
    requires IsPath(edges, p) && forall k :: 0 <= k < |p| ==> p[k] < n
    requires i < |order| && j < |order| && order[i] == p[0] && order[j] == p[|p| - 1]
    ensures i <= j
    decreases |p|
  {
    assert (p[0], p[1]) in edges;
    assert p[1] in order;
    var m :| 0 <= m < |order| && order[m] == p[1];
    assert i <= m;
    if |p| > 2 {
      var q := p[1..];
      assert forall k :: 0 <= k < |q| - 1 ==> (q[k], q[k + 1]) == (p[k + 1], p[k + 2]);
      PathRespected(order, n, edges, q, m, j);
    } else {
      assert m == j;
    }
  }

  lemma PathInside(edges: set<(nat, nat)>, n: nat, p: seq<nat>)
    requires IsPath(edges, p)
    requires forall e :: e in edges ==> e.0 < n && e.1 < n
    ensures forall k :: 0 <= k < |p| ==> p[k] < n
  {
    forall k | 0 <= k < |p|
      ensures p[k] < n
    {
      if k < |p| - 1 {
        assert (p[k], p[k + 1]) in edges;
      } else {
        assert (p[k - 1], p[k]) in edges;
      }
    }
  }

  /** `order` never puts the second task of a pair in `before` ahead of the first one. */
  ghost predicate Respects(order: seq<nat>, before: set<(nat, nat)>) {
    forall i, j :: 0 <= i < j < |order| ==> (order[j], order[i]) !in before
  }

  ghost function Closure(n: nat, edges: set<(nat, nat)>): set<(nat, nat)> {
    set a: nat, b: nat | a < n && b < n && a != b && Reaches(edges, a, b) :: (a, b)
  }

  lemma TopologicalRespectsClosure(order: seq<nat>, n: nat, edges: set<(nat, nat)>)
    requires Topological(order, n, edges)
    requires forall e :: e in edges ==> e.0 < n && e.1 < n
    ensures Respects(order, Closure(n, edges))
  {
    forall i, j | 0 <= i < j < |order|
      ensures (order[j], order[i]) !in Closure(n, edges)
    {
      if Reaches(edges, order[j], order[i]) {
        var p :| IsPath(edges, p) && p[0] == order[j] && p[|p| - 1] == order[i];
        PathInside(edges, n, p);
        PathRespected(order, n, edges, p, j, i);
      }
    }
  }

  /** Every conflicting pair of listed tasks is ordered by `before`. */
  ghost predicate ConflictsOrdered<L, V>(ops: seq<Op<L, V>>, tasks: seq<nat>, before: set<(nat, nat)>)
    requires forall k :: 0 <= k < |tasks| ==> tasks[k] < |ops|
  {
    forall i, j :: 0 <= i < |tasks| && 0 <= j < |tasks| && tasks[i] != tasks[j]
        && Conflict(ops[tasks[i]], ops[tasks[j]])
      ==> (tasks[i], tasks[j]) in before || (tasks[j], tasks[i]) in before
  }

  /** A task that conflicts with nothing ahead of it can be moved to the front. */
  lemma {:induction false} MoveToFront<L, V>(ops: seq<Op<L, V>>, order: seq<nat>, k: nat, s: map<L, V>)
    requires forall i :: 0 <= i < |order| ==> order[i] < |ops|
    requires k < |order|
    requires forall i :: 0 <= i < k ==> !Conflict(ops[order[i]], ops[order[k]])
    ensures Run(ops, order, s) == Run(ops, [order[k]] + order[..k] + order[k + 1..], s)
    decreases k
  {
    if k == 0 {
      assert [order[0]] + order[..0] + order[1..] == order;
    } else {
      var x, y, rest := order[k], order[0], order[1..];
      var tail := FrontSplit(order, rest, k);
      MoveToFront(ops, rest, k - 1, Exec(ops[y], s));
      SwapFirst(ops, x, y, tail, s);
    }
  }

  lemma FrontSplit(order: seq<nat>, rest: seq<nat>, k: nat) returns (tail: seq<nat>)
    requires 0 < k < |order| && rest == order[1..]
    ensures rest[k - 1] == order[k] && [order[k]] + rest[..k - 1] + rest[k..] == [order[k]] + tail
    ensures [order[k]] + order[..k] + order[k + 1..] == [order[k]] + ([order[0]] + tail)
    ensures forall i :: 0 <= i < |tail| ==> tail[i] in order
  {
    tail := rest[..k - 1] + rest[k..];
    assert order[..k] == [order[0]] + rest[..k - 1] && order[k + 1..] == rest[k..];
  }

  /** Two tasks at the front that do not conflict can change places. */
  lemma SwapFirst<L, V>(ops: seq<Op<L, V>>, x: nat, y: nat, tail: seq<nat>, s: map<L, V>)
    requires x < |ops| && y < |ops| && !Conflict(ops[y], ops[x]) && forall i :: 0 <= i < |tail| ==> tail[i] < |ops|
    ensures Run(ops, [x] + tail, Exec(ops[y], s)) == Run(ops, [x] + ([y] + tail), s)
  {
    NonConflictingCommute(ops[x], ops[y], s);
    RunFirst(ops, x, tail, Exec(ops[y], s));
    RunFirst(ops, y, tail, Exec(ops[x], s));
    RunFirst(ops, x, [y] + tail, s);
  }

  lemma RunFirst<L, V>(ops: seq<Op<L, V>>, x: nat, tail: seq<nat>, s: map<L, V>)
    requires x < |ops| && forall i :: 0 <= i < |tail| ==> tail[i] < |ops|
    ensures forall i :: 0 <= i < |[x] + tail| ==> ([x] + tail)[i] < |ops|
    ensures Run(ops, [x] + tail, s) == Run(ops, tail, Exec(ops[x], s))
  {
    assert ([x] + tail)[1..] == tail;
  }

  lemma {:induction false} SameResult<L, V>(ops: seq<Op<L, V>>, o1: seq<nat>, o2: seq<nat>,
                                            before: set<(nat, nat)>, s: map<L, V>)
    requires forall i :: 0 <= i < |o1| ==> o1[i] < |ops|
    requires forall i :: 0 <= i < |o2| ==> o2[i] < |ops|
    requires Distinct(o1) && Distinct(o2) && SameTasks(o1, o2)
    requires Respects(o1, before) && Respects(o2, before)
    requires ConflictsOrdered(ops, o1, before)
    ensures Run(ops, o1, s) == Run(ops, o2, s)
    decreases |o1|
  {
    if o1 == [] {
      SameLength(o1, o2);
    } else {
      var k, rest := Advance(ops, o1, o2, before, s);
      SameResult(ops, o1[1..], rest, before, Exec(ops[o1[0]], s));
    }
  }

  /** The first task of `o1` can also run first in `o2`; what remains is again two orders of the same tasks. */
  lemma Advance<L, V>(ops: seq<Op<L, V>>, o1: seq<nat>, o2: seq<nat>, before: set<(nat, nat)>, s: map<L, V>)
    returns (k: nat, rest: seq<nat>)
    requires forall i :: 0 <= i < |o1| ==> o1[i] < |ops|
    requires forall i :: 0 <= i < |o2| ==> o2[i] < |ops|
    requires Distinct(o1) && Distinct(o2) && SameTasks(o1, o2)
    requires Respects(o1, before) && Respects(o2, before)
    requires ConflictsOrdered(ops, o1, before)
    requires o1 != []
    ensures forall i :: 0 <= i < |rest| ==> rest[i] < |ops|
    ensures forall i :: 0 <= i < |o1[1..]| ==> o1[1..][i] < |ops|
    ensures Distinct(o1[1..]) && Distinct(rest) && SameTasks(o1[1..], rest)
    ensures Respects(o1[1..], before) && Respects(rest, before)
    ensures ConflictsOrdered(ops, o1[1..], before)
    ensures Run(ops, o2, s) == Run(ops, rest, Exec(ops[o1[0]], s))
  {
    k := Position(o1, o2);
    FirstIsFree(ops, o1, o2, before, k);
    rest := o2[..k] + o2[k + 1..];
    FrontRun(ops, o2, k, s);
    TailsAgree(o1, o2, before, k);
    TailKeepsOrder(ops, o1, before);
  }

  lemma Position(o1: seq<nat>, o2: seq<nat>) returns (k: nat)
    requires SameTasks(o1, o2) && o1 != []
    ensures k < |o2| && o2[k] == o1[0]
  {
    assert o1[0] in o1;
    k :| 0 <= k < |o2| && o2[k] == o1[0];
  }

  lemma SameLength(o1: seq<nat>, o2: seq<nat>)
    requires SameTasks(o1, o2) && o1 == []
    ensures o2 == []
  {
    HeadIsMember(o2);
  }

  lemma HeadIsMember(order: seq<nat>)
    ensures order != [] ==> order[0] in order
  {
  }

  lemma FrontRun<L, V>(ops: seq<Op<L, V>>, order: seq<nat>, k: nat, s: map<L, V>)
    requires forall i :: 0 <= i < |order| ==> order[i] < |ops|
    requires k < |order|
    requires forall i :: 0 <= i < k ==> !Conflict(ops[order[i]], ops[order[k]])
    ensures Run(ops, order, s) == Run(ops, order[..k] + order[k + 1..], Exec(ops[order[k]], s))
  {
    MoveToFront(ops, order, k, s);
    var moved := [order[k]] + order[..k] + order[k + 1..];
    assert moved[1..] == order[..k] + order[k + 1..];
  }

  ghost predicate SameTasks(o1: seq<nat>, o2: seq<nat>) {
    (forall t: nat :: t in o1 ==> t in o2) && (forall t: nat :: t in o2 ==> t in o1)
  }

  lemma TailKeepsOrder<L, V>(ops: seq<Op<L, V>>, order: seq<nat>, before: set<(nat, nat)>)
    requires forall i :: 0 <= i < |order| ==> order[i] < |ops|
    requires order != [] && Respects(order, before) && ConflictsOrdered(ops, order, before)
    ensures forall i :: 0 <= i < |order[1..]| ==> order[1..][i] < |ops|
    ensures Respects(order[1..], before) && ConflictsOrdered(ops, order[1..], before)
  {
    assert forall i :: 0 <= i < |order[1..]| ==> order[1..][i] == order[i + 1];
  }

  lemma FirstIsFree<L, V>(ops: seq<Op<L, V>>, o1: seq<nat>, o2: seq<nat>, before: set<(nat, nat)>, k: nat)
    requires forall i :: 0 <= i < |o1| ==> o1[i] < |ops|
    requires forall i :: 0 <= i < |o2| ==> o2[i] < |ops|
    requires Distinct(o2) && SameTasks(o1, o2)
    requires Respects(o1, before) && Respects(o2, before)
    requires ConflictsOrdered(ops, o1, before)
    requires o1 != [] && k < |o2| && o2[k] == o1[0]
    ensures forall i :: 0 <= i < k ==> !Conflict(ops[o2[i]], ops[o2[k]])
  {
    forall i | 0 <= i < k
      ensures !Conflict(ops[o2[i]], ops[o2[k]])
    {
      assert o2[i] in o2;
      assert o2[i] in o1;
      var j :| 0 <= j < |o1| && o1[j] == o2[i];
      assert o2[i] != o2[k];
      assert (o1[j], o1[0]) !in before;
      assert (o2[k], o2[i]) !in before;
    }
  }

  lemma TailsAgree(o1: seq<nat>, o2: seq<nat>, before: set<(nat, nat)>, k: nat)
    requires Distinct(o1) && Distinct(o2) && SameTasks(o1, o2)
    requires Respects(o2, before)
    requires o1 != [] && k < |o2| && o2[k] == o1[0]
    ensures var rest := o2[..k] + o2[k + 1..];
            Distinct(o1[1..]) && Distinct(rest) && SameTasks(o1[1..], rest) && Respects(rest, before)
  {
    var rest := o2[..k] + o2[k + 1..];
    assert o1 == [o1[0]] + o1[1..];
    assert o2 == o2[..k] + [o2[k]] + o2[k + 1..];
    assert forall i :: 0 <= i < |rest| ==> rest[i] == o2[if i < k then i else i + 1];
    forall t: nat | t in o1[1..]
      ensures t in rest
    {
      assert t in o1 && t != o1[0];
      assert t in o2;
    }
    forall t: nat | t in rest
      ensures t in o1[1..]
    {
      assert t in o2 && t != o2[k];
      assert t in o1;
    }
  }

  /** If every conflicting pair of tasks is joined by a path, one way or the other,
      all topological orders end in the same store. */
  lemma ScheduleIndependence<L, V>(ops: seq<Op<L, V>>, edges: set<(nat, nat)>,
                                   o1: seq<nat>, o2: seq<nat>, s: map<L, V>)
    requires forall e :: e in edges ==> e.0 < |ops| && e.1 < |ops|
    requires forall a: nat, b: nat :: a < b < |ops| && Conflict(ops[a], ops[b])
               ==> Reaches(edges, a, b) || Reaches(edges, b, a)
    requires Topological(o1, |ops|, edges) && Topological(o2, |ops|, edges)
    ensures Run(ops, o1, s) == Run(ops, o2, s)
  {
    var n := |ops|;
    assert forall i :: 0 <= i < |o1| ==> o1[i] in o1;
    assert forall i :: 0 <= i < |o2| ==> o2[i] in o2;
    TopologicalRespectsClosure(o1, n, edges);
    TopologicalRespectsClosure(o2, n, edges);
    assert ConflictsOrdered(ops, o1, Closure(n, edges)) by {
      forall i, j | 0 <= i < |o1| && 0 <= j < |o1| && o1[i] != o1[j] && Conflict(ops[o1[i]], ops[o1[j]])
        ensures (o1[i], o1[j]) in Closure(n, edges) || (o1[j], o1[i]) in Closure(n, edges)
      {
        ConflictSymmetric(ops[o1[i]], ops[o1[j]]);
      }
    }
    SameResult(ops, o1, o2, Closure(n, edges), s);
  }

  lemma ConflictSymmetric<L, V>(a: Op<L, V>, b: Op<L, V>)
    ensures Conflict(a, b) == Conflict(b, a)
  {
    assert a.output * (b.input + b.output) == a.output * b.input + a.output * b.output;
    assert b.output * (a.input + a.output) == b.output * a.input + b.output * a.output;
    assert a.output * b.output == b.output * a.output;
    assert a.input * b.output == b.output * a.input;
    assert a.output * b.input == b.input * a.output;
  }

  // ---------------------------------------------------------------- the order in which the tasks are listed

  ghost function UpTo(n: nat): seq<nat> {
    seq(n, i requires 0 <= i < n => i)
  }

  lemma {:induction false} RunAppend<L, V>(ops: seq<Op<L, V>>, order: seq<nat>, x: nat, s: map<L, V>)
    requires x < |ops| && forall k :: 0 <= k < |order| ==> order[k] < |ops|
    ensures Run(ops, order + [x], s) == Exec(ops[x], Run(ops, order, s))
    decreases |order|
  {
    if order == [] {
      assert Run(ops, [x], s) == Run(ops, [x][1..], Exec(ops[x], s));
    } else {
      assert (order + [x])[1..] == order[1..] + [x];
      RunAppend(ops, order[1..], x, Exec(ops[order[0]], s));
    }
  }

  lemma {:induction false} RunOpsAgree<L, V>(ops: seq<Op<L, V>>, more: seq<Op<L, V>>, order: seq<nat>, s: map<L, V>)
    requires |ops| <= |more| && forall k :: 0 <= k < |ops| ==> ops[k] == more[k]
    requires forall k :: 0 <= k < |order| ==> order[k] < |ops|
    ensures Run(ops, order, s) == Run(more, order, s)
    decreases |order|
  {
    if order != [] {
      RunOpsAgree(ops, more, order[1..], Exec(ops[order[0]], s));
    }
  }

  /** When all edges go forward in the list, the list itself is a topological order. */
  lemma ForwardTopological(n: nat, edges: set<(nat, nat)>)
    requires forall e :: e in edges ==> e.0 < e.1 < n
    ensures Topological(UpTo(n), n, edges)
  {
    forall t: nat | t < n
      ensures t in UpTo(n)
    {
      assert UpTo(n)[t] == t;
    }
  }
}
