/** Level-synchronous breadth-first search: two loops over the nodes per round, in any order. */
module BreadthFirst {

  /** Where the edges of a node start and how many there are. */
  datatype Node = Node(starting: nat, no_of_edges: nat)

  datatype Graph = Graph(nodes: seq<Node>, edges: seq<nat>)

  /** Edge ranges lie inside the edge list, and edges lead to nodes. */
  ghost predicate GraphOk(g: Graph) {
    && (forall u :: 0 <= u < |g.nodes| ==> g.nodes[u].starting + g.nodes[u].no_of_edges <= |g.edges|)
    && (forall i :: 0 <= i < |g.edges| ==> g.edges[i] < |g.nodes|)
  }

  function Stop(g: Graph, u: nat): nat
    requires u < |g.nodes|
  {
    g.nodes[u].no_of_edges + g.nodes[u].starting
  }

  /** One of the edges of `u` before position `hi` leads to `v`. */
  ghost predicate Hits(g: Graph, u: nat, hi: nat, v: nat)
    requires u < |g.nodes|
  {
    exists i :: g.nodes[u].starting <= i < hi && i < |g.edges| && g.edges[i] == v
  }

  ghost predicate Edge(g: Graph, u: nat, v: nat) {
    u < |g.nodes| && v < |g.nodes| && Hits(g, u, Stop(g, u), v)
  }

  /** A walk of exactly `k` edges leads from the source to `v`. */
  ghost predicate ReachedIn(g: Graph, source: nat, v: nat, k: nat)
    decreases k
  {
    if k == 0 then v == source else exists u: nat :: Edge(g, u, v) && ReachedIn(g, source, u, k - 1)
  }

  /** `k` is the length of a shortest walk to `v`. */
  ghost predicate Distance(g: Graph, source: nat, v: nat, k: nat) {
    ReachedIn(g, source, v, k) && forall j: nat :: j < k ==> !ReachedIn(g, source, v, j)
  }

  ghost predicate EmptyLevel(g: Graph, source: nat, k: nat) {
    forall x: nat :: x < |g.nodes| ==> !Distance(g, source, x, k)
  }

  ghost predicate Unreachable(g: Graph, source: nat, v: nat) {
    forall j: nat :: !ReachedIn(g, source, v, j)
  }

  ghost predicate NotWithin(g: Graph, source: nat, v: nat, k: nat) {
    forall j: nat :: j <= k ==> !ReachedIn(g, source, v, j)
  }

  /** Every node, in any order. */
  ghost predicate AllNodes(order: seq<nat>, n: nat) {
    (forall i :: 0 <= i < |order| ==> order[i] < n) && (forall v: nat :: v < n ==> v in order)
  }

  // ---------------------------------------------------------------- the state between rounds

  /** After k rounds, node `v`: its cost is its distance if that is at most k, and -1 otherwise. */
  ghost predicate Settled(g: Graph, source: nat, k: nat, v: nat, cost: int) {
    if cost == -1 then NotWithin(g, source, v, k) else 0 <= cost <= k && Distance(g, source, v, cost)
  }

  ghost predicate Level(g: Graph, source: nat, k: nat, v: nat, mask: bool, updating: bool, visited: bool, cost: int) {
    Settled(g, source, k, v, cost) && mask == (cost == k) && !updating && visited == (cost >= 0)
  }

  /** Node `v` is one that the expansion of the nodes in `done`, and of the first edges of `u`, finds. */
  ghost predicate Found(g: Graph, k: nat, costs: seq<int>, done: seq<nat>, v: nat) {
    exists x: nat :: x in done && x < |costs| && costs[x] == k && Edge(g, x, v)
  }

  ghost predicate Expanding(g: Graph, k: nat, costs: seq<int>, v: nat, found: bool, processed: bool,
                            mask: bool, updating: bool, visited: bool, cost: int)
    requires v < |costs|
  {
    && visited == (costs[v] >= 0) && mask == (costs[v] == k && !processed)
    && updating == (costs[v] < 0 && found) && cost == if costs[v] < 0 && found then k + 1 else costs[v]
  }

  // ---------------------------------------------------------------- distances

  /** What a round finds is exactly the next level. */
  lemma NextLevel(g: Graph, source: nat, k: nat, costs: seq<int>, order: seq<nat>, v: nat)
    requires GraphOk(g) && |costs| == |g.nodes| && v < |g.nodes| && AllNodes(order, |g.nodes|)
    requires forall x: nat :: x < |costs| ==> Settled(g, source, k, x, costs[x])
    ensures costs[v] == -1 && Found(g, k, costs, order, v) ==> Distance(g, source, v, k + 1)
    ensures costs[v] == -1 && !Found(g, k, costs, order, v) ==> NotWithin(g, source, v, k + 1)
    ensures costs[v] != -1 ==> Settled(g, source, k + 1, v, costs[v])
  {
    if costs[v] == -1 {
      if Found(g, k, costs, order, v) {
        var x: nat :| x in order && x < |costs| && costs[x] == k && Edge(g, x, v);
        assert Settled(g, source, k, x, costs[x]);
        assert ReachedIn(g, source, v, k + 1);
      } else if ReachedIn(g, source, v, k + 1) {
        var u: nat :| Edge(g, u, v) && ReachedIn(g, source, u, k);
        assert Settled(g, source, k, u, costs[u]);
        LevelOf(g, source, k, u, v, costs[u]);
      }
    }
  }

  /** A predecessor of a node that is not within k is not within k - 1. */
  lemma LevelOf(g: Graph, source: nat, k: nat, u: nat, v: nat, cost: int)
    requires Edge(g, u, v) && ReachedIn(g, source, u, k) && NotWithin(g, source, v, k) && Settled(g, source, k, u, cost)
    ensures cost == k
  {
    if 0 <= cost < k {
      assert ReachedIn(g, source, v, cost + 1);
    }
  }

  /** When a level is empty, everything that can be reached has been reached. */
  lemma {:induction false} NothingBeyond(g: Graph, source: nat, k: nat, v: nat, m: nat)
    requires k > 0 && EmptyLevel(g, source, k)
    requires ReachedIn(g, source, v, m)
    ensures exists j: nat :: j < k && ReachedIn(g, source, v, j)
    decreases m
  {
    if m >= k {
      if m == k {
        assert v < |g.nodes| && !Distance(g, source, v, k);
      } else {
        var u: nat :| Edge(g, u, v) && ReachedIn(g, source, u, m - 1);
        NothingBeyond(g, source, k, u, m - 1);
        var j: nat :| j < k && ReachedIn(g, source, u, j);
        var next := j + 1;
        assert ReachedIn(g, source, v, next);
        NothingBeyond(g, source, k, v, next);
      }
    }
  }

  // ---------------------------------------------------------------- the two loops of a round

  lemma HitsNext(g: Graph, u: nat, i: nat, v: nat)
    requires u < |g.nodes| && g.nodes[u].starting <= i < |g.edges|
    ensures Hits(g, u, i + 1, v) <==> Hits(g, u, i, v) || g.edges[i] == v
  {
  }

  lemma FoundNext(g: Graph, k: nat, costs: seq<int>, done: seq<nat>, u: nat, v: nat)
    requires |costs| == |g.nodes| && u < |g.nodes| && v < |g.nodes|
    ensures Found(g, k, costs, done + [u], v) <==>
            Found(g, k, costs, done, v) || (costs[u] == k && Hits(g, u, Stop(g, u), v))
  {
  }

  class Search {
    const g: Graph
    const mask: array<bool>
    const updating: array<bool>
    const visited: array<bool>
    const cost: array<int>

    ghost predicate Valid()
      reads this
    {
      && GraphOk(g) && mask != updating && mask != visited && updating != visited
      && mask.Length == updating.Length == visited.Length == cost.Length == |g.nodes|
    }

    ghost predicate At(source: nat, k: nat, v: nat)
      requires Valid() && v < |g.nodes|
      reads this, mask, updating, visited, cost
    {
      Level(g, source, k, v, mask[v], updating[v], visited[v], cost[v])
    }

    ghost predicate AtLevel(source: nat, k: nat)
      requires Valid()
      reads this, mask, updating, visited, cost
    {
      forall v: nat :: v < |g.nodes| ==> At(source, k, v)
    }

    /** In the first loop: the nodes in `done` have been expanded. */
    ghost predicate During(k: nat, costs: seq<int>, v: nat, found: bool, processed: bool)
      requires Valid() && v < |g.nodes| == |costs|
      reads this, mask, updating, visited, cost
    {
      Expanding(g, k, costs, v, found, processed, mask[v], updating[v], visited[v], cost[v])
    }

    /** The edges of one masked node. */
    method ExpandNode(k: nat, tid: nat, ghost costs: seq<int>, ghost done: seq<nat>)
      requires Valid() && |costs| == |g.nodes| && tid < |g.nodes| && mask[tid] && tid !in done
      requires forall v: nat :: v < |g.nodes| ==> During(k, costs, v, Found(g, k, costs, done, v), v in done)
      modifies mask, updating, cost
      ensures forall v: nat ::
              v < |g.nodes| ==> During(k, costs, v, Found(g, k, costs, done + [tid], v), v in done + [tid])
    {
      assert During(k, costs, tid, Found(g, k, costs, done, tid), tid in done);
      mask[tid] := false;
      var i := g.nodes[tid].starting;
      while i < g.nodes[tid].no_of_edges + g.nodes[tid].starting
        invariant g.nodes[tid].starting <= i <= Stop(g, tid)
        invariant forall v: nat :: v < |g.nodes| ==>
                    During(k, costs, v, Found(g, k, costs, done, v) || Hits(g, tid, i, v), v in done + [tid])
      {
        var id := g.edges[i];
        forall v: nat | v < |g.nodes|
          ensures Hits(g, tid, i + 1, v) <==> Hits(g, tid, i, v) || id == v
        {
          HitsNext(g, tid, i, v);
        }
        assert During(k, costs, tid, Found(g, k, costs, done, tid) || Hits(g, tid, i, tid), tid in done + [tid]);
        if !visited[id] {
          cost[id] := cost[tid] + 1;
          updating[id] := true;
        }
        i := i + 1;
      }
      forall v: nat | v < |g.nodes|
        ensures During(k, costs, v, Found(g, k, costs, done + [tid], v), v in done + [tid])
      {
        FoundNext(g, k, costs, done, tid, v);
      }
    }

    /** First loop, over the nodes in the given order: every masked node expands. */
    method Expand(k: nat, order: seq<nat>, ghost costs: seq<int>)
      requires Valid() && AllNodes(order, |g.nodes|) && costs == cost[..]
      requires forall v: nat :: v < |g.nodes| ==> During(k, costs, v, false, false)
      modifies mask, updating, cost
      ensures forall v: nat :: v < |g.nodes| ==> During(k, costs, v, Found(g, k, costs, order, v), true)
    {
      for n := 0 to |order|
        invariant forall v: nat :: v < |g.nodes| ==>
                    During(k, costs, v, Found(g, k, costs, order[..n], v), v in order[..n])
      {
        var tid := order[n];
        ghost var done := order[..n];
        assert order[..n + 1] == done + [tid];
        assert During(k, costs, tid, Found(g, k, costs, done, tid), tid in done);
        if mask[tid] {
          ExpandNode(k, tid, costs, done);
        } else {
          forall v: nat | v < |g.nodes|
            ensures During(k, costs, v, Found(g, k, costs, done + [tid], v), v in done + [tid])
          {
            FoundNext(g, k, costs, done, tid, v);
            assert During(k, costs, v, Found(g, k, costs, done, v), v in done);
          }
        }
      }
      assert order[..|order|] == order;
    }

    /** In the second loop: node `v` joins the next level if it has been found. */
    ghost predicate Joining(k: nat, costs: seq<int>, v: nat, found: bool, processed: bool)
      requires Valid() && v < |g.nodes| == |costs|
      reads this, mask, updating, visited, cost
    {
      var joins := costs[v] < 0 && found;
      && mask[v] == (joins && processed) && updating[v] == (joins && !processed)
      && visited[v] == (costs[v] >= 0 || (joins && processed)) && cost[v] == if joins then k + 1 else costs[v]
    }

    /** Second loop, in any order: the nodes found become the next level; the flag says whether there is one. */
    method Advance(k: nat, order: seq<nat>, ghost costs: seq<int>, ghost found: set<nat>) returns (stop: bool)
      requires Valid() && AllNodes(order, |g.nodes|) && |costs| == |g.nodes|
      requires forall v: nat :: v < |g.nodes| ==> Joining(k, costs, v, v in found, false)
      modifies mask, updating, visited
      ensures forall v: nat :: v < |g.nodes| ==> Joining(k, costs, v, v in found, true)
      ensures stop <==> exists v: nat :: v < |g.nodes| && costs[v] < 0 && v in found
    {
      stop := false;
      for n := 0 to |order|
        invariant forall v: nat :: v < |g.nodes| ==> Joining(k, costs, v, v in found, v in order[..n])
        invariant stop <==> exists v: nat :: v < |g.nodes| && costs[v] < 0 && v in found && v in order[..n]
      {
        var tid := order[n];
        assert order[..n + 1] == order[..n] + [tid];
        assert Joining(k, costs, tid, tid in found, tid in order[..n]);
        if updating[tid] {
          mask[tid] := true;
          visited[tid] := true;
          stop := true;
          updating[tid] := false;
        }
      }
      assert order[..|order|] == order;
    }

    ghost function Unvisited(costs: seq<int>): set<nat> {
      set v: nat | v < |costs| && costs[v] == -1
    }

    lemma JoiningIsLevel(source: nat, k: nat, costs: seq<int>, order: seq<nat>, found: set<nat>, v: nat)
      requires Valid() && |costs| == |g.nodes| && v < |g.nodes| && AllNodes(order, |g.nodes|)
      requires forall x: nat :: x < |costs| ==> Settled(g, source, k, x, costs[x])
      requires v in found <==> Found(g, k, costs, order, v)
      requires Joining(k, costs, v, v in found, true)
      ensures At(source, k + 1, v)
    {
      NextLevel(g, source, k, costs, order, v);
      assert Settled(g, source, k, v, costs[v]);
    }

    /** One round turns level k into level k + 1, and says whether that one is empty. */
    method Round(source: nat, k: nat, order1: seq<nat>, order2: seq<nat>) returns (stop: bool)
      requires Valid() && AllNodes(order1, |g.nodes|) && AllNodes(order2, |g.nodes|)
      requires AtLevel(source, k)
      modifies mask, updating, visited, cost
      ensures AtLevel(source, k + 1)
      ensures stop ==> Unvisited(cost[..]) < Unvisited(old(cost[..]))
      ensures !stop ==> EmptyLevel(g, source, k + 1)
    {
      ghost var costs := cost[..];
      forall v: nat | v < |g.nodes|
        ensures Settled(g, source, k, v, costs[v]) && During(k, costs, v, false, false)
      {
        assert At(source, k, v);
      }
      Expand(k, order1, costs);
      ghost var found := set v: nat | v < |g.nodes| && Found(g, k, costs, order1, v);
      forall v: nat | v < |g.nodes|
        ensures Joining(k, costs, v, v in found, false)
      {
        assert During(k, costs, v, Found(g, k, costs, order1, v), true);
      }
      stop := Advance(k, order2, costs, found);
      var next := k + 1;
      forall v: nat | v < |g.nodes|
        ensures At(source, next, v)
      {
        JoiningIsLevel(source, k, costs, order1, found, v);
      }
      RoundCosts(source, k, costs, found, stop);
    }

    lemma RoundCosts(source: nat, k: nat, costs: seq<int>, found: set<nat>, stop: bool)
      requires Valid() && |costs| == |g.nodes|
      requires forall v: nat :: v < |g.nodes| ==> Settled(g, source, k, v, costs[v])
      requires AtLevel(source, k + 1) && forall v: nat :: v < |g.nodes| ==> Joining(k, costs, v, v in found, true)
      requires stop <==> exists v: nat :: v < |g.nodes| && costs[v] < 0 && v in found
      ensures stop ==> Unvisited(cost[..]) < Unvisited(costs)
      ensures !stop ==> EmptyLevel(g, source, k + 1)
    {
      forall v: nat | v < |g.nodes|
        ensures cost[v] == -1 ==> costs[v] == -1
        ensures !stop ==> cost[v] == costs[v]
      {
        assert Joining(k, costs, v, v in found, true);
      }
      if stop {
        var v: nat :| v < |g.nodes| && costs[v] < 0 && v in found;
        assert Joining(k, costs, v, v in found, true) && Settled(g, source, k, v, costs[v]);
        assert v in Unvisited(costs) && v !in Unvisited(cost[..]);
      } else {
        var next := k + 1;
        forall v: nat | v < |g.nodes|
          ensures !Distance(g, source, v, next)
        {
          assert At(source, next, v) && Settled(g, source, k, v, costs[v]);
        }
      }
    }

    constructor (graph: Graph)
      requires GraphOk(graph)
      ensures Valid() && g == graph && fresh(mask) && fresh(updating) && fresh(visited) && fresh(cost)
      ensures forall v :: 0 <= v < |g.nodes| ==> !mask[v] && !updating[v] && !visited[v] && cost[v] == -1
    {
      g := graph;
      mask := new bool[|graph.nodes|](_ => false);
      updating := new bool[|graph.nodes|](_ => false);
      visited := new bool[|graph.nodes|](_ => false);
      cost := new int[|graph.nodes|](_ => -1);
    }

    /** The whole search: it terminates whatever the orders, with the distance of every node that can be reached and -1
        for the others. `orders` gives the orders of the two loops of each round. */
    method Run(source: nat, orders: (nat, bool) -> seq<nat>)
      requires Valid() && source < |g.nodes| && forall k: nat, second :: AllNodes(orders(k, second), |g.nodes|)
      requires forall v :: 0 <= v < |g.nodes| ==> !mask[v] && !updating[v] && !visited[v] && cost[v] == -1
      modifies mask, updating, visited, cost
      ensures forall v: nat :: v < |g.nodes| ==>
                if cost[v] == -1 then Unreachable(g, source, v) else cost[v] >= 0 && Distance(g, source, v, cost[v])
    {
      mask[source] := true;
      visited[source] := true;
      cost[source] := 0;
      var k := 0;
      forall v: nat | v < |g.nodes|
        ensures At(source, 0, v)
      {
        assert ReachedIn(g, source, source, 0);
      }
      var stop := true;
      while stop
        invariant AtLevel(source, k)
        invariant !stop ==> k > 0 && EmptyLevel(g, source, k)
        decreases stop, Unvisited(cost[..])
      {
        stop := Round(source, k, orders(k, false), orders(k, true));
        k := k + 1;
      }
      forall v: nat | v < |g.nodes|
        ensures if cost[v] == -1 then Unreachable(g, source, v) else cost[v] >= 0 && Distance(g, source, v, cost[v])
      {
        assert At(source, k, v);
        Finished(source, k, v);
      }
    }

    lemma Finished(source: nat, k: nat, v: nat)
      requires Valid() && k > 0 && v < |g.nodes| && At(source, k, v)
      requires EmptyLevel(g, source, k)
      ensures cost[v] == -1 ==> Unreachable(g, source, v)
    {
      if cost[v] == -1 {
        forall j: nat
          ensures !ReachedIn(g, source, v, j)
        {
          if ReachedIn(g, source, v, j) {
            NothingBeyond(g, source, k, v, j);
          }
        }
      }
    }
  }
}
