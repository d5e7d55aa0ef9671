/** The workers of the quick/merge task as an interleaving machine: each of them runs `execute`, taking units from its
    forward link or the shared ready list, running them, counting them and releasing their successors. */
module MergeSortTao {
  import opened Collections
  import opened SortLib
  import opened MergeSortUnits
  import opened MergeSortOrder
  import opened MergeSortSteps

  /** The forward pointer of a worker. */
  datatype Link = Null | To(unit: nat)

  /** Where a worker is inside `execute`: at the loop test, past it, with a unit, behind the unit, behind the
      decrement of `pending_tasks` with some successors still to release, or out of the loop. */
  datatype Worker =
    | Top(fwd: Link)
    | Fetching(fwd: Link)
    | Holding(u: nat)
    | Ran(u: nat)
    | Releasing(u: nat, left: seq<nat>, fwd: Link)
    | Left

  /** The shared fields of the task and its workers. What has run, has been counted and has been released is recorded
      so that it can be talked about; no step looks at it. */
  datatype State = State(refs: seq<int>, ready: seq<nat>, pending: int, workers: seq<Worker>,
                         ran: set<nat>, counted: set<nat>, released: set<(nat, nat)>)

  /** The `out` list of a unit, as the constructor fills it. */
  function Outs(u: nat): seq<nat> {
    if u < 2 then [4] else if u < 4 then [5]
    else if u == 4 then [6, 7] else if u == 5 then [8, 9]
    else if u < 10 then [10] else if u == 10 then [11, 12]
    else []
  }

  function Begin(width: nat): State {
    State([0, 0, 0, 0, 2, 2, 1, 1, 1, 1, 4, 1, 1], [3, 2, 1, 0], 13, seq(width, w => Top(Null)), {}, {}, {})
  }

  /** The next step of worker `w`. */
  function Step(c: State, w: nat): State
    requires w < |c.workers| && |c.refs| == UNITS
  {
    match c.workers[w]
    case Top(fwd) => c.(workers := c.workers[w := if c.pending > 0 then Fetching(fwd) else Left])
    case Fetching(To(u)) => c.(workers := c.workers[w := Holding(u)])
    case Fetching(Null) =>
      if c.ready == [] then c.(workers := c.workers[w := Top(Null)])
      else c.(workers := c.workers[w := Holding(c.ready[0])], ready := c.ready[1..])
    case Holding(u) => c.(workers := c.workers[w := Ran(u)], ran := c.ran + {u})
    case Ran(u) =>
      c.(workers := c.workers[w := Releasing(u, Outs(u), Null)], pending := c.pending - 1, counted := c.counted + {u})
    case Releasing(u, left, fwd) =>
      if left == [] then c.(workers := c.workers[w := Top(fwd)])
      else Release(c, w, u, left, fwd)
    case Left => c
  }

  /** Release the first of the remaining successors; the first one that becomes ready is kept, the others are shared. */
  function Release(c: State, w: nat, u: nat, left: seq<nat>, fwd: Link): State
    requires w < |c.workers| && |c.refs| == UNITS && left != []
  {
    var v, rest := left[0], left[1..];
    if v >= UNITS then c
    else
      var c' := c.(refs := c.refs[v := c.refs[v] - 1], released := c.released + {(u, v)});
      if c.refs[v] != 1 then c'.(workers := c.workers[w := Releasing(u, rest, fwd)])
      else if fwd == Null then c'.(workers := c.workers[w := Releasing(u, rest, To(v))])
      else c'.(workers := c.workers[w := Releasing(u, rest, fwd)], ready := [v] + c.ready)
  }

  // ---------------------------------------------------------------- the invariant

  ghost predicate Awake(c: State, v: nat)
    requires |c.refs| == UNITS
  {
    v < UNITS && c.refs[v] == 0 && v !in c.ran
  }

  ghost predicate Waits(w: Worker, v: nat) {
    match w
    case Top(fwd) => fwd == To(v)
    case Fetching(fwd) => fwd == To(v)
    case Holding(u) => u == v
    case Releasing(_, _, fwd) => fwd == To(v)
    case _ => false
  }

  ghost predicate After(w: Worker, v: nat) {
    match w
    case Ran(u) => u == v
    case Releasing(u, _, _) => u == v
    case _ => false
  }

  ghost predicate Tail(s: seq<nat>, t: seq<nat>) {
    |s| <= |t| && s == t[|t| - |s|..]
  }

  /** What is true of a worker, besides what it waits with. */
  ghost predicate WorkerOk(c: State, w: Worker) {
    match w
    case Ran(u) => u in c.ran && u !in c.counted
    case Releasing(u, left, _) => u in c.counted && Tail(left, Outs(u))
        && (forall v :: v in left ==> (u, v) !in c.released)
    case Left => c.pending == 0
    case _ => true
  }

  ghost predicate Has(c: State, v: nat) {
    exists w :: 0 <= w < |c.workers| && Waits(c.workers[w], v)
  }

  ghost predicate HasRan(c: State, u: nat) {
    exists w :: 0 <= w < |c.workers| && c.workers[w] == Ran(u)
  }

  ghost predicate Releases(w: Worker, u: nat, v: nat) {
    w.Releasing? && w.u == u && v in w.left
  }

  ghost predicate HasEdge(c: State, u: nat, v: nat) {
    exists w :: 0 <= w < |c.workers| && Releases(c.workers[w], u, v)
  }

  /** The units before `v` that have not released it. */
  function Open(released: set<(nat, nat)>, v: nat): set<nat> {
    set p | p in Deps(v) && (p, v) !in released
  }

  ghost predicate Distinct(ready: seq<nat>) {
    forall i, j :: 0 <= i < j < |ready| ==> ready[i] != ready[j]
  }

  ghost predicate Histories(c: State) {
    var holds :=
      && |c.refs| == UNITS && c.counted <= c.ran && Closed(c.ran) && c.pending == UNITS - |c.counted|
      && (forall u, v :: (u, v) in c.released ==> u in c.counted)
      && (forall u :: u in c.ran ==> Open(c.released, u) == {});
    holds
  }

  ghost predicate RefsCount(c: State)
    requires |c.refs| == UNITS
  {
    forall v :: 0 <= v < UNITS ==> c.refs[v] == |Open(c.released, v)|
  }

  /** Units in the ready list or with a worker are ready to run, and each is in one place only. */
  ghost predicate OnePlace(c: State)
    requires |c.refs| == UNITS
  {
    Distinct(c.ready) && ReadyAwake(c) && WaitingAwake(c) && OneWaits(c) && OneAfter(c)
  }

  ghost predicate ReadyAwake(c: State)
    requires |c.refs| == UNITS
  {
    forall v :: v in c.ready ==> Awake(c, v)
  }

  ghost predicate WaitingAwake(c: State)
    requires |c.refs| == UNITS
  {
    forall w, v: nat :: 0 <= w < |c.workers| && Waits(c.workers[w], v) ==> Awake(c, v) && v !in c.ready
  }

  ghost predicate OneWaits(c: State) {
    forall w, x, v: nat ::
      0 <= w < |c.workers| && 0 <= x < |c.workers| && Waits(c.workers[w], v) && Waits(c.workers[x], v) ==> w == x
  }

  ghost predicate OneAfter(c: State) {
    forall w, x, v: nat ::
      0 <= w < |c.workers| && 0 <= x < |c.workers| && After(c.workers[w], v) && After(c.workers[x], v) ==> w == x
  }

  /** No unit and no release is lost. */
  ghost predicate NothingLost(c: State)
    requires |c.refs| == UNITS
  {
    UnitsKept(c) && CountsKept(c) && EdgesKept(c)
  }

  ghost predicate UnitsKept(c: State)
    requires |c.refs| == UNITS
  {
    forall v: nat :: Awake(c, v) ==> v in c.ready || Has(c, v)
  }

  ghost predicate CountsKept(c: State) {
    forall u: nat :: u in c.ran && u !in c.counted ==> HasRan(c, u)
  }

  ghost predicate EdgesKept(c: State) {
    forall u: nat, v: nat :: u in c.counted && u in Open(c.released, v) ==> HasEdge(c, u, v)
  }

  ghost predicate WorkersOk(c: State) {
    forall w :: 0 <= w < |c.workers| ==> WorkerOk(c, c.workers[w])
  }

  ghost predicate Ok(c: State) {
    Histories(c) && RefsCount(c) && WorkersOk(c) && OnePlace(c) && NothingLost(c)
  }

  lemma DepsCount(v: nat)
    requires v < UNITS
    ensures Open({}, v) == Deps(v) && Begin(0).refs[v] == |Deps(v)| && (Deps(v) == {} <==> v < 4)
  {
  }

  lemma BeginCounts(c: State, width: nat)
    requires c == Begin(width)
    ensures Histories(c) && RefsCount(c)
    ensures forall v: nat :: Awake(c, v) <==> v in c.ready
  {
    assert c.refs == Begin(0).refs;
    forall v: nat | v < UNITS
      ensures c.refs[v] == |Open(c.released, v)| && (Awake(c, v) <==> v in c.ready)
    {
      DepsCount(v);
    }
  }

  lemma BeginWorkers(c: State, width: nat)
    requires c == Begin(width) && forall v: nat :: Awake(c, v) <==> v in c.ready
    ensures WorkersOk(c) && |c.refs| == UNITS && OnePlace(c) && NothingLost(c)
  {
  }

  lemma BeginOk(width: nat)
    ensures Ok(Begin(width))
  {
    BeginCounts(Begin(width), width);
    BeginWorkers(Begin(width), width);
  }

  lemma OutsAreDeps(u: nat, v: nat)
    requires u < UNITS
    ensures v in Outs(u) <==> u in Deps(v)
  {
  }

  // ---------------------------------------------------------------- only `pending` zero lets a worker leave

  lemma AllCounted(c: State)
    requires Histories(c) && c.pending == 0
    ensures AllUnits(c.counted) && AllUnits(c.ran)
  {
    FullOf(c.counted, UNITS);
    forall u: nat | u < UNITS
      ensures u in c.ran
    {
      assert u in c.counted;
    }
  }

  lemma FullOf(s: set<nat>, n: nat)
    requires |s| == n && forall u: nat :: u in s ==> u < n
    ensures forall u: nat :: u < n ==> u in s
  {
    SubsetOfSameSize(s, UpTo(n));
  }

  lemma FewerThan(s: set<nat>, n: nat)
    requires forall u: nat :: u in s ==> u < n
    ensures |s| <= n
  {
    SubsetSize(s, UpTo(n));
  }

  function UpTo(n: nat): (s: set<nat>)
    ensures |s| == n && forall u: nat :: u in s <==> u < n
  {
    if n == 0 then {} else UpTo(n - 1) + {n - 1}
  }

  // ---------------------------------------------------------------- a worker that moves without the shared fields

  /** Only worker `w` has moved. */
  ghost predicate OnlyMoved(c: State, c': State, w: nat) {
    && |c'.workers| == |c.workers| && w < |c.workers| && |c.refs| == UNITS && |c'.refs| == UNITS
    && forall x :: 0 <= x < |c.workers| && x != w ==> c'.workers[x] == c.workers[x]
  }

  /** Units that are still to run stay where they are, when `w` keeps its own or puts it in the ready list. */
  lemma UnitsStay(c: State, c': State, w: nat)
    requires OnlyMoved(c, c', w) && UnitsKept(c)
    requires forall v: nat :: Awake(c', v) ==> Awake(c, v) || v in c'.ready || Waits(c'.workers[w], v)
    requires forall v: nat :: Awake(c', v) && v in c.ready ==> v in c'.ready || Waits(c'.workers[w], v)
    requires forall v: nat :: Awake(c', v) && Waits(c.workers[w], v) ==> Waits(c'.workers[w], v)
    ensures UnitsKept(c')
  {
    forall v: nat | Awake(c', v)
      ensures v in c'.ready || Has(c', v)
    {
      if Waits(c'.workers[w], v) {
      } else if v !in c'.ready {
        var x :| 0 <= x < |c.workers| && Waits(c.workers[x], v);
        assert Waits(c'.workers[x], v);
      }
    }
  }

  lemma CountsStay(c: State, c': State, w: nat)
    requires OnlyMoved(c, c', w) && CountsKept(c)
    requires forall u: nat ::
             u in c'.ran && u !in c'.counted ==> (u in c.ran && u !in c.counted) || c'.workers[w] == Ran(u)
    requires forall u: nat :: c.workers[w] == Ran(u) ==> u in c'.counted
    ensures CountsKept(c')
  {
    forall u | u in c'.ran && u !in c'.counted
      ensures HasRan(c', u)
    {
      if c'.workers[w] == Ran(u) {
      } else {
        var x :| 0 <= x < |c.workers| && c.workers[x] == Ran(u);
        assert c'.workers[x] == Ran(u);
      }
    }
  }

  lemma EdgesStay(c: State, c': State, w: nat)
    requires OnlyMoved(c, c', w) && EdgesKept(c) && c.released <= c'.released
    requires forall u: nat, v: nat ::
             u in c'.counted && u in Open(c'.released, v) ==> u in c.counted || Releases(c'.workers[w], u, v)
    requires forall u: nat, v: nat ::
             Releases(c.workers[w], u, v) ==> Releases(c'.workers[w], u, v) || (u, v) in c'.released
    ensures EdgesKept(c')
  {
    forall u: nat, v: nat | u in c'.counted && u in Open(c'.released, v)
      ensures HasEdge(c', u, v)
    {
      if Releases(c'.workers[w], u, v) {
      } else {
        assert HasEdge(c, u, v);
        var x :| 0 <= x < |c.workers| && Releases(c.workers[x], u, v);
        assert Releases(c'.workers[x], u, v);
      }
    }
  }

  /** A unit stays in one place when `w` waits only with what it had, or what was in the ready list and has left it. */
  lemma PlacesStay(c: State, c': State, w: nat)
    requires OnlyMoved(c, c', w) && WaitingAwake(c) && OneWaits(c)
    requires forall v: nat :: Waits(c'.workers[w], v) ==> Waits(c.workers[w], v) || v in c.ready || !Awake(c, v)
    ensures OneWaits(c')
  {
    forall x, y, v: nat | 0 <= x < |c'.workers| && 0 <= y < |c'.workers| && Waits(c'.workers[x], v)
        && Waits(c'.workers[y], v)
      ensures x == y
    {
      if x != w {
        NotBothWait(c, c', w, x, v);
      }
      if y != w {
        NotBothWait(c, c', w, y, v);
      }
    }
  }

  lemma NotBothWait(c: State, c': State, w: nat, x: nat, v: nat)
    requires OnlyMoved(c, c', w) && WaitingAwake(c) && OneWaits(c)
    requires Waits(c'.workers[w], v) ==> Waits(c.workers[w], v) || v in c.ready || !Awake(c, v)
    requires x < |c.workers| && x != w && Waits(c'.workers[x], v)
    ensures Waits(c.workers[x], v) && !Waits(c'.workers[w], v)
  {
    assert Waits(c.workers[x], v);
  }

  lemma AwakeStay(c: State, c': State, w: nat)
    requires OnlyMoved(c, c', w) && WaitingAwake(c) && OneWaits(c)
    requires forall v: nat :: Waits(c'.workers[w], v) ==> Awake(c', v) && v !in c'.ready
    requires forall v: nat :: Awake(c, v) ==> Awake(c', v) || Waits(c.workers[w], v)
    requires forall v :: v in c'.ready ==> v in c.ready || !Awake(c, v)
    ensures WaitingAwake(c')
  {
    forall x, v: nat | 0 <= x < |c'.workers| && Waits(c'.workers[x], v)
      ensures Awake(c', v) && v !in c'.ready
    {
      if x != w {
        assert Waits(c.workers[x], v);
      }
    }
  }

  lemma AfterStay(c: State, c': State, w: nat)
    requires OnlyMoved(c, c', w) && OneAfter(c) && WorkersOk(c) && c.counted <= c.ran
    requires forall u: nat :: After(c'.workers[w], u) ==> After(c.workers[w], u) || u !in c.ran
    ensures OneAfter(c')
  {
    forall x, y, v: nat | 0 <= x < |c'.workers| && 0 <= y < |c'.workers| && After(c'.workers[x], v)
        && After(c'.workers[y], v)
      ensures x == y
    {
      if x != w {
        NotBothAfter(c, c', w, x, v);
      }
      if y != w {
        NotBothAfter(c, c', w, y, v);
      }
    }
  }

  lemma NotBothAfter(c: State, c': State, w: nat, x: nat, v: nat)
    requires OnlyMoved(c, c', w) && OneAfter(c) && WorkersOk(c) && c.counted <= c.ran
    requires After(c'.workers[w], v) ==> After(c.workers[w], v) || v !in c.ran
    requires x < |c.workers| && x != w && After(c'.workers[x], v)
    ensures After(c.workers[x], v) && !After(c'.workers[w], v)
  {
    assert WorkerOk(c, c.workers[x]) && After(c.workers[x], v);
  }

  /** Worker `w` becomes `next`, which waits with the same unit and finishes the same one. */
  lemma Moves(c: State, w: nat, next: Worker)
    requires Ok(c) && w < |c.workers|
    requires forall v: nat :: Waits(c.workers[w], v) == Waits(next, v)
    requires forall v: nat :: After(next, v) ==> After(c.workers[w], v)
    requires forall u: nat :: c.workers[w] != Ran(u)
    requires forall u: nat, v: nat :: Releases(c.workers[w], u, v) ==> Releases(next, u, v)
    requires WorkerOk(c, next)
    ensures Ok(c.(workers := c.workers[w := next]))
  {
    var c' := c.(workers := c.workers[w := next]);
    forall v: nat | Waits(next, v)
      ensures Awake(c', v) && v !in c'.ready
    {
      WaitsAwake(c, w, v);
    }
    UnitsStay(c, c', w);
    CountsStay(c, c', w);
    EdgesStay(c, c', w);
    PlacesStay(c, c', w);
    AwakeStay(c, c', w);
    AfterStay(c, c', w);
  }

  lemma TestKeeps(c: State, w: nat, fwd: Link)
    requires Ok(c) && w < |c.workers| && c.workers[w] == Top(fwd)
    ensures Ok(Step(c, w))
  {
    if c.pending > 0 {
      Moves(c, w, Fetching(fwd));
    } else {
      NothingWaits(c, w);
      Moves(c, w, Left);
    }
  }

  lemma NothingWaits(c: State, w: nat)
    requires Ok(c) && w < |c.workers| && c.pending <= 0
    ensures c.pending == 0 && forall v :: !Waits(c.workers[w], v)
  {
    FewerThan(c.counted, UNITS);
    AllCounted(c);
    forall v
      ensures !Waits(c.workers[w], v)
    {
      WaitsAwake(c, w, v);
    }
  }

  lemma WaitsAwake(c: State, w: nat, v: nat)
    requires Ok(c) && w < |c.workers|
    ensures Waits(c.workers[w], v) ==> Awake(c, v) && v !in c.ready
  {
  }

  lemma StillPending(c: State, u: nat)
    requires Histories(c) && u in c.ran && u !in c.counted
    ensures c.pending > 0
  {
    FewerThan(c.counted, UNITS);
    if c.pending == 0 {
      AllCounted(c);
    }
  }

  lemma FetchKeeps(c: State, w: nat, fwd: Link)
    requires Ok(c) && w < |c.workers| && c.workers[w] == Fetching(fwd) && (fwd == Null ==> c.ready == [])
    ensures Ok(Step(c, w))
  {
    if fwd == Null {
      Moves(c, w, Top(Null));
    } else {
      Moves(c, w, Holding(fwd.unit));
    }
  }

  lemma DoneKeeps(c: State, w: nat, u: nat, fwd: Link)
    requires Ok(c) && w < |c.workers| && c.workers[w] == Releasing(u, [], fwd)
    ensures Ok(Step(c, w))
  {
    Moves(c, w, Top(fwd));
  }

  // ---------------------------------------------------------------- the other steps

  lemma TakeKeeps(c: State, w: nat)
    requires Ok(c) && w < |c.workers| && c.workers[w] == Fetching(Null) && c.ready != []
    ensures Ok(Step(c, w))
  {
    var c', u := Step(c, w), c.ready[0];
    assert c.ready == [u] + c'.ready;
    UnitsStay(c, c', w);
    CountsStay(c, c', w);
    EdgesStay(c, c', w);
    PlacesStay(c, c', w);
    AwakeStay(c, c', w);
    AfterStay(c, c', w);
  }

  /** A unit that is ready to run has all its predecessors behind it. */
  lemma AwakeRunnable(c: State, u: nat)
    requires Histories(c) && RefsCount(c) && Awake(c, u)
    ensures Runnable(c.ran, u)
  {
    assert Open(c.released, u) == {};
    forall p | p in Deps(u)
      ensures p in c.ran
    {
      assert p !in Open(c.released, u);
      assert (p, u) in c.released;
    }
  }

  lemma RunKeeps(c: State, w: nat, u: nat)
    requires Ok(c) && w < |c.workers| && c.workers[w] == Holding(u)
    ensures Ok(Step(c, w)) && Runnable(c.ran, u)
  {
    var c' := Step(c, w);
    assert Waits(c.workers[w], u);
    AwakeRunnable(c, u);
    ClosedAdd(c.ran, u);
    UnitsStay(c, c', w);
    CountsStay(c, c', w);
    EdgesStay(c, c', w);
    PlacesStay(c, c', w);
    AwakeStay(c, c', w);
    AfterStay(c, c', w);
  }

  lemma CountKeeps(c: State, w: nat, u: nat)
    requires Ok(c) && w < |c.workers| && c.workers[w] == Ran(u)
    ensures Ok(Step(c, w))
  {
    var c' := Step(c, w);
    assert WorkerOk(c, c.workers[w]) && After(c.workers[w], u);
    StillPending(c, u);
    UnitsStay(c, c', w);
    CountsStay(c, c', w);
    forall v ensures v in Outs(u) <==> u in Deps(v) { OutsAreDeps(u, v); }
    EdgesStay(c, c', w);
    PlacesStay(c, c', w);
    AwakeStay(c, c', w);
    AfterStay(c, c', w);
    forall x | 0 <= x < |c'.workers|
      ensures WorkerOk(c', c'.workers[x])
    {
      assert WorkerOk(c, c.workers[x]);
      if x != w {
        assert !After(c.workers[x], u);
      }
    }
  }

  /** Releasing `v` from `u` closes one of the predecessors that `v` was waiting for. */
  lemma OpenShrinks(released: set<(nat, nat)>, u: nat, v: nat, x: nat)
    requires u in Open(released, v)
    ensures Open(released + {(u, v)}, x) == if x == v then Open(released, v) - {u} else Open(released, x)
  {
  }

  lemma TailOf(s: seq<nat>, t: seq<nat>)
    requires Tail(s, t) && s != [] && Distinct(t)
    ensures s[0] in t && s[0] !in s[1..] && Tail(s[1..], t)
    ensures forall v :: v in s ==> v == s[0] || v in s[1..]
  {
    var k := |t| - |s|;
    assert s[0] == t[k] && s[1..] == t[k + 1..];
    assert s == [s[0]] + s[1..];
  }

  lemma TailFirst(u: nat, left: seq<nat>)
    requires Tail(left, Outs(u)) && left != [] && u < UNITS
    ensures left[0] in Outs(u) && left[0] !in left[1..] && left[0] < UNITS && Tail(left[1..], Outs(u))
    ensures forall v :: v in left ==> v == left[0] || v in left[1..]
  {
    OutsDistinct(u);
    TailOf(left, Outs(u));
  }

  lemma OutsDistinct(u: nat)
    ensures Distinct(Outs(u)) && forall v :: v in Outs(u) ==> v < UNITS
  {
  }

  /** What releasing `v` from `u` finds. */
  lemma ReleaseFinds(c: State, w: nat, u: nat, left: seq<nat>, fwd: Link)
    requires Ok(c) && w < |c.workers| && c.workers[w] == Releasing(u, left, fwd) && left != []
    ensures u < UNITS && left[0] < UNITS && u in Open(c.released, left[0]) && left[0] !in c.ran && c.refs[left[0]] >= 1
    ensures left[0] !in left[1..] && Tail(left[1..], Outs(u)) && !Awake(c, left[0])
    ensures forall v :: v in left ==> v == left[0] || v in left[1..]
  {
    assert WorkerOk(c, c.workers[w]);
    assert u in c.ran && u < UNITS;
    TailFirst(u, left);
    OutsAreDeps(u, left[0]);
    assert (u, left[0]) !in c.released;
    assert c.refs[left[0]] == |Open(c.released, left[0])|;
    assert Open(c.released, left[0]) != {};
  }

  /** What the step changes whatever it does with `v`. */
  ghost predicate Released(c: State, c': State, w: nat, u: nat, v: nat, rest: seq<nat>, fwd: Link)
    requires w < |c.workers| && |c.refs| == UNITS && v < UNITS
  {
    && c'.refs == c.refs[v := c.refs[v] - 1] && c'.released == c.released + {(u, v)} && c'.pending == c.pending
    && c'.ran == c.ran && c'.counted == c.counted && c'.workers == c.workers[w := Releasing(u, rest, fwd)]
  }

  /** The count of `v` stays the number of predecessors it still waits for, and so do the records. */
  lemma ReleaseCounts(c: State, c': State, w: nat, u: nat, v: nat, rest: seq<nat>, fwd: Link)
    requires Histories(c) && RefsCount(c) && w < |c.workers| && v < UNITS && Released(c, c', w, u, v, rest, fwd)
    requires u in c.counted && u in Open(c.released, v) && v !in c.ran
    ensures Histories(c') && RefsCount(c')
  {
    forall x: nat
      ensures Open(c'.released, x) == if x == v then Open(c.released, v) - {u} else Open(c.released, x)
    {
      OpenShrinks(c.released, u, v, x);
    }
  }

  lemma ReleaseWorkers(c: State, c': State, w: nat, u: nat, v: nat, rest: seq<nat>, fwd: Link, fwd': Link)
    requires OneAfter(c) && WorkersOk(c) && |c.refs| == UNITS && w < |c.workers| && v < UNITS
    requires Released(c, c', w, u, v, rest, fwd') && c.workers[w] == Releasing(u, [v] + rest, fwd)
    requires v !in rest && Tail(rest, Outs(u))
    ensures WorkersOk(c')
  {
    assert WorkerOk(c, c.workers[w]) && After(c.workers[w], u);
    forall x | 0 <= x < |c'.workers|
      ensures WorkerOk(c', c'.workers[x])
    {
      assert WorkerOk(c, c.workers[x]);
      if x != w {
        assert !After(c.workers[x], u);
      } else {
        assert forall y :: y in rest ==> y in [v] + rest;
      }
    }
  }

  lemma ReleaseEdges(c: State, c': State, w: nat, u: nat, v: nat, rest: seq<nat>, fwd: Link, fwd': Link)
    requires EdgesKept(c) && |c.refs| == UNITS && w < |c.workers| && v < UNITS
    requires Released(c, c', w, u, v, rest, fwd') && c.workers[w] == Releasing(u, [v] + rest, fwd)
    ensures EdgesKept(c')
  {
    EdgesStay(c, c', w);
  }

  /** A unit that has become ready is with the worker or in the list, and nowhere else. */
  lemma ReleasePlaces(c: State, c': State, w: nat, u: nat, v: nat, rest: seq<nat>, fwd: Link, fwd': Link)
    requires |c.refs| == UNITS && OnePlace(c) && w < |c.workers| && v < UNITS && !Awake(c, v) && v !in c.ran
    requires Released(c, c', w, u, v, rest, fwd') && c.workers[w] == Releasing(u, [v] + rest, fwd)
    requires c.refs[v] != 1 ==> fwd' == fwd && c'.ready == c.ready
    requires c.refs[v] == 1 ==> if fwd == Null then fwd' == To(v) && c'.ready == c.ready
                                else fwd' == fwd && c'.ready == [v] + c.ready
    requires WorkersOk(c) && c.counted <= c.ran && UnitsKept(c)
    ensures OnePlace(c') && UnitsKept(c')
  {
    forall x: nat | Waits(c.workers[w], x)
      ensures Awake(c, x) && x !in c.ready
    {
      assert Waits(c.workers[w], x);
    }
    UnitsStay(c, c', w);
    PlacesStay(c, c', w);
    AwakeStay(c, c', w);
    AfterStay(c, c', w);
  }

  /** The three outcomes: nobody wakes up, the worker keeps `v`, or shares it. */
  lemma ReleaseIs(c: State, w: nat, u: nat, v: nat, rest: seq<nat>, fwd: Link) returns (fwd': Link)
    requires w < |c.workers| && |c.refs| == UNITS && v < UNITS && c.workers[w] == Releasing(u, [v] + rest, fwd)
    ensures Released(c, Step(c, w), w, u, v, rest, fwd')
    ensures c.refs[v] != 1 ==> fwd' == fwd && Step(c, w).ready == c.ready
    ensures c.refs[v] == 1 ==> if fwd == Null then fwd' == To(v) && Step(c, w).ready == c.ready
                               else fwd' == fwd && Step(c, w).ready == [v] + c.ready
  {
    fwd' := if c.refs[v] == 1 && fwd == Null then To(v) else fwd;
  }

  lemma ReleaseKeeps(c: State, w: nat, u: nat, left: seq<nat>, fwd: Link)
    requires Ok(c) && w < |c.workers| && c.workers[w] == Releasing(u, left, fwd) && left != []
    ensures Ok(Step(c, w))
  {
    ReleaseFinds(c, w, u, left, fwd);
    var v, rest := left[0], left[1..];
    assert left == [v] + rest && WorkerOk(c, c.workers[w]);
    var fwd' := ReleaseIs(c, w, u, v, rest, fwd);
    ReleaseAll(c, Step(c, w), w, u, v, rest, fwd, fwd');
  }

  lemma ReleaseAll(c: State, c': State, w: nat, u: nat, v: nat, rest: seq<nat>, fwd: Link, fwd': Link)
    requires Ok(c) && w < |c.workers| && v < UNITS && !Awake(c, v) && v !in c.ran
    requires Released(c, c', w, u, v, rest, fwd') && c.workers[w] == Releasing(u, [v] + rest, fwd)
    requires c.refs[v] != 1 ==> fwd' == fwd && c'.ready == c.ready
    requires c.refs[v] == 1 ==> if fwd == Null then fwd' == To(v) && c'.ready == c.ready
                                else fwd' == fwd && c'.ready == [v] + c.ready
    requires v !in rest && Tail(rest, Outs(u)) && u in c.counted && u in Open(c.released, v)
    ensures Ok(c')
  {
    ReleaseCounts(c, c', w, u, v, rest, fwd');
    ReleaseWorkers(c, c', w, u, v, rest, fwd, fwd');
    ReleaseEdges(c, c', w, u, v, rest, fwd, fwd');
    ReleasePlaces(c, c', w, u, v, rest, fwd, fwd');
    CountsStay(c, c', w);
  }

  lemma StepKeeps(c: State, w: nat)
    requires Ok(c) && w < |c.workers|
    ensures Ok(Step(c, w))
    ensures c.workers[w].Holding? ==> Runnable(c.ran, c.workers[w].u)
  {
    match c.workers[w]
    case Top(fwd) => TestKeeps(c, w, fwd);
    case Fetching(fwd) =>
      if fwd == Null && c.ready != [] {
        TakeKeeps(c, w);
      } else {
        FetchKeeps(c, w, fwd);
      }
    case Holding(u) => RunKeeps(c, w, u);
    case Ran(u) => CountKeeps(c, w, u);
    case Releasing(u, left, fwd) =>
      if left == [] {
        DoneKeeps(c, w, u, fwd);
      } else {
        ReleaseKeeps(c, w, u, left, fwd);
      }
    case Left =>
  }

  // ---------------------------------------------------------------- no stall, and everybody leaves

  /** What has been done so far; no step undoes any of it. */
  function Work(c: State): nat {
    |c.ran| + |c.counted| + |c.released|
  }

  /** `k` steps of worker `w` with nobody else moving. */
  function Solo(c: State, w: nat, k: nat): State
    requires w < |c.workers| && |c.refs| == UNITS
    decreases k
  {
    if k == 0 then c else Solo(Step(c, w), w, k - 1)
  }

  /** The worker has something in hand, or will find something in the list. */
  ghost predicate Useful(c: State, w: Worker) {
    match w
    case Top(fwd) => fwd != Null || c.ready != []
    case Fetching(fwd) => fwd != Null || c.ready != []
    case Releasing(_, left, fwd) => left != [] || fwd != Null || c.ready != []
    case Left => false
    case _ => true
  }

  function Rank(w: Worker): nat {
    match w
    case Top(_) => 3
    case Fetching(_) => 2
    case Releasing(_, left, _) => if left == [] then 4 else 1
    case _ => 1
  }

  lemma SoloMore(c: State, w: nat, k: nat)
    requires w < |c.workers| && |c.refs| == UNITS
    ensures Solo(c, w, k + 1) == Solo(Step(c, w), w, k) && Solo(c, w, 0) == c
  {
  }

  lemma RunWorks(c: State, w: nat, u: nat)
    requires Ok(c) && w < |c.workers| && c.workers[w] == Holding(u)
    ensures Work(Step(c, w)) > Work(c)
  {
    WaitsAwake(c, w, u);
  }

  lemma CountWorks(c: State, w: nat, u: nat)
    requires Ok(c) && w < |c.workers| && c.workers[w] == Ran(u)
    ensures Work(Step(c, w)) > Work(c)
  {
    assert WorkerOk(c, c.workers[w]);
  }

  /** The step that runs, counts or releases. */
  lemma StepWorks(c: State, w: nat, worker: Worker)
    requires Ok(c) && w < |c.workers| && worker == c.workers[w] && Useful(c, worker) && Rank(worker) == 1
    ensures Work(Step(c, w)) > Work(c)
  {
    if worker.Holding? {
      RunWorks(c, w, worker.u);
    } else if worker.Ran? {
      CountWorks(c, w, worker.u);
    } else {
      assert worker.left == [worker.left[0]] + worker.left[1..];
      ReleaseWorks(c, w, worker.u, worker.left[0], worker.left[1..], worker.fwd);
    }
  }

  lemma ReleaseWorks(c: State, w: nat, u: nat, v: nat, rest: seq<nat>, fwd: Link)
    requires Ok(c) && w < |c.workers| && c.workers[w] == Releasing(u, [v] + rest, fwd)
    ensures Work(Step(c, w)) > Work(c)
  {
    ReleaseFinds(c, w, u, [v] + rest, fwd);
    var fwd' := ReleaseIs(c, w, u, v, rest, fwd);
    assert (u, v) !in c.released;
  }

  /** The steps that only get nearer to it. */
  lemma StepNears(c: State, w: nat)
    requires Ok(c) && w < |c.workers| && c.pending > 0 && Useful(c, c.workers[w]) && Rank(c.workers[w]) > 1
    ensures Work(Step(c, w)) == Work(c) && Step(c, w).pending == c.pending
    ensures Useful(Step(c, w), Step(c, w).workers[w]) && Rank(Step(c, w).workers[w]) < Rank(c.workers[w])
  {
  }

  lemma {:induction false} SoloAdvances(c: State, w: nat) returns (k: nat)
    requires Ok(c) && w < |c.workers| && c.pending > 0 && Useful(c, c.workers[w])
    ensures 1 <= k <= Rank(c.workers[w]) && Work(Solo(c, w, k)) > Work(c)
    decreases Rank(c.workers[w])
  {
    k := 0;
    StepKeeps(c, w);
    if Rank(c.workers[w]) == 1 {
      StepWorks(c, w, c.workers[w]);
      SoloMore(Step(c, w), w, 0);
    } else {
      StepNears(c, w);
      k := SoloAdvances(Step(c, w), w);
    }
    SoloMore(c, w, k);
    k := k + 1;
  }

  lemma Uncounted(c: State, v: nat)
    requires Histories(c) && v < UNITS && v !in c.counted
    ensures c.pending > 0
  {
    FewerThan(c.counted, UNITS);
    if c.pending == 0 {
      AllCounted(c);
    }
  }

  lemma NobodyLeft(c: State, w: nat)
    requires Ok(c) && w < |c.workers| && c.pending > 0
    ensures c.workers[w] != Left
  {
    assert WorkerOk(c, c.workers[w]);
  }

  lemma AwakeIsUseful(c: State, v: nat) returns (w: nat)
    requires Ok(c) && Awake(c, v) && c.ready == []
    ensures w < |c.workers| && Useful(c, c.workers[w])
  {
    assert Has(c, v);
    w :| w < |c.workers| && Waits(c.workers[w], v);
  }

  lemma RanIsUseful(c: State, v: nat) returns (w: nat)
    requires Ok(c) && v in c.ran && v !in c.counted
    ensures w < |c.workers| && Useful(c, c.workers[w])
  {
    assert HasRan(c, v);
    w :| w < |c.workers| && c.workers[w] == Ran(v);
  }

  lemma EdgeIsUseful(c: State, p: nat, v: nat) returns (w: nat)
    requires Ok(c) && p in c.counted && p in Open(c.released, v)
    ensures w < |c.workers| && Useful(c, c.workers[w])
  {
    assert HasEdge(c, p, v);
    w :| w < |c.workers| && Releases(c.workers[w], p, v);
  }

  /** A unit that waits does so for a unit before it. */
  lemma WaitsForSome(c: State, v: nat) returns (p: nat)
    requires Ok(c) && v < UNITS && c.refs[v] != 0
    ensures p in Open(c.released, v) && p < v
  {
    assert c.refs[v] == |Open(c.released, v)|;
    p :| p in Open(c.released, v);
  }

  /** As long as a unit has not been counted, there is something to do: walk back to a unit that waits for nothing. */
  lemma {:induction false} SomethingToDo(c: State, v: nat) returns (w: nat)
    requires Ok(c) && v < UNITS && v !in c.counted && c.pending > 0 && |c.workers| > 0
    ensures w < |c.workers| && Useful(c, c.workers[w])
    decreases v
  {
    if c.ready != [] {
      w := 0;
      NobodyLeft(c, 0);
    } else if v in c.ran {
      w := RanIsUseful(c, v);
    } else if c.refs[v] == 0 {
      w := AwakeIsUseful(c, v);
    } else {
      var p := WaitsForSome(c, v);
      if p in c.counted {
        w := EdgeIsUseful(c, p, v);
      } else {
        w := SomethingToDo(c, p);
      }
    }
  }

  /** While units remain, some worker on its own runs, counts or releases something within four steps. */
  lemma NoStall(c: State) returns (w: nat, k: nat)
    requires Ok(c) && c.pending > 0 && |c.workers| > 0
    ensures w < |c.workers| && 1 <= k <= 4 && Work(Solo(c, w, k)) > Work(c)
  {
    var v := FirstUncounted(c);
    w := SomethingToDo(c, v);
    k := SoloAdvances(c, w);
  }

  lemma FirstUncounted(c: State) returns (v: nat)
    requires Histories(c) && c.pending > 0
    ensures v < UNITS && v !in c.counted
  {
    if forall v: nat :: v < UNITS ==> v in c.counted {
      FullCount(c.counted, UNITS);
    }
    v :| v < UNITS && v !in c.counted;
  }

  lemma FullCount(s: set<nat>, n: nat)
    requires forall u :: u in s ==> u < n
    requires forall u: nat :: u < n ==> u in s
    ensures |s| == n
  {
    assert s == UpTo(n);
  }

  /** Whoever has something to do has it because a unit is not counted yet. */
  lemma UsefulPending(c: State, w: nat)
    requires Ok(c) && w < |c.workers| && Useful(c, c.workers[w])
    ensures c.pending > 0
  {
    assert WorkerOk(c, c.workers[w]);
    if c.ready != [] {
      assert c.ready[0] in c.ready && Awake(c, c.ready[0]);
      Uncounted(c, c.ready[0]);
    } else if c.workers[w].Ran? {
      Uncounted(c, c.workers[w].u);
    } else if c.workers[w].Releasing? && c.workers[w].left != [] {
      ReleaseFinds(c, w, c.workers[w].u, c.workers[w].left, c.workers[w].fwd);
      Uncounted(c, c.workers[w].left[0]);
    } else {
      var v := if c.workers[w].Holding? then c.workers[w].u else c.workers[w].fwd.unit;
      WaitsAwake(c, w, v);
      Uncounted(c, v);
    }
  }

  /** When nothing remains, a worker is back at the loop test or out of the loop after one step of its own; from the
      loop test it leaves. */
  lemma DoneLeaves(c: State, w: nat)
    requires Ok(c) && c.pending == 0 && w < |c.workers|
    ensures Step(c, w).pending == 0 && (Step(c, w).workers[w] == Left || Step(c, w).workers[w] == Top(Null))
    ensures c.workers[w] == Top(Null) ==> Step(c, w).workers[w] == Left
  {
    if Useful(c, c.workers[w]) {
      UsefulPending(c, w);
    }
  }

  // ---------------------------------------------------------------- whole runs

  /** The control state with the two buffers and the order in which units have run. */
  datatype System = System(c: State, mem: Mem, order: seq<nat>)

  /** One step of worker `w`; the step that runs a unit has its effect on the buffers. */
  function Next(n: nat, sys: System, w: nat): System {
    if w < |sys.c.workers| && |sys.c.refs| == UNITS then
      var worker, c' := sys.c.workers[w], Step(sys.c, w);
      if worker.Holding? && worker.u < UNITS then
        System(c', RunUnit(n, worker.u, sys.mem), sys.order + [worker.u])
      else sys.(c := c')
    else sys
  }

  /** A task of size `n`. `schedule` says which worker moves; the newest step is last. */
  function Execution(n: nat, a: seq<int>, t: seq<int>, width: nat, schedule: seq<nat>): System {
    if schedule == [] then System(Begin(width), InitMem(n, a, t), [])
    else
      var last := |schedule| - 1;
      Next(n, Execution(n, a, t, width, schedule[..last]), schedule[last])
  }

  /** Every unit in the list is there once, behind the units it depends on. */
  ghost predicate OnceInOrder(order: seq<nat>) {
    var holds :=
      && (forall i, j :: 0 <= i < j < |order| ==> order[i] != order[j])
      && (forall i, p :: 0 <= i < |order| && p in Deps(order[i]) ==> p in order[..i]);
    holds
  }

  /** What holds of the control state alone, whatever the size of the task. */
  ghost predicate ControlOk(sys: System) {
    var holds := Ok(sys.c) && OnceInOrder(sys.order) && (forall u :: u in sys.c.ran <==> u in sys.order);
    holds
  }

  ghost predicate SystemOk(lay: Layout, sys: System) {
    var holds := ControlOk(sys) && Inv(lay, sys.mem, sys.c.ran);
    holds
  }

  lemma OrderGrows(order: seq<nat>, ran: set<nat>, u: nat)
    requires OnceInOrder(order) && (forall x :: x in ran <==> x in order) && Runnable(ran, u)
    ensures OnceInOrder(order + [u]) && forall x :: x in ran + {u} <==> x in order + [u]
  {
    var order' := order + [u];
    forall i, p | 0 <= i < |order'| && p in Deps(order'[i])
      ensures p in order'[..i]
    {
      assert order'[..i] == order[..i];
      if i == |order| {
        assert order[..i] == order;
      }
    }
  }

  lemma RanIs(c: State, w: nat)
    requires w < |c.workers| && |c.refs| == UNITS
    ensures Step(c, w).ran == if c.workers[w].Holding? then c.ran + {c.workers[w].u} else c.ran
  {
  }

  lemma NextControl(n: nat, sys: System, w: nat)
    requires ControlOk(sys)
    ensures ControlOk(Next(n, sys, w))
  {
    if w < |sys.c.workers| {
      StepKeeps(sys.c, w);
      RanIs(sys.c, w);
      if sys.c.workers[w].Holding? {
        OrderGrows(sys.order, sys.c.ran, sys.c.workers[w].u);
      }
    }
  }

  lemma NextKeeps(e: nat, a: seq<int>, lay: Layout, sys: System, w: nat)
    requires Task(e, a, lay) && SystemOk(lay, sys)
    ensures SystemOk(lay, Next(8 * e, sys, w))
  {
    NextControl(8 * e, sys, w);
    if w < |sys.c.workers| {
      StepKeeps(sys.c, w);
      RanIs(sys.c, w);
      if sys.c.workers[w].Holding? {
        RunKeepsInv(e, a, lay, sys.mem, sys.c.ran, sys.c.workers[w].u);
      }
    }
  }

  lemma {:induction false} ExecutionControl(n: nat, a: seq<int>, t: seq<int>, width: nat, schedule: seq<nat>)
    ensures ControlOk(Execution(n, a, t, width, schedule))
    decreases |schedule|
  {
    if schedule == [] {
      BeginOk(width);
    } else {
      var last := |schedule| - 1;
      ExecutionControl(n, a, t, width, schedule[..last]);
      NextControl(n, Execution(n, a, t, width, schedule[..last]), schedule[last]);
    }
  }

  lemma BeginSystem(e: nat, a: seq<int>, t: seq<int>, lay: Layout, width: nat)
    requires Task(e, a, lay) && |t| == |a|
    ensures SystemOk(lay, System(Begin(width), InitMem(8 * e, a, t), []))
  {
    BeginOk(width);
    InitInv(e, a, t, lay);
  }

  lemma {:induction false} ExecutionOk(e: nat, a: seq<int>, t: seq<int>, lay: Layout, width: nat, schedule: seq<nat>)
    requires Task(e, a, lay) && |t| == |a|
    ensures SystemOk(lay, Execution(8 * e, a, t, width, schedule))
    decreases |schedule|
  {
    if schedule == [] {
      BeginSystem(e, a, t, lay, width);
    } else {
      var last := |schedule| - 1;
      var before := Execution(8 * e, a, t, width, schedule[..last]);
      ExecutionOk(e, a, t, lay, width, schedule[..last]);
      NextKeeps(e, a, lay, before, schedule[last]);
    }
  }

  // ---------------------------------------------------------------- what every run gives

  /** Every run, for every size: a unit runs at most once and only behind the units it waits for. */
  lemma RunsOnceInOrder(n: nat, a: seq<int>, t: seq<int>, width: nat, schedule: seq<nat>)
    ensures OnceInOrder(Execution(n, a, t, width, schedule).order)
  {
    ExecutionControl(n, a, t, width, schedule);
  }

  /** When a worker has left, all units have run, whatever the size. */
  lemma LeavingMeansAll(n: nat, a: seq<int>, t: seq<int>, width: nat, schedule: seq<nat>, w: nat)
    requires var sys := Execution(n, a, t, width, schedule); w < |sys.c.workers| && sys.c.workers[w] == Left
    ensures var sys := Execution(n, a, t, width, schedule);
            AllUnits(sys.c.ran) && OnceInOrder(sys.order) && forall u: nat :: u in sys.order <==> u < UNITS
  {
    var sys := Execution(n, a, t, width, schedule);
    ExecutionControl(n, a, t, width, schedule);
    assert WorkerOk(sys.c, sys.c.workers[w]);
    AllCounted(sys.c);
    forall u: nat
      ensures u in sys.order <==> u < UNITS
    {
      assert u in sys.order <==> u in sys.c.ran;
    }
  }

  lemma HeldApart(c: State, w: nat, x: nat)
    requires Ok(c) && w < |c.workers| && x < |c.workers| && w != x && c.workers[w].Holding? && c.workers[x].Holding?
    ensures c.workers[w].u != c.workers[x].u && Runnable(c.ran, c.workers[w].u) && Runnable(c.ran, c.workers[x].u)
  {
    WaitsAwake(c, w, c.workers[w].u);
    WaitsAwake(c, x, c.workers[x].u);
    AwakeRunnable(c, c.workers[w].u);
    AwakeRunnable(c, c.workers[x].u);
  }

  /** Every run with a size divisible by 8: when a worker has left, all units have run, once each, and `arr` is the
      sorted input. */
  lemma LeavingMeansSorted(n: nat, a: seq<int>, t: seq<int>, width: nat, schedule: seq<nat>, w: nat)
    requires n >= 8 && n % 8 == 0 && |a| == |t| == n
    requires var sys := Execution(n, a, t, width, schedule); w < |sys.c.workers| && sys.c.workers[w] == Left
    ensures var sys := Execution(n, a, t, width, schedule);
            && Sorted(sys.mem.arr) && multiset(sys.mem.arr) == multiset(a)
            && (forall u: nat :: u < UNITS ==> u in sys.order) && OnceInOrder(sys.order)
  {
    var e := n / 8;
    var lay := LayoutOf(e, a);
    var sys := Execution(n, a, t, width, schedule);
    ExecutionOk(e, a, t, lay, width, schedule);
    LeavingMeansAll(n, a, t, width, schedule, w);
    AllRunSorts(e, a, lay, sys.mem, sys.c.ran);
  }
}
