/** Every step keeps `refcount` equal to the number of incoming edges not yet released.

    Only three kinds of step matter. Making an edge adds one to the count of its target and to the edges it waits for.
    Pushing a task is allowed only for tasks without incoming edges, which wait for nothing. Releasing an edge during a
    commit takes away exactly that edge, and the release that leaves nothing to wait for is the one that finds the
    count at one and wakes the task. All other steps leave the graph and the records of releases as they are, and a
    frame lemma covers them. */
module RuntimeCounted {
  import opened Runtime
  import opened RuntimeInvariant

  predicate SameInGraph(a: Task, b: Task) {
    && a.out == b.out && a.released == b.released && a.waiting == b.waiting && a.refcount == b.refcount
    && a.indegree == b.indegree && (a.phase.Created? == b.phase.Created?)
  }

  /** Steps that neither release an edge nor touch the graph. */
  lemma GraphFrame(s: State, s': State)
    requires Counted(s) && |s'.tasks| == |s.tasks|
    requires forall t: nat :: t < |s.tasks| ==> SameInGraph(s.tasks[t], s'.tasks[t])
    ensures Counted(s')
  {
    forall t: nat | t < |s'.tasks|
      ensures RefOk(s', t)
    {
      assert RefOk(s, t);
      assert SameInGraph(s.tasks[t], s'.tasks[t]);
      assert forall e :: e in s.tasks[t].waiting ==> EdgeAt(s, e.0, e.1, t);
    }
    forall a: nat, k: nat | a < |s'.tasks| && k < |s'.tasks[a].out|
      ensures EdgeOk(s', a, k)
    {
      assert SameInGraph(s.tasks[a], s'.tasks[a]);
      assert EdgeOk(s, a, k);
    }
  }

  lemma KeepsCountedCreate(s: State, kind: Kind, critical: bool, p: nat)
    requires Counted(s) && p < |s.pool|
    ensures Counted(ApplyCreate(s, kind, critical, p))
  {
    var s' := ApplyCreate(s, kind, critical, p);
    forall t: nat | t < |s'.tasks|
      ensures RefOk(s', t)
    {
      if t < |s.tasks| {
        assert RefOk(s, t);
        assert forall e :: e in s.tasks[t].waiting ==> EdgeAt(s, e.0, e.1, t);
      }
    }
    forall a: nat, k: nat | a < |s'.tasks| && k < |s'.tasks[a].out|
      ensures EdgeOk(s', a, k)
    {
      assert EdgeOk(s, a, k);
    }
  }

  /** A task that is waited for by nobody becomes ready. */
  lemma KeepsCountedPush(s: State, t: nat, q: nat)
    requires Counted(s) && t < |s.tasks| && q < |s.ready| && s.tasks[t].indegree == 0
    ensures Counted(ApplyReady(s, t, q))
  {
    var s' := ApplyReady(s, t, q);
    forall x: nat | x < |s'.tasks|
      ensures RefOk(s', x)
    {
      assert RefOk(s, x);
      assert forall e :: e in s.tasks[x].waiting ==> EdgeAt(s, e.0, e.1, x);
    }
    forall a: nat, k: nat | a < |s'.tasks| && k < |s'.tasks[a].out|
      ensures EdgeOk(s', a, k)
    {
      assert EdgeOk(s, a, k);
    }
  }

  lemma KeepsCountedEdge(s: State, a: nat, b: nat)
    requires Counted(s) && a < |s.tasks| && b < |s.tasks| && a != b
    requires s.tasks[b].phase.Created? && s.tasks[a].released == 0
    ensures Counted(ApplyEdge(s, a, b))
  {
    var s' := ApplyEdge(s, a, b);
    forall t: nat | t < |s'.tasks|
      ensures RefOk(s', t)
    {
      EdgeRef(s, a, b, t);
    }
    forall c: nat, k: nat | c < |s'.tasks| && k < |s'.tasks[c].out|
      ensures EdgeOk(s', c, k)
    {
      if k < |s.tasks[c].out| {
        assert EdgeOk(s, c, k);
      }
    }
  }

  lemma EdgeRef(s: State, a: nat, b: nat, t: nat)
    requires Counted(s) && a < |s.tasks| && b < |s.tasks| && a != b && t < |s.tasks| && s.tasks[b].phase.Created?
    ensures RefOk(ApplyEdge(s, a, b), t)
  {
    var s', e := ApplyEdge(s, a, b), (a, |s.tasks[a].out|);
    assert RefOk(s, t);
    assert !EdgeAt(s, a, |s.tasks[a].out|, b);
    assert forall f :: f in s.tasks[t].waiting ==> EdgeAt(s, f.0, f.1, t);
    assert t == b ==> e !in s.tasks[b].waiting;
    assert forall f :: f in s'.tasks[t].waiting ==> f in s.tasks[t].waiting || (f == e && t == b);
    assert EdgeAt(s', a, |s.tasks[a].out|, b);
  }

  /** Dropping edge `k` of `t` removes exactly that edge from what its target waits for. */
  lemma KeepsCountedDrop(s: State, w: nat)
    requires Located(s) && Counted(s) && At(s, w) && s.pc[w].Commit? && s.pc[w].k < |s.tasks[s.pc[w].t].out|
    ensures Counted(ApplyDrop(s, w))
  {
    DropEffect(s, w);
    var s', t, k := ApplyDrop(s, w), s.pc[w].t, s.pc[w].k;
    var u := s.tasks[t].out[k];
    forall x: nat | x < |s'.tasks|
      ensures RefOk(s', x)
    {
      assert RefOk(s, x);
      DropRef(s, s', w, t, k, u, x);
    }
    forall a: nat, j: nat | a < |s'.tasks| && j < |s'.tasks[a].out|
      ensures EdgeOk(s', a, j)
    {
      assert EdgeOk(s, a, j);
      DropEdge(s, s', w, t, k, u, a, j);
    }
  }

  lemma DropEdge(s: State, s': State, w: nat, t: nat, k: nat, u: nat, a: nat, j: nat)
    requires Dropped(s, s', w, t, k, u) && s.tasks[t].released == k
    requires a < |s.tasks| && j < |s.tasks[a].out| && EdgeOk(s, a, j)
    ensures EdgeOk(s', a, j)
  {
  }

  lemma DropRef(s: State, s': State, w: nat, t: nat, k: nat, u: nat, x: nat)
    requires Dropped(s, s', w, t, k, u) && (t, k) in s.tasks[u].waiting && s.tasks[u].phase.Created?
    requires x < |s.tasks| && RefOk(s, x)
    ensures RefOk(s', x)
  {
    assert forall e :: e in s.tasks[x].waiting ==> EdgeAt(s, e.0, e.1, x) && EdgeAt(s', e.0, e.1, x);
    if x == u {
      LastEdge(s.tasks[u].waiting, (t, k));
    }
  }

  lemma LastEdge(waiting: set<(nat, nat)>, e: (nat, nat))
    requires e in waiting
    ensures |waiting - {e}| == |waiting| - 1
    ensures waiting - {e} == {} <==> |waiting| == 1
  {
    if |waiting| == 1 {
      assert |waiting - {e}| == 0;
    }
  }
}
