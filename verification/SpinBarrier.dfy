/** The reusable spin barrier: `wait` as five atomic steps, for any threads and rounds. */
module SpinBarrier {
  // `step` is an unsigned 32-bit counter and wraps. `rounds`, `winners` and the fields `entered` and `results` of a
  // thread are bookkeeping of the model; no guard reads them.


  const WRAP: nat := 0x1_0000_0000

  /** Where a thread is inside `wait`. */
  datatype Pc =
    | Outside
    | Loaded(lstep: nat)
    | Spinning(lstep: nat)
    | Resetting
    | Releasing

  datatype Thread = Thread(pc: Pc, entered: nat, results: seq<bool>)

  datatype State = State(step: nat, nwait: nat, threads: seq<Thread>, rounds: nat, winners: seq<nat>)

  datatype Label = Load(i: nat) | Add(i: nat) | Reset(i: nat) | Release(i: nat) | See(i: nat)

  function Init(n: nat): State {
    State(0, 0, seq(n, _ => Thread(Outside, 0, [])), 0, [])
  }

  predicate Enabled(s: State, l: Label) {
    && l.i < |s.threads|
    && match l
       case Load(i) => s.threads[i].pc.Outside?
       case Add(i) => s.threads[i].pc.Loaded?
       case Reset(i) => s.threads[i].pc.Resetting?
       case Release(i) => s.threads[i].pc.Releasing?
       case See(i) => s.threads[i].pc.Spinning? && s.step != s.threads[i].pc.lstep
  }

  function Apply(s: State, l: Label): State
    requires Enabled(s, l)
  {
    var t := s.threads[l.i];
    match l
    case Load(i) => s.(threads := s.threads[i := t.(pc := Loaded(s.step))])
    case Add(i) =>
      var last := s.nwait == |s.threads| - 1;
      s.(nwait := s.nwait + 1,
         threads := s.threads[i := t.(pc := if last then Resetting else Spinning(t.pc.lstep),
                                      entered := t.entered + 1)])
    case Reset(i) => s.(nwait := 0, threads := s.threads[i := t.(pc := Releasing)])
    case Release(i) =>
      s.(step := (s.step + 1) % WRAP, rounds := s.rounds + 1, winners := s.winners + [i],
         threads := s.threads[i := t.(pc := Outside, results := t.results + [true])])
    case See(i) => s.(threads := s.threads[i := t.(pc := Outside, results := t.results + [false])])
  }

  /** The threads that have entered the round in progress. */
  ghost function Entered(s: State): set<nat> {
    set i: nat | i < |s.threads| && s.threads[i].entered == s.rounds + 1
  }

  predicate Last(p: Pc) {
    p.Resetting? || p.Releasing?
  }

  ghost predicate ThreadOk(s: State, i: nat)
    requires i < |s.threads|
  {
    var t := s.threads[i];
    var left := |t.results|;
    && (match t.pc
        case Outside => t.entered == s.rounds && left == s.rounds
        case Loaded(l) => t.entered == s.rounds && left == s.rounds && l == s.rounds % WRAP
        case Spinning(l) => left <= s.rounds <= left + 1 && t.entered == left + 1 && l == left % WRAP
        case Resetting => t.entered == s.rounds + 1 && left == s.rounds && s.nwait == |s.threads|
        case Releasing => t.entered == s.rounds + 1 && left == s.rounds && s.nwait == 0)
    && left <= |s.winners| && (forall r :: 0 <= r < left ==> (t.results[r] <==> s.winners[r] == i))
    && (t.pc.Spinning? && left < |s.winners| ==> s.winners[left] != i)
  }

  ghost predicate Inv(s: State) {
    && |s.winners| == s.rounds && s.step == s.rounds % WRAP
    && (forall i: nat :: i < |s.threads| ==> ThreadOk(s, i))
    && (forall i: nat, j: nat ::
        i < |s.threads| && j < |s.threads| && Last(s.threads[i].pc) && Last(s.threads[j].pc) ==> i == j)
    && (forall w :: 0 <= w < |s.winners| ==> s.winners[w] < |s.threads|)
    && ((forall i: nat :: i < |s.threads| ==> !s.threads[i].pc.Releasing?) ==> s.nwait == |Entered(s)|)
    && (forall i: nat :: i < |s.threads| && Last(s.threads[i].pc) ==> |Entered(s)| == |s.threads|)
    && (|Entered(s)| == |s.threads| > 0 ==> exists i: nat :: i < |s.threads| && Last(s.threads[i].pc))
  }

  ghost function Below(n: nat): (r: set<nat>)
    ensures |r| == n && forall i: nat :: i in r <==> i < n
  {
    if n == 0 then {} else Below(n - 1) + {n - 1}
  }

  lemma EnteredBound(s: State)
    ensures |Entered(s)| <= |s.threads|
    ensures |Entered(s)| == |s.threads| <==> forall i: nat :: i < |s.threads| ==> s.threads[i].entered == s.rounds + 1
  {
    var all := Below(|s.threads|);
    assert Entered(s) <= all;
    assert all == Entered(s) + (all - Entered(s));
    assert |all| == |Entered(s)| + |all - Entered(s)|;
    if |Entered(s)| == |s.threads| {
      assert all - Entered(s) == {};
      forall i: nat | i < |s.threads|
        ensures s.threads[i].entered == s.rounds + 1
      {
        assert i in all;
        assert i !in all - Entered(s);
      }
    } else {
      var i :| i in all - Entered(s);
    }
  }

  lemma InitInv(n: nat)
    ensures Inv(Init(n))
  {
    EnteredBound(Init(n));
    assert Entered(Init(n)) == {};
  }

  lemma LoadKeeps(s: State, i: nat)
    requires Inv(s) && Enabled(s, Load(i))
    ensures Inv(Apply(s, Load(i)))
  {
    var s' := Apply(s, Load(i));
    assert forall j: nat :: j < |s.threads| ==> ThreadOk(s, j);
    assert Entered(s') == Entered(s);
    forall j: nat | j < |s'.threads|
      ensures ThreadOk(s', j)
    {
      assert ThreadOk(s, j);
    }
    if x: nat :| x < |s.threads| && Last(s.threads[x].pc) {
      assert Last(s'.threads[x].pc);
    }
    if x: nat :| x < |s.threads| && s.threads[x].pc.Releasing? {
      assert s'.threads[x].pc.Releasing?;
    }
  }

  lemma SeeKeeps(s: State, i: nat)
    requires Inv(s) && Enabled(s, See(i))
    ensures Inv(Apply(s, See(i)))
  {
    var s' := Apply(s, See(i));
    assert ThreadOk(s, i);
    assert Entered(s') == Entered(s);
    forall j: nat | j < |s'.threads|
      ensures ThreadOk(s', j)
    {
      assert ThreadOk(s, j);
    }
    if x: nat :| x < |s.threads| && Last(s.threads[x].pc) {
      assert Last(s'.threads[x].pc);
    }
    if x: nat :| x < |s.threads| && s.threads[x].pc.Releasing? {
      assert s'.threads[x].pc.Releasing?;
    }
  }

  /** A thread that has not entered the round keeps it open: nobody can be the last one yet. */
  lemma NobodyLast(s: State, i: nat)
    requires Inv(s) && i < |s.threads| && s.threads[i].entered == s.rounds
    ensures |Entered(s)| < |s.threads| && s.nwait == |Entered(s)|
    ensures forall j: nat :: j < |s.threads| ==> !Last(s.threads[j].pc)
  {
    EnteredBound(s);
  }

  lemma AddKeeps(s: State, i: nat)
    requires Inv(s) && Enabled(s, Add(i))
    ensures Inv(Apply(s, Add(i)))
  {
    var s' := Apply(s, Add(i));
    assert ThreadOk(s, i);
    NobodyLast(s, i);
    assert i !in Entered(s);
    assert Entered(s') == Entered(s) + {i};
    forall j: nat | j < |s'.threads|
      ensures ThreadOk(s', j)
    {
      assert ThreadOk(s, j);
    }
    assert s'.nwait == |s'.threads| ==> Last(s'.threads[i].pc);
  }

  lemma ResetKeeps(s: State, i: nat)
    requires Inv(s) && Enabled(s, Reset(i))
    ensures Inv(Apply(s, Reset(i)))
  {
    var s' := Apply(s, Reset(i));
    assert ThreadOk(s, i);
    assert Entered(s') == Entered(s);
    forall j: nat | j < |s'.threads|
      ensures ThreadOk(s', j)
    {
      assert ThreadOk(s, j);
      assert j != i ==> !Last(s.threads[j].pc);
    }
    assert s'.threads[i].pc.Releasing? && Last(s'.threads[i].pc);
  }

  lemma ReleaseKeeps(s: State, i: nat)
    requires Inv(s) && Enabled(s, Release(i))
    ensures Inv(Apply(s, Release(i)))
  {
    var s' := Apply(s, Release(i));
    assert ThreadOk(s, i);
    assert Last(s.threads[i].pc);
    EnteredBound(s);
    forall j: nat | j < |s'.threads|
      ensures ThreadOk(s', j) && !Last(s'.threads[j].pc) && s'.threads[j].entered == s'.rounds
    {
      assert ThreadOk(s, j);
      assert j != i ==> !Last(s.threads[j].pc);
      assert forall r :: 0 <= r < |s.winners| ==> s'.winners[r] == s.winners[r];
    }
    assert Entered(s') == {};
    NextStep(s.rounds);
  }

  lemma NextStep(r: nat)
    ensures (r % WRAP + 1) % WRAP == (r + 1) % WRAP
    ensures r % WRAP != (r + 1) % WRAP
  {
  }

  lemma StepKeepsInv(s: State, l: Label)
    requires Inv(s) && Enabled(s, l)
    ensures Inv(Apply(s, l))
  {
    match l {
      case Load(i) => LoadKeeps(s, i);
      case Add(i) => AddKeeps(s, i);
      case Reset(i) => ResetKeeps(s, i);
      case Release(i) => ReleaseKeeps(s, i);
      case See(i) => SeeKeeps(s, i);
    }
  }

  predicate IsRun(s: State, run: seq<Label>)
    decreases |run|
  {
    run == [] || (Enabled(s, run[0]) && IsRun(Apply(s, run[0]), run[1..]))
  }

  function Final(s: State, run: seq<Label>): (f: State)
    requires IsRun(s, run)
    ensures |f.threads| == |s.threads|
    decreases |run|
  {
    if run == [] then s else Final(Apply(s, run[0]), run[1..])
  }

  lemma {:induction false} RunKeepsInv(s: State, run: seq<Label>)
    requires Inv(s) && IsRun(s, run)
    ensures Inv(Final(s, run))
    decreases |run|
  {
    if run != [] {
      StepKeepsInv(s, run[0]);
      RunKeepsInv(Apply(s, run[0]), run[1..]);
    }
  }

  /** In every run, no thread has left more rounds than any other thread has entered; the r-th `wait` of a thread
      returned true exactly when that thread is the one winner of round r; and a spinning thread can leave exactly
      when its round has been released, even though the counter it compares with wraps. */
  lemma BarrierSafety(n: nat, run: seq<Label>, i: nat, j: nat)
    requires IsRun(Init(n), run) && i < n && j < n
    ensures var f := Final(Init(n), run);
            && |f.threads[i].results| <= f.threads[j].entered
            && (forall r ::
                0 <= r < |f.threads[i].results| ==> r < |f.winners| && (f.threads[i].results[r] <==> f.winners[r] == i))
            && (forall r :: 0 <= r < |f.winners| ==> f.winners[r] < n)
            && (f.threads[i].pc.Spinning? ==>
                  (f.step != f.threads[i].pc.lstep <==> |f.winners| > |f.threads[i].results|))
  {
    InitInv(n);
    RunKeepsInv(Init(n), run);
    var f := Final(Init(n), run);
    assert ThreadOk(f, i);
    assert ThreadOk(f, j);
    if f.threads[i].pc.Spinning? {
      NextStep(|f.threads[i].results|);
    }
  }

  ghost predicate AllEntered(s: State) {
    forall i: nat :: i < |s.threads| ==> s.threads[i].entered == s.rounds + 1
  }

  /** Nobody is left behind: when every thread has entered the round in progress, one of them can move, and it
      opens the round. */
  lemma BarrierOpens(n: nat, run: seq<Label>)
    requires IsRun(Init(n), run) && n > 0
    requires AllEntered(Final(Init(n), run))
    ensures var f := Final(Init(n), run);
            exists i: nat :: i < n && (Enabled(f, Reset(i)) || Enabled(f, Release(i)))
  {
    InitInv(n);
    RunKeepsInv(Init(n), run);
    var f := Final(Init(n), run);
    assert |f.threads| == n;
    EnteredBound(f);
    var i: nat :| i < n && Last(f.threads[i].pc);
    assert Enabled(f, Reset(i)) || Enabled(f, Release(i));
  }
}
