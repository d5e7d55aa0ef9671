/** The task object itself: descriptions of its 13 units over two arrays, and what executing a unit does to them.

    The constructor writes the descriptions in quarters and eighths of the size. Three parameters of the merges are left
    open; the split unit of a group fills them in through pointers into the descriptions of its two merges. The
    contents of the object are the two arrays and these three parameters, which is the memory of the model, and the
    `switch` of the worker loop is its step. Each kernel is called on the arrays with the bounds of the description, so
    its own contract turns into what the model says about the unit. */
module MergeSortTask {
  import opened MergeLib
  import opened MergeSortUnits
  import opened MergeSortFootprints

  /** A unit of work. Positions count from the start of the two arrays; `inTmp` says which of them is read, the other
      one is written. A split unit knows the two merges whose parameters it completes. */
  datatype Unit =
    | SeqQuickUnit(low: int, high: int)
    | SeqMergeUnit(inTmp: bool, low1: int, high1: int, low2: int, high2: int, lowdest: int)
    | BinSplitUnit(inTmp: bool, regA: int, regB: int, size: int, target: int, lower: nat, upper: nat)

  function High2Of(d: Unit): int { if d.SeqMergeUnit? then d.high2 else -1 }
  function Low2Of(d: Unit): int { if d.SeqMergeUnit? then d.low2 else -1 }
  function DestOf(d: Unit): int { if d.SeqMergeUnit? then d.lowdest else -1 }

  function Params3(dow: seq<Unit>): (p: (seq<int>, seq<int>, seq<int>))
    ensures |p.0| == |p.1| == |p.2| == |dow|
    ensures forall u ::
            0 <= u < |dow| ==> p.0[u] == High2Of(dow[u]) && p.1[u] == Low2Of(dow[u]) && p.2[u] == DestOf(dow[u])
  {
    (seq(|dow|, u requires 0 <= u < |dow| => High2Of(dow[u])),
     seq(|dow|, u requires 0 <= u < |dow| => Low2Of(dow[u])),
     seq(|dow|, u requires 0 <= u < |dow| => DestOf(dow[u])))
  }

  /** The description is that of a unit with this job. */
  ghost predicate Describes(d: Unit, job: Job) {
    match job
    case Quicksort(low, high) => d == SeqQuickUnit(low, high)
    case Joining(g, _, low1, high1) =>
      d.SeqMergeUnit? && d.inTmp == (g == 2) && d.low1 == low1 && d.high1 == high1
    case Partition(g, s, p, n) =>
      Splits(d, g, s, p, n) && d.lower == LowUnit(g) && d.upper == UpUnit(g)
  }

  ghost predicate Splits(d: Unit, g: Group, s: nat, p: nat, n: nat) {
    var holds :=
      && d.BinSplitUnit? && d.inTmp == (g == 2) && d.regA + d.size / 4 == s && d.regB == p
      && d.regB + 2 * (d.size / 4) == n && d.target == d.regA;
    holds
  }

  ghost predicate AllDescribed(n: nat, dow: seq<Unit>) {
    var holds := |dow| == UNITS && forall u: nat :: u < UNITS ==> Describes(dow[u], JobOf(n, u));
    holds
  }

  /** The descriptions that the constructor writes for quarters of `q` elements. */
  function Written(n: nat, q: nat): seq<Unit> {
    [SeqQuickUnit(0, q - 1), SeqQuickUnit(q, 2 * q - 1), SeqQuickUnit(2 * q, 3 * q - 1), SeqQuickUnit(3 * q, n - 1),
     BinSplitUnit(false, 0, q, q * 2, 0, 6, 7), BinSplitUnit(false, 2 * q, 3 * q, n - q * 2, 2 * q, 8, 9),
     SeqMergeUnit(false, 0, q / 2 - 1, q, -1, 0), SeqMergeUnit(false, q / 2 + 1, q - 1, -1, 2 * q - 1, -1),
     SeqMergeUnit(false, 2 * q, 2 * q + q / 2 - 1, 3 * q, -1, 2 * q),
     SeqMergeUnit(false, 2 * q + q / 2 + 1, 3 * q - 1, -1, n - 1, -1),
     BinSplitUnit(true, 0, 2 * q, n, 0, 11, 12),
     SeqMergeUnit(true, 0, q - 1, 2 * q, -1, 0), SeqMergeUnit(true, q + 1, 2 * q - 1, -1, n - 1, -1)]
  }

  lemma SplitDescribed(n: nat, q: nat, z: Sizes, u: nat)
    requires (u == 4 || u == 5 || u == 10) && q == n / 4
    requires z.quarter == q && z.fourth0 == q * 2 / 4 && z.fourth1 == (n - q * 2) / 4
    ensures Describes(Written(n, q)[u], JobWith(n, z, u))
  {
  }

  lemma OtherDescribed(n: nat, q: nat, z: Sizes, u: nat)
    requires u < UNITS && u != 4 && u != 5 && u != 10 && z.quarter == q && z.half == q / 2
    ensures Describes(Written(n, q)[u], JobWith(n, z, u))
  {
  }

  lemma DescribedAt(n: nat, q: nat, u: nat)
    requires u < UNITS && q == n / 4
    ensures Describes(Written(n, q)[u], JobOf(n, u))
  {
    if u == 4 || u == 5 || u == 10 {
      SplitDescribed(n, q, SizesOf(n), u);
    } else {
      OtherDescribed(n, q, SizesOf(n), u);
    }
  }

  lemma StartsAsInit(n: nat, q: nat, a: seq<int>, t: seq<int>)
    requires q == n / 4
    ensures var p := Params3(Written(n, q)); Mem(a, t, p.0, p.1, p.2) == InitMem(n, a, t)
  {
    var w, init := Written(n, q), InitMem(n, a, t);
    forall u | 0 <= u < UNITS
      ensures High2Of(w[u]) == init.high2[u] && Low2Of(w[u]) == init.low2[u] && DestOf(w[u]) == init.dest[u]
    {
    }
    var p := Params3(w);
    assert p.0 == init.high2 && p.1 == init.low2 && p.2 == init.dest;
  }

  lemma Described(n: nat, q: nat, dow: seq<Unit>, a: seq<int>, t: seq<int>)
    requires q == n / 4 && dow == Written(n, q)
    ensures AllDescribed(n, dow)
    ensures var p := Params3(dow); Mem(a, t, p.0, p.1, p.2) == InitMem(n, a, t)
  {
    forall u: nat | u < UNITS
      ensures Describes(dow[u], JobOf(n, u))
    {
      DescribedAt(n, q, u);
    }
    StartsAsInit(n, q, a, t);
  }

  /** The ranges of a merge description lie inside arrays of size `n`. */
  ghost predicate InRange(d: Unit, n: nat) {
    var holds :=
      && d.SeqMergeUnit? && 0 <= d.low1 <= d.high1 + 1 <= n && 0 <= d.low2 <= d.high2 + 1 <= n
      && 0 <= d.lowdest && d.lowdest + (d.high1 + 1 - d.low1) + (d.high2 + 1 - d.low2) <= n;
    holds
  }

  /** What the three kinds of units make of the memory, with the ranges cut out. */
  ghost predicate SortsTo(mem: Mem, d: Unit, n: nat, goal: Mem) {
    var holds :=
      && Sized(mem, n) && d.SeqQuickUnit? && 0 <= d.low <= d.high + 1 <= n
      && var out := SortOf(mem.arr[d.low..d.high + 1]);
         d.low + |out| <= n && goal == mem.(arr := Write(mem.arr, d.low, out));
    holds
  }

  ghost predicate JoinsTo(mem: Mem, d: Unit, g: Group, n: nat, goal: Mem) {
    var holds :=
      && Sized(mem, n) && InRange(d, n) && d.inTmp == (g == 2)
      && var s := Source(mem, g);
         var out := Merge(s[d.low1..d.high1 + 1], s[d.low2..d.high2 + 1]);
         d.lowdest + |out| <= n && goal == SetTarget(mem, g, Write(Target(mem, g), d.lowdest, out));
    holds
  }

  /** The splitting element goes to its place in the target. */
  ghost predicate SplitsTo(mem: Mem, g: Group, n: nat, s: nat, r: nat, goal: Mem) {
    var holds :=
      && Sized(mem, n) && s < n && s + r < n
      && goal == SetTarget(mem, g, Write(Target(mem, g), s + r, [Source(mem, g)[s]]));
    holds
  }

  lemma QuicksortStored(job: Job, mem: Mem, n: nat, d: Unit)
    requires job.Quicksort? && InBounds(job, mem, n) && Describes(d, job)
    ensures SortsTo(mem, d, n, Do(job, mem))
  {
    SortLength(mem.arr[d.low..d.high + 1]);
  }

  lemma JoiningStored(job: Job, mem: Mem, n: nat, d: Unit)
    requires job.Joining? && InBounds(job, mem, n) && Describes(d, job)
    requires |mem.dest| == |mem.low2| == |mem.high2| == UNITS && job.u < UNITS
    requires d.lowdest == mem.dest[job.u] && d.low2 == mem.low2[job.u] && d.high2 == mem.high2[job.u]
    ensures JoinsTo(mem, d, job.g, n, Do(job, mem))
  {
    MergeLength(Source(mem, job.g)[d.low1..d.high1 + 1], Source(mem, job.g)[d.low2..d.high2 + 1]);
  }

  lemma PartitionStored(job: Job, mem: Mem, n: nat, d: Unit) returns (r: nat, mid: Mem, split: int, dest: int)
    requires job.Partition? && InBounds(job, mem, n) && Describes(d, job)
    ensures CanPlace(Source(mem, job.g), d, r) && SplitsTo(mem, job.g, n, job.s, r, mid)
    ensures |mid.high2| == |mid.low2| == |mid.dest| == UNITS
    ensures split == d.regB + r - 1 && dest == job.s + r + 1
    ensures Do(job, mem) == Handing(job.g, mid, split, dest)
  {
    var g, s, p, m := job.g, job.s, job.p, job.n;
    r := SplitCount(Source(mem, g)[s], Source(mem, g)[p..m]);
    mid := SetTarget(mem, g, Write(Target(mem, g), s + r, [Source(mem, g)[s]]));
    split, dest := p + r - 1, s + r + 1;
    PlaceFits(Source(mem, g), g, s, p, m, d, r);
    SplitHands(mem, g, s, p, m, r, mid, split, dest);
  }

  lemma SplitHands(mem: Mem, g: Group, s: nat, p: nat, m: nat, r: nat, mid: Mem, split: int, dest: int)
    requires s < p < m <= |Source(mem, g)| && |mem.high2| == |mem.low2| == |mem.dest| == UNITS
    requires r == SplitCount(Source(mem, g)[s], Source(mem, g)[p..m]) && s + r < |Target(mem, g)|
    requires mid == SetTarget(mem, g, Write(Target(mem, g), s + r, [Source(mem, g)[s]]))
    requires split == p + r - 1 && dest == s + r + 1
    ensures |mid.high2| == |mid.low2| == |mid.dest| == UNITS
    ensures SplitGroup(g, mem, s, p, m) == Handing(g, mid, split, dest)
  {
  }

  lemma PlaceFits(x: seq<int>, g: Group, s: nat, p: nat, m: nat, d: Unit, r: nat)
    requires Splits(d, g, s, p, m) && s < p < m <= |x| && r == SplitCount(x[s], x[p..m]) && s + r < |x|
    ensures CanPlace(x, d, r)
  {
  }

  lemma StoreOne(s: seq<int>, at: int, v: int)
    requires 0 <= at < |s|
    ensures s[at := v] == Write(s, at, [v])
  {
  }

  /** The descriptions after a split unit has completed those of the two merges of its group. */
  function Complete(dow: seq<Unit>, g: Group, split2: int, dest: int): (done: seq<Unit>)
    requires |dow| == UNITS && dow[LowUnit(g)].SeqMergeUnit? && dow[UpUnit(g)].SeqMergeUnit?
    ensures |done| == UNITS
  {
    dow[LowUnit(g) := dow[LowUnit(g)].(high2 := split2)]
       [UpUnit(g) := dow[UpUnit(g)].(low2 := split2 + 1, lowdest := dest)]
  }

  lemma Completed(n: nat, dow: seq<Unit>, g: Group, split2: int, dest: int)
    requires AllDescribed(n, dow)
    ensures dow[LowUnit(g)].SeqMergeUnit? && dow[UpUnit(g)].SeqMergeUnit?
    ensures AllDescribed(n, Complete(dow, g, split2, dest))
    ensures var p, q := Params3(dow), Params3(Complete(dow, g, split2, dest));
            && q.0 == p.0[LowUnit(g) := split2] && q.1 == p.1[UpUnit(g) := split2 + 1] && q.2 == p.2[UpUnit(g) := dest]
  {
    assert Describes(dow[LowUnit(g)], JobOf(n, LowUnit(g))) && Describes(dow[UpUnit(g)], JobOf(n, UpUnit(g)));
    var done := Complete(dow, g, split2, dest);
    forall u: nat | u < UNITS
      ensures Describes(done[u], JobOf(n, u))
    {
      assert Describes(dow[u], JobOf(n, u));
    }
  }

  method DescribeQuarters(dow: array<Unit>, size: int, quarter: int)
    requires dow.Length == UNITS && 0 <= size && quarter == size / 4
    modifies dow
    ensures dow[..4] == Written(size, quarter)[..4]
  {
    dow[0] := SeqQuickUnit(0 * quarter, 1 * quarter - 1);
    dow[1] := SeqQuickUnit(1 * quarter, 2 * quarter - 1);
    dow[2] := SeqQuickUnit(2 * quarter, 3 * quarter - 1);
    dow[3] := SeqQuickUnit(3 * quarter, size - 1);
  }

  method DescribeHalves(dow: array<Unit>, size: int, quarter: int)
    requires dow.Length == UNITS && 0 <= size && quarter == size / 4
    modifies dow
    ensures dow[..4] == old(dow[..4]) && dow[4..10] == Written(size, quarter)[4..10]
  {
    dow[4] := BinSplitUnit(false, 0, quarter, quarter * 2, 0, 6, 7);
    dow[5] := BinSplitUnit(false, 2 * quarter, 3 * quarter, size - quarter * 2, 2 * quarter, 8, 9);
    dow[6] := SeqMergeUnit(false, 0, quarter / 2 - 1, quarter, -1, 0);
    dow[7] := SeqMergeUnit(false, quarter / 2 + 1, quarter - 1, -1, quarter * 2 - 1, -1);
    dow[8] := SeqMergeUnit(false, quarter * 2, quarter * 2 + quarter / 2 - 1, quarter * 2 + quarter, -1, quarter * 2);
    dow[9] := SeqMergeUnit(false, quarter * 2 + quarter / 2 + 1, quarter * 2 + quarter - 1, -1, size - 1, -1);
  }

  method DescribeWhole(dow: array<Unit>, size: int, quarter: int)
    requires dow.Length == UNITS && 0 <= size && quarter == size / 4
    modifies dow
    ensures dow[..10] == old(dow[..10]) && dow[10..] == Written(size, quarter)[10..]
  {
    dow[10] := BinSplitUnit(true, 0, 2 * quarter, size, 0, 11, 12);
    dow[11] := SeqMergeUnit(true, 0, quarter - 1, 2 * quarter, -1, 0);
    dow[12] := SeqMergeUnit(true, quarter + 1, 2 * quarter - 1, -1, size - 1, -1);
  }

  method MergeInto(src: array<int>, dst: array<int>, d: Unit, ghost s: seq<int>)
    requires src != dst && s == src[..] && src.Length == dst.Length && InRange(d, src.Length)
    modifies dst
    ensures var out := Merge(s[d.low1..d.high1 + 1], s[d.low2..d.high2 + 1]);
            d.lowdest + |out| <= dst.Length && dst[..] == Write(old(dst[..]), d.lowdest, out)
  {
    assert s[d.low1..d.high1 + 1] == src[d.low1..d.high1 + 1] && s[d.low2..d.high2 + 1] == src[d.low2..d.high2 + 1];
    SeqMerge(src, d.low1, d.high1, d.low2, d.high2, dst, d.lowdest);
  }

  /** The description fits an array with contents `s`, and r elements of its second range go below the middle element
      of the first one. */
  ghost predicate CanPlace(s: seq<int>, d: Unit, r: nat) {
    var holds :=
      && d.BinSplitUnit? && d.target == d.regA && 0 <= d.regA + d.size / 4 < d.regB < d.regB + 2 * (d.size / 4) <= |s|
      && r == SplitCount(s[d.regA + d.size / 4], s[d.regB..d.regB + 2 * (d.size / 4)]) && d.regA + d.size / 4 + r < |s|;
    holds
  }

  /** `binsplit` and the store of the splitting element. */
  method PlaceOne(src: array<int>, dst: array<int>, d: Unit, ghost s: seq<int>, ghost r: nat)
    returns (split2: int, lowsize: int)
    requires src != dst && s == src[..] && src.Length == dst.Length && CanPlace(s, d, r)
    modifies dst
    ensures split2 == d.regB + r - 1 && d.target + lowsize + 1 == d.regA + d.size / 4 + r
    ensures dst[..] == Write(old(dst[..]), d.regA + d.size / 4 + r, [s[d.regA + d.size / 4]])
  {
    var fourth := d.size / 4;
    var split1 := fourth + d.regA;
    assert s[d.regB..d.regB + 2 * fourth] == src[d.regB..d.regB + 2 * fourth];
    split2 := BinSplit(src[split1], src, d.regB, d.regB + 2 * fourth - 1);
    lowsize := split1 - d.regA + split2 - d.regB;
    StoreOne(dst[..], d.target + lowsize + 1, src[split1]);
    dst[d.target + lowsize + 1] := src[split1];
  }

  lemma AllWritten(n: nat, q: nat, dow: seq<Unit>)
    requires |dow| == UNITS && dow[..10][..4] == Written(n, q)[..4] && dow[4..10] == Written(n, q)[4..10]
    requires dow[10..] == Written(n, q)[10..]
    ensures dow == Written(n, q)
  {
    var w := Written(n, q);
    assert dow == dow[..10][..4] + dow[4..10] + dow[10..] && w == w[..4] + w[4..10] + w[10..];
  }

  class QuickMerge {
    const arr: array<int>
    const tmp: array<int>
    const dow: array<Unit>
    const threshold: int
    ghost const n: nat

    ghost predicate Valid()
      reads this, arr, tmp, dow
    {
      var holds :=
        && arr != tmp && arr.Length == tmp.Length == n && threshold >= 1
        && AllDescribed(n, dow[..]);
      holds
    }

    ghost function Contents(): (mem: Mem)
      reads this, arr, tmp, dow
      ensures Valid() ==> Sized(mem, n)
    {
      var p := Params3(dow[..]);
      Mem(arr[..], tmp[..], p.0, p.1, p.2)
    }

    /** `size` is that of the arrays. */
    constructor (input: array<int>, scratch: array<int>, size: int, thr: int)
      requires input != scratch && input.Length == scratch.Length == size && thr >= 1
      ensures Valid() && arr == input && tmp == scratch && fresh(dow) && n == size
      ensures Contents() == InitMem(n, input[..], scratch[..])
    {
      arr, tmp, threshold, n := input, scratch, thr, size;
      dow := new Unit[UNITS](u => SeqQuickUnit(0, 0));
      new;
      var quarter := size / 4;
      DescribeQuarters(dow, size, quarter);
      DescribeHalves(dow, size, quarter);
      DescribeWhole(dow, size, quarter);
      AllWritten(n, quarter, dow[..]);
      Described(n, quarter, dow[..], arr[..], tmp[..]);
    }

    /** `quicksort`: sort the range in place. */
    method Quicksort(d: Unit, ghost goal: Mem)
      requires Valid() && SortsTo(Contents(), d, n, goal)
      modifies arr
      ensures Valid() && Contents() == goal
    {
      assert arr[..][d.low..d.high + 1] == arr[d.low..d.high + 1];
      QuickSort(arr, d.low, d.high, threshold);
    }

    /** `mergesort`: merge the two ranges of the description, from one array into the other. */
    method Mergesort(d: Unit, ghost g: Group, ghost goal: Mem)
      requires Valid() && JoinsTo(Contents(), d, g, n, goal)
      modifies arr, tmp
      ensures Valid() && Contents() == goal
    {
      if d.inTmp {
        MergeInto(tmp, arr, d, tmp[..]);
      } else {
        MergeInto(arr, tmp, d, arr[..]);
      }
    }

    /** The part of `binpart` that looks at the elements: find the split and place the splitting element. */
    method Partitioning(d: Unit, ghost g: Group, ghost s: nat, ghost r: nat, ghost mid: Mem, ghost split: int,
                        ghost dest: int)
      requires Valid() && CanPlace(Source(Contents(), g), d, r) && d.inTmp == (g == 2)
      requires s == d.regA + d.size / 4 && SplitsTo(Contents(), g, n, s, r, mid)
      requires d.lower == LowUnit(g) && d.upper == UpUnit(g)
      requires |mid.high2| == |mid.low2| == |mid.dest| == UNITS && split == d.regB + r - 1 && dest == s + r + 1
      modifies arr, tmp, dow
      ensures Valid() && Contents() == Handing(g, mid, split, dest)
    {
      var split2, lowsize := PlaceSplit(d, g, s, r, mid);
      HandOver(d, g, split2, d.target + lowsize + 2);
    }

    method PlaceSplit(d: Unit, ghost g: Group, ghost s: nat, ghost r: nat, ghost mid: Mem)
      returns (split2: int, lowsize: int)
      requires Valid() && CanPlace(Source(Contents(), g), d, r) && d.inTmp == (g == 2)
      requires s == d.regA + d.size / 4 && SplitsTo(Contents(), g, n, s, r, mid)
      modifies arr, tmp
      ensures Valid() && Contents() == mid && split2 == d.regB + r - 1 && d.target + lowsize + 1 == s + r
    {
      if d.inTmp {
        split2, lowsize := PlaceOne(tmp, arr, d, tmp[..], r);
      } else {
        split2, lowsize := PlaceOne(arr, tmp, d, arr[..], r);
      }
    }

    lemma Description(u: nat)
      requires Valid() && u < UNITS
      ensures dow.Length == UNITS && Describes(dow[u], JobOf(n, u)) && Sized(Contents(), n)
      ensures Contents().high2[u] == High2Of(dow[u]) && Contents().low2[u] == Low2Of(dow[u])
      ensures Contents().dest[u] == DestOf(dow[u])
    {
      assert Describes(dow[..][u], JobOf(n, u));
    }

    /** Complete the parameters of the two merges of the group. */
    method HandOver(d: Unit, ghost g: Group, split2: int, dest: int)
      requires Valid() && d.BinSplitUnit? && d.lower == LowUnit(g) && d.upper == UpUnit(g)
      modifies dow
      ensures Valid() && |old(Contents()).high2| == |old(Contents()).low2| == |old(Contents()).dest| == UNITS
      ensures Contents() == Handing(g, old(Contents()), split2, dest)
    {
      Description(d.lower);
      Description(d.upper);
      Completed(n, dow[..], g, split2, dest);
      dow[d.lower] := dow[d.lower].(high2 := split2);
      dow[d.upper] := dow[d.upper].(low2 := split2 + 1, lowdest := dest);
    }

    /** `binpart`: find the split, place the splitting element, complete the parameters of the two merges. */
    method BinPart(u: nat, d: Unit, ghost job: Job)
      requires Valid() && u < UNITS == dow.Length && d == dow[u] && d.BinSplitUnit?
      requires job == JobOf(n, u) && InBounds(job, Contents(), n)
      modifies arr, tmp, dow
      ensures Valid() && Contents() == Do(job, old(Contents()))
    {
      Description(u);
      ghost var r, mid, split, dest := PartitionStored(job, Contents(), n, d);
      Partitioning(d, job.g, job.s, r, mid, split, dest);
    }

    method Merging(u: nat, d: Unit, ghost job: Job)
      requires Valid() && u < UNITS == dow.Length && d == dow[u] && d.SeqMergeUnit?
      requires job == JobOf(n, u) && InBounds(job, Contents(), n)
      modifies arr, tmp
      ensures Valid() && Contents() == Do(job, old(Contents()))
    {
      Description(u);
      JoiningStored(job, Contents(), n, d);
      Mergesort(d, job.g, Do(job, Contents()));
    }

    method Sorting(u: nat, d: Unit, ghost job: Job)
      requires Valid() && u < UNITS == dow.Length && d == dow[u] && d.SeqQuickUnit?
      requires job == JobOf(n, u) && InBounds(job, Contents(), n)
      modifies arr
      ensures Valid() && Contents() == Do(job, old(Contents()))
    {
      Description(u);
      QuicksortStored(job, Contents(), n, d);
      Quicksort(d, Do(job, Contents()));
    }

    /** The `switch` of the worker loop: executing a unit whose ranges fit the arrays is the step of the model. */
    method ExecuteUnit(u: nat)
      requires Valid() && u < UNITS && InBounds(JobOf(n, u), Contents(), n)
      modifies arr, tmp, dow
      ensures Valid() && Contents() == RunUnit(n, u, old(Contents()))
    {
      match dow[u]
      case SeqQuickUnit(_, _) => Sorting(u, dow[u], JobOf(n, u));
      case SeqMergeUnit(_, _, _, _, _, _) => Merging(u, dow[u], JobOf(n, u));
      case BinSplitUnit(_, _, _, _, _, _, _) => BinPart(u, dow[u], JobOf(n, u));
    }
  }
}
