/** The 13 units of the quick/merge task: what each of them reads and writes, with the parameters that earlier units
    hand to later ones, and why any order that respects the dependences sorts.

    Units 0-3 sort the quarters of `arr`. Each of three groups merges two sorted ranges from one buffer into the other:
    a split unit, a lower merge and an upper merge. Groups 0 and 1 merge the halves of `arr` into `tmp`, group 2 merges
    `tmp` back into `arr`. */
module MergeSortUnits {
  import opened SortLib
  import opened MergeLib

  const UNITS: nat := 13

  /** The two buffers, and the three parameters of merge units that split units fill in. */
  datatype Mem = Mem(arr: seq<int>, tmp: seq<int>, high2: seq<int>, low2: seq<int>, dest: seq<int>)

  // ---------------------------------------------------------------- the three groups

  function SplitUnit(g: nat): nat
    requires g < 3
  {
    if g == 0 then 4 else if g == 1 then 5 else 10
  }

  function LowUnit(g: nat): nat
    requires g < 3
  {
    if g == 0 then 6 else if g == 1 then 8 else 11
  }

  function UpUnit(g: nat): nat
    requires g < 3
  {
    if g == 0 then 7 else if g == 1 then 9 else 12
  }

  function Source(mem: Mem, g: nat): seq<int> {
    if g == 2 then mem.tmp else mem.arr
  }

  function Target(mem: Mem, g: nat): seq<int> {
    if g == 2 then mem.arr else mem.tmp
  }

  function SetTarget(mem: Mem, g: nat, d: seq<int>): Mem {
    if g == 2 then mem.(arr := d) else mem.(tmp := d)
  }

  // ---------------------------------------------------------------- the effect of a unit

  /** s[low..high], nothing if the bounds make no sense. */
  function Slice(s: seq<int>, low: int, high: int): seq<int> {
    if 0 <= low <= high + 1 <= |s| then s[low..high + 1] else []
  }

  function Store(s: seq<int>, at: int, v: seq<int>): (t: seq<int>)
    ensures |t| == |s|
  {
    if 0 <= at && at + |v| <= |s| then Write(s, at, v) else s
  }

  function SortRange(mem: Mem, low: int, high: int): Mem {
    mem.(arr := Store(mem.arr, low, SortOf(Slice(mem.arr, low, high))))
  }

  /** `binpart`: find where the middle element of the first range, at `s`, splits the second one, from `p` to `n`, put
      it in its final place, and hand the split to the two merges. */
  function SplitGroup(g: nat, mem: Mem, s: nat, p: nat, n: nat): Mem
    requires g < 3
  {
    var src := Source(mem, g);
    if s < p < n <= |src| && |mem.high2| == UNITS && |mem.low2| == UNITS && |mem.dest| == UNITS then
      var v, r := src[s], SplitCount(src[s], src[p..n]);
      Handing(g, SetTarget(mem, g, Store(Target(mem, g), s + r, [v])), p + r - 1, s + r + 1)
    else mem
  }

  /** Fill in the parameters of the two merges of the group. */
  function Handing(g: nat, mem: Mem, split2: int, dest: int): Mem
    requires g < 3 && |mem.high2| == UNITS && |mem.low2| == UNITS && |mem.dest| == UNITS
  {
    mem.(high2 := mem.high2[LowUnit(g) := split2],
         low2 := mem.low2[UpUnit(g) := split2 + 1],
         dest := mem.dest[UpUnit(g) := dest])
  }

  /** Unit `u` merges the range from `low1` to `high1` with the one that its parameters give. */
  function MergeGroup(g: nat, mem: Mem, u: nat, low1: int, high1: int): Mem
    requires u < UNITS
  {
    if |mem.high2| == UNITS && |mem.low2| == UNITS && |mem.dest| == UNITS then
      Place(g, mem, mem.dest[u], Slice(Source(mem, g), low1, high1), Slice(Source(mem, g), mem.low2[u], mem.high2[u]))
    else mem
  }

  /** The merge of `v` and `w` goes to position `at` of the target. */
  function Place(g: nat, mem: Mem, at: int, v: seq<int>, w: seq<int>): Mem {
    SetTarget(mem, g, Store(Target(mem, g), at, Merge(v, w)))
  }

  function GroupOf(u: nat): (g: nat)
    ensures g < 3
  {
    if u == 4 || u == 6 || u == 7 then 0 else if u == 5 || u == 8 || u == 9 then 1 else 2
  }

  /** What the constructor writes into the description of a unit and nothing changes afterwards. */
  datatype Job =
    | Quicksort(low: int, high: int)
    | Partition(g: Group, s: nat, p: nat, n: nat)
    | Joining(g: Group, u: nat, low1: int, high1: int)

  type Group = g: nat | g < 3

  /** The sizes that the constructor computes, all rounded down: the quarters, half of one, and a fourth of the ranges
      that the splits of groups 0 and 1 start from. For group 2 that is a quarter. */
  datatype Sizes = Sizes(quarter: nat, half: nat, fourth0: nat, fourth1: nat)

  function SizesOf(n: nat): Sizes {
    var q := n / 4;
    Sizes(q, q / 2, q * 2 / 4, (n - q * 2) / 4)
  }

  /** The job of unit `u` in a task of size `n`. A split unit takes the element a fourth into its range and searches two
      fourths from the start of the second half. */
  function JobOf(n: nat, u: nat): Job
    requires u < UNITS
  {
    JobWith(n, SizesOf(n), u)
  }

  function JobWith(n: nat, z: Sizes, u: nat): Job
    requires u < UNITS
  {
    var q := z.quarter;
    if u == 0 then Quicksort(0, q - 1)
    else if u == 1 then Quicksort(q, 2 * q - 1)
    else if u == 2 then Quicksort(2 * q, 3 * q - 1)
    else if u == 3 then Quicksort(3 * q, n - 1)
    else if u == 4 then Partition(0, z.fourth0, q, q + 2 * z.fourth0)
    else if u == 5 then Partition(1, 2 * q + z.fourth1, 3 * q, 3 * q + 2 * z.fourth1)
    else if u == 6 then Joining(0, u, 0, z.half - 1)
    else if u == 7 then Joining(0, u, z.half + 1, q - 1)
    else if u == 8 then Joining(1, u, 2 * q, 2 * q + z.half - 1)
    else if u == 9 then Joining(1, u, 2 * q + z.half + 1, 3 * q - 1)
    else if u == 10 then Partition(2, q, 2 * q, 4 * q)
    else if u == 11 then Joining(2, u, 0, q - 1)
    else Joining(2, u, q + 1, 2 * q - 1)
  }

  function Do(job: Job, mem: Mem): Mem {
    match job
    case Quicksort(low, high) => SortRange(mem, low, high)
    case Partition(g, s, p, n) => SplitGroup(g, mem, s, p, n)
    case Joining(g, u, low1, high1) => if u < UNITS then MergeGroup(g, mem, u, low1, high1) else mem
  }

  /** Unit `u` of a task of size `n`. */
  function RunUnit(n: nat, u: nat, mem: Mem): Mem
    requires u < UNITS
  {
    Do(JobOf(n, u), mem)
  }

  /** The parameters that the constructor fills in; -1 stands for those left to a split unit. */
  function InitMem(n: nat, a: seq<int>, t: seq<int>): Mem {
    var q := SizesOf(n).quarter;
    Mem(a, t,
        [-1, -1, -1, -1, -1, -1, -1, 2 * q - 1, -1, n - 1, -1, -1, n - 1],
        [-1, -1, -1, -1, -1, -1, q, -1, 3 * q, -1, -1, 2 * q, -1],
        [-1, -1, -1, -1, -1, -1, 0, -1, 2 * q, -1, -1, 0, -1])
  }

  // ---------------------------------------------------------------- sizes divisible by 8

  /* A task of size 8 * e sorts quarters of 2 * e elements, and the middle of a range of 2 * e or 4 * e elements is a
     whole position. */

  /** Group `g` merges positions Base..Border-1 with Border..Bound-1; the middle of the first range is at Pivot. */
  function Base(e: nat, g: nat): nat {
    if g == 1 then 4 * e else 0
  }

  function Pivot(e: nat, g: nat): nat {
    if g == 0 then e else if g == 1 then 5 * e else 2 * e
  }

  function Border(e: nat, g: nat): nat {
    if g == 0 then 2 * e else if g == 1 then 6 * e else 4 * e
  }

  function Bound(e: nat, g: nat): nat {
    if g == 0 then 4 * e else 8 * e
  }

  /** Where quarter `i` starts. */
  function Start(e: nat, i: nat): nat {
    if i == 0 then 0 else if i == 1 then 2 * e else if i == 2 then 4 * e else 6 * e
  }

  lemma SizesInEighths(e: nat)
    ensures SizesOf(8 * e) == Sizes(2 * e, e, e, e)
  {
  }

  lemma QuartersInEighths(e: nat, u: nat)
    requires u < 4
    ensures JobOf(8 * e, u) == Quicksort(Start(e, u), Start(e, u) + 2 * e - 1)
  {
    SizesInEighths(e);
  }

  /** In eighths, each group splits at the middle of its first range and searches the whole second one. */
  lemma SplitInEighths(e: nat, g: Group, u: nat, s: nat, p: nat, n: nat, mem: Mem)
    requires u == SplitUnit(g) && s == Pivot(e, g) && p == Border(e, g) && n == Bound(e, g)
    ensures JobOf(8 * e, u) == Partition(g, s, p, n) && RunUnit(8 * e, u, mem) == SplitGroup(g, mem, s, p, n)
  {
    SizesInEighths(e);
    assert JobOf(8 * e, u) == Partition(g, s, p, n);
  }

  lemma LowInEighths(e: nat, g: Group, u: nat, low1: int, high1: int, mem: Mem)
    requires u == LowUnit(g) && low1 == Base(e, g) && high1 == Pivot(e, g) - 1
    ensures JobOf(8 * e, u) == Joining(g, u, low1, high1)
    ensures RunUnit(8 * e, u, mem) == MergeGroup(g, mem, u, low1, high1)
  {
    SizesInEighths(e);
    assert JobOf(8 * e, u) == Joining(g, u, low1, high1);
  }

  lemma UpInEighths(e: nat, g: Group, u: nat, low1: int, high1: int, mem: Mem)
    requires u == UpUnit(g) && low1 == Pivot(e, g) + 1 && high1 == Border(e, g) - 1
    ensures JobOf(8 * e, u) == Joining(g, u, low1, high1)
    ensures RunUnit(8 * e, u, mem) == MergeGroup(g, mem, u, low1, high1)
  {
    SizesInEighths(e);
    assert JobOf(8 * e, u) == Joining(g, u, low1, high1);
  }

  lemma InitInEighths(e: nat, a: seq<int>, t: seq<int>)
    ensures InitMem(8 * e, a, t)
            == Mem(a, t,
                   [-1, -1, -1, -1, -1, -1, -1, 4 * e - 1, -1, 8 * e - 1, -1, -1, 8 * e - 1],
                   [-1, -1, -1, -1, -1, -1, 2 * e, -1, 6 * e, -1, -1, 4 * e, -1],
                   [-1, -1, -1, -1, -1, -1, 0, -1, 4 * e, -1, -1, 0, -1])
  {
    SizesInEighths(e);
  }

  // ---------------------------------------------------------------- what the groups merge

  function Quarter(e: nat, a: seq<int>, i: nat): (s: seq<int>)
    requires |a| == 8 * e && i < 4
    ensures |s| == 2 * e
  {
    a[Start(e, i)..Start(e, i) + 2 * e]
  }

  lemma QuartersJoin(e: nat, a: seq<int>)
    requires |a| == 8 * e
    ensures multiset(a) == multiset(Quarter(e, a, 0)) + multiset(Quarter(e, a, 1)) +
                           multiset(Quarter(e, a, 2)) + multiset(Quarter(e, a, 3))
  {
    assert a == Quarter(e, a, 0) + Quarter(e, a, 1) + Quarter(e, a, 2) + Quarter(e, a, 3);
  }
}
