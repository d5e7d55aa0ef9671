/** The sequential sorting kernels: Hoare-style partition, quicksort above insertion sort, merge and binary split.

    The partition has no bounds check in its scans. That they stay inside the range rests on an element that stops
    them: the pivot itself in the first round, elements that have just been exchanged in all later ones. The result
    always leaves something on both sides, for which the last lines of the partition provide, so the loop and the
    recursion of the quicksort work on shorter ranges and end. */
module SortLib {

  // ---------------------------------------------------------------- sorted ranges and rearrangements

  /** s[low..high], bounds included, is in ascending order. */
  ghost predicate SortedRange(s: seq<int>, low: int, high: int)
    requires 0 <= low && high < |s|
  {
    forall i, j :: low <= i < j <= high ==> s[i] <= s[j]
  }

  ghost predicate Sorted(s: seq<int>) {
    forall i, j :: 0 <= i < j < |s| ==> s[i] <= s[j]
  }

  /** `t` is `s` with the elements of [low, high] in another order. */
  ghost predicate Arranged(s: seq<int>, t: seq<int>, low: int, high: int) {
    && |s| == |t| && multiset(s) == multiset(t)
    && forall k :: 0 <= k < |s| && (k < low || high < k) ==> t[k] == s[k]
  }

  lemma ArrangedTransitive(s: seq<int>, t: seq<int>, u: seq<int>, low: int, high: int, lo: int, hi: int)
    requires Arranged(s, t, low, high) && Arranged(t, u, lo, hi) && low <= lo && hi <= high
    ensures Arranged(s, u, low, high)
  {
  }

  /** Inside the range the elements are the same ones. */
  lemma ArrangedSlice(s: seq<int>, t: seq<int>, low: int, high: int)
    requires Arranged(s, t, low, high) && 0 <= low <= high + 1 <= |s|
    ensures multiset(s[low..high + 1]) == multiset(t[low..high + 1])
  {
    ThreeParts(s, low, high + 1);
    ThreeParts(t, low, high + 1);
    assert s[..low] == t[..low] && s[high + 1..] == t[high + 1..];
    var x, y := multiset(s[low..high + 1]), multiset(t[low..high + 1]);
    forall e
      ensures x[e] == y[e]
    {
      assert multiset(s)[e] == multiset(t)[e];
    }
  }

  lemma ThreeParts(s: seq<int>, i: int, j: int)
    requires 0 <= i <= j <= |s|
    ensures multiset(s) == multiset(s[..i]) + multiset(s[i..j]) + multiset(s[j..])
  {
    assert s == s[..i] + s[i..j] + s[j..];
  }

  /** Hence bounds on all elements of the range survive. */
  lemma ArrangedBounds(s: seq<int>, t: seq<int>, low: int, high: int, bound: int)
    requires Arranged(s, t, low, high) && 0 <= low <= high + 1 <= |s|
    ensures (forall k :: low <= k <= high ==> s[k] <= bound) ==> (forall k :: low <= k <= high ==> t[k] <= bound)
    ensures (forall k :: low <= k <= high ==> s[k] >= bound) ==> (forall k :: low <= k <= high ==> t[k] >= bound)
  {
    ArrangedSlice(s, t, low, high);
    forall k | low <= k <= high
      ensures exists i :: low <= i <= high && s[i] == t[k]
    {
      assert t[k] == t[low..high + 1][k - low];
      assert t[k] in multiset(s[low..high + 1]);
      var i :| 0 <= i < |s[low..high + 1]| && s[low..high + 1][i] == t[k];
      assert s[low + i] == t[k];
    }
  }

  lemma SwapArranged(s: seq<int>, i: int, j: int, low: int, high: int)
    requires 0 <= low <= i <= high < |s| && low <= j <= high
    ensures Arranged(s, s[i := s[j]][j := s[i]], low, high)
  {
  }

  // ---------------------------------------------------------------- partition

  function Med3(a: int, b: int, c: int): (m: int)
    ensures m == a || m == b || m == c
    ensures (a <= m && (b <= m || c <= m)) || (b <= m && c <= m)
    ensures (a >= m && (b >= m || c >= m)) || (b >= m && c >= m)
  {
    if a < b then
      if b < c then b else if a < c then c else a
    else
      if b > c then b else if a > c then c else a
  }

  /** Everything up to `p` is at most `pivot`, everything after at least. */
  ghost predicate Parted(s: seq<int>, low: int, p: int, high: int, pivot: int)
    requires 0 <= low && high < |s|
  {
    && (forall k :: low <= k <= p && k <= high ==> s[k] <= pivot)
    && (forall k :: p < k <= high && low <= k ==> s[k] >= pivot)
  }

  /** Scan down from `h` to the next element that is not above the pivot; there is one at or above `stop`. */
  method ScanDown(a: array<int>, h: int, pivot: int, ghost stop: int) returns (r: int)
    requires 0 <= stop <= h < a.Length && a[stop] <= pivot
    ensures stop <= r <= h && a[r] <= pivot && forall k :: r < k <= h ==> a[k] > pivot
  {
    r := h;
    while a[r] > pivot
      invariant stop <= r <= h && forall k :: r < k <= h ==> a[k] > pivot
      decreases r - stop
    {
      r := r - 1;
    }
  }

  method ScanUp(a: array<int>, l: int, pivot: int, ghost stop: int) returns (r: int)
    requires 0 <= l <= stop < a.Length && a[stop] >= pivot
    ensures l <= r <= stop && a[r] >= pivot && forall k :: l <= k < r ==> a[k] < pivot
  {
    r := l;
    while a[r] < pivot
      invariant l <= r <= stop && forall k :: l <= k < r ==> a[k] < pivot
      decreases stop - r
    {
      r := r + 1;
    }
  }

  /** Half way through a partition: what is behind the two cursors is on its side of the pivot, and each scan will
      meet an element that stops it (at `down` and `up`). */
  ghost predicate Halfway(s: seq<int>, low: int, high: int, l: int, h: int, pivot: int, down: int, up: int)
    requires 0 <= low && high < |s|
  {
    && low <= l && h <= high
    && low <= down <= h && s[down] <= pivot && l <= up <= high && s[up] >= pivot
    && (forall k :: low <= k < l && k <= high ==> s[k] <= pivot)
    && (forall k :: h < k <= high && low <= k ==> s[k] >= pivot)
  }

  lemma Exchanged(s: seq<int>, low: int, high: int, l: int, h: int, l': int, h': int, pivot: int, down: int, up: int)
    requires 0 <= low && high < |s| && Halfway(s, low, high, l, h, pivot, down, up)
    requires l <= l' < h' <= h && s[h'] <= pivot <= s[l']
    requires forall k :: l <= k < l' ==> s[k] < pivot
    requires forall k :: h' < k <= h ==> s[k] > pivot
    ensures Halfway(s[l' := s[h']][h' := s[l']], low, high, l' + 1, h' - 1, pivot, l', h')
  {
  }

  lemma Finished(s: seq<int>, low: int, high: int, l: int, h: int, l': int, h': int, pivot: int, down: int, up: int)
    requires 0 <= low < high < |s| && Halfway(s, low, high, l, h, pivot, down, up)
    requires l <= l' <= up && down <= h' <= h && h' <= l' && s[h'] <= pivot <= s[l']
    requires forall k :: l <= k < l' ==> s[k] < pivot
    requires forall k :: h' < k <= h ==> s[k] > pivot
    ensures var p := if h' < high then h' else h' - 1;
            low <= p < high && Parted(s, low, p, high, pivot)
  {
  }

  method Swap(a: array<int>, i: int, j: int, ghost low: int, ghost high: int)
    requires 0 <= low <= i <= high < a.Length && low <= j <= high
    modifies a
    ensures a[..] == old(a[..])[i := old(a[j])][j := old(a[i])]
    ensures Arranged(old(a[..]), a[..], low, high)
  {
    SwapArranged(a[..], i, j, low, high);
    a[i], a[j] := a[j], a[i];
  }

  /** Partition: no scan leaves [low, high], both parts are nonempty. */
  method SeqPart(a: array<int>, low: int, high: int) returns (p: int, ghost pivot: int)
    requires 0 <= low < high < a.Length
    modifies a
    ensures low <= p < high
    ensures Arranged(old(a[..]), a[..], low, high)
    ensures Parted(a[..], low, p, high, pivot)
  {
    var currLow, currHigh := low, high;
    var mid := low + (high - low) / 2;
    var pv := Med3(a[low], a[high], a[mid]);
    pivot := pv;
    ghost var down := if a[low] == pv then low else if a[high] == pv then high else mid;
    ghost var up := down;
    while true
      invariant Halfway(a[..], low, high, currLow, currHigh, pv, down, up)
      invariant Arranged(old(a[..]), a[..], low, high)
      decreases currHigh - currLow
    {
      ghost var s := a[..];
      var h := ScanDown(a, currHigh, pv, down);
      var l := ScanUp(a, currLow, pv, up);
      if l >= h {
        Finished(s, low, high, currLow, currHigh, l, h, pv, down, up);
        p := if h < high then h else h - 1;
        return;
      }
      Exchanged(s, low, high, currLow, currHigh, l, h, pv, down, up);
      Swap(a, l, h, low, high);
      ArrangedTransitive(old(a[..]), s, a[..], low, high, low, high);
      down, up := l, h;
      currHigh, currLow := h - 1, l + 1;
    }
  }

  // ---------------------------------------------------------------- insertion sort

  method InsertionSort(a: array<int>, low: int, high: int)
    requires 0 <= low <= high + 1 <= a.Length
    modifies a
    ensures Arranged(old(a[..]), a[..], low, high)
    ensures SortedRange(a[..], low, high)
  {
    var q := low + 1;
    while q <= high
      invariant low + 1 <= q && (q <= high + 1 || q == low + 1)
      invariant Arranged(old(a[..]), a[..], low, high)
      invariant q <= high + 1 ==> SortedRange(a[..], low, q - 1)
      decreases high - q
    {
      Insert(a, low, q, high);
      q := q + 1;
    }
  }

  /** `t` is `s` with the elements after position `p`, up to `q`, moved up by one; all of those are above `v`. */
  ghost predicate Shifted(s: seq<int>, t: seq<int>, p: int, q: int, v: int)
    requires |s| == |t| && -1 <= p < q < |s|
  {
    && (forall k :: 0 <= k <= p || q < k < |s| ==> t[k] == s[k])
    && (forall k :: p + 1 < k <= q ==> t[k] == s[k - 1] && t[k] > v)
    && multiset(t[p + 1 := v]) == multiset(s)
  }

  lemma ShiftOne(s: seq<int>, t: seq<int>, p: int, q: int, v: int)
    requires |s| == |t| && 0 <= p < q < |s| && Shifted(s, t, p, q, v) && t[p] > v
    ensures Shifted(s, t[p + 1 := t[p]], p - 1, q, v)
  {
    ShiftKeeps(t, p, v);
  }

  lemma ShiftKeeps(t: seq<int>, p: int, v: int)
    requires 0 <= p && p + 1 < |t|
    ensures multiset(t[p + 1 := t[p]][p := v]) == multiset(t[p + 1 := v])
  {
    var w := t[p + 1 := v];
    SwapArranged(w, p, p + 1, 0, |w| - 1);
    assert t[p + 1 := t[p]][p := v] == w[p := w[p + 1]][p + 1 := w[p]];
  }

  lemma Inserted(s: seq<int>, t: seq<int>, low: int, p: int, q: int, high: int, v: int)
    requires |s| == |t| && 0 <= low < q <= high < |s| && low - 1 <= p < q && v == s[q]
    requires Shifted(s, t, p, q, v) && SortedRange(s, low, q - 1) && (p >= low ==> t[p] <= v)
    ensures Arranged(s, t[p + 1 := v], low, high) && SortedRange(t[p + 1 := v], low, q)
  {
    var u := t[p + 1 := v];
    forall i, j | low <= i < j <= q
      ensures u[i] <= u[j]
    {
      if j <= p {
        assert s[i] <= s[j];
      } else if j == p + 1 {
        assert i < p ==> s[i] <= s[p];
      } else if i > p + 1 {
        assert s[i - 1] <= s[j - 1];
      } else if i <= p {
        assert s[i] <= s[j - 1];
      }
    }
  }

  /** Move a[q] down to its place among the sorted a[low..q-1]. */
  method Insert(a: array<int>, low: int, q: int, high: int)
    requires 0 <= low < q <= high < a.Length && SortedRange(a[..], low, q - 1)
    modifies a
    ensures Arranged(old(a[..]), a[..], low, high) && SortedRange(a[..], low, q)
  {
    ghost var s := a[..];
    var v := a[q];
    var p := q - 1;
    assert s[p + 1 := v] == s;
    while p >= low && a[p] > v
      invariant low - 1 <= p <= q - 1
      invariant Shifted(s, a[..], p, q, v)
    {
      ShiftOne(s, a[..], p, q, v);
      a[p + 1] := a[p];
      p := p - 1;
    }
    Inserted(s, a[..], low, p, q, high, v);
    a[p + 1] := v;
  }

  // ---------------------------------------------------------------- quicksort

  /** Loop plus recursion, with insertion sort below the threshold. */
  method SeqQuick(a: array<int>, low0: int, high: int, threshold: int)
    requires 0 <= low0 <= high + 1 <= a.Length && threshold >= 1
    modifies a
    ensures Arranged(old(a[..]), a[..], low0, high)
    ensures SortedRange(a[..], low0, high)
    decreases high - low0
  {
    var low := low0;
    while high - low >= threshold
      invariant low0 <= low <= high + 1
      invariant Arranged(old(a[..]), a[..], low0, high)
      invariant forall i, j :: low0 <= i < low && i < j <= high ==> a[i] <= a[j]
      decreases high - low
    {
      var p := QuickStep(a, low0, low, high, threshold);
      low := p + 1;
    }
    ghost var s := a[..];
    InsertionSort(a, low, high);
    ArrangedTransitive(old(a[..]), s, a[..], low0, high, low, high);
    PrefixStays(s, a[..], low0, low, high);
  }

  /** Elements before `low` are in order and not above anything that follows: rearranging the rest keeps that. */
  ghost predicate Settled(s: seq<int>, low0: int, low: int, high: int)
    requires 0 <= low0 && high < |s|
  {
    forall i, j :: low0 <= i < low && i < j <= high ==> s[i] <= s[j]
  }

  lemma PrefixStays(s: seq<int>, t: seq<int>, low0: int, low: int, high: int)
    requires 0 <= low0 <= low <= high + 1 <= |s| && Arranged(s, t, low, high) && Settled(s, low0, low, high)
    ensures Settled(t, low0, low, high)
  {
    forall i, j | low0 <= i < low && i < j <= high
      ensures t[i] <= t[j]
    {
      ArrangedBounds(s, t, low, high, s[i]);
    }
  }

  method QuickStep(a: array<int>, low0: int, low: int, high: int, threshold: int) returns (p: int)
    requires 0 <= low0 <= low < high < a.Length && threshold >= 1
    requires Settled(a[..], low0, low, high)
    modifies a
    ensures low <= p < high
    ensures Arranged(old(a[..]), a[..], low, high)
    ensures Settled(a[..], low0, p + 1, high)
    decreases high - low0, 0
  {
    ghost var s, pivot := a[..], 0;
    p, pivot := SeqPart(a, low, high);
    ghost var t := a[..];
    PrefixStays(s, t, low0, low, high);
    SeqQuick(a, low, p, threshold);
    ArrangedTransitive(s, t, a[..], low, high, low, p);
    PrefixStays(t, a[..], low0, low, high);
    LeftSorted(t, a[..], low0, low, p, high, pivot);
  }

  lemma LeftSorted(t: seq<int>, u: seq<int>, low0: int, low: int, p: int, high: int, pivot: int)
    requires 0 <= low0 <= low <= p < high < |t|
    requires Arranged(t, u, low, p) && Parted(t, low, p, high, pivot) && SortedRange(u, low, p)
    requires Settled(u, low0, low, high)
    ensures Settled(u, low0, p + 1, high)
  {
    ArrangedBounds(t, u, low, p, pivot);
  }
}
