/** Conversion between positions on the Hilbert curve and cells of the grid. */
module Hilbert {
  import opened Quotients
  import opened BinaryLog

  datatype Point = Point(x: int, y: int)

  ghost predicate InSquare(p: Point, n: int) {
    0 <= p.x < n && 0 <= p.y < n
  }

  // ---------------------------------------------------------------- the curve

  /** How many cells the square with side 2^k has. */
  function Cells(k: nat): (n: nat)
    ensures n >= 1
  {
    if k == 0 then 1 else 4 * Cells(k - 1)
  }

  /** Cell `p` of the curve of side `s`, as part `q` of the curve of twice the side: transposed into the lower left
      quadrant, shifted into the upper left or upper right one, transposed and reflected into the lower right one. */
  function Place(s: int, p: Point, q: nat): Point {
    if q == 0 then Point(p.y, p.x)
    else if q == 1 then Point(p.x, p.y + s)
    else if q == 2 then Point(p.x + s, p.y + s)
    else Point(2 * s - 1 - p.y, s - 1 - p.x)
  }

  function Unplace(s: int, p: Point, q: nat): Point {
    if q == 0 then Point(p.y, p.x)
    else if q == 1 then Point(p.x, p.y - s)
    else if q == 2 then Point(p.x - s, p.y - s)
    else Point(s - 1 - p.y, 2 * s - 1 - p.x)
  }

  /** The quadrant of a cell in a square of side 2 * s, in the order of the curve. */
  function QuadrantOf(s: int, p: Point): (q: nat)
    ensures q < 4
  {
    if p.x < s then (if p.y < s then 0 else 1) else (if p.y < s then 3 else 2)
  }

  /** The quarter of 4 * n positions that `d` lies in. */
  function Quarter(n: nat, d: nat): (q: nat)
    ensures q < 4
  {
    if d < n then 0 else if d < 2 * n then 1 else if d < 3 * n then 2 else 3
  }

  /** n * q for a quadrant q. */
  function Times(n: nat, q: nat): nat {
    if q == 0 then 0 else if q == 1 then n else if q == 2 then 2 * n else 3 * n
  }

  /** The cell at position `d` of the curve with side 2^k: the first quarter of the positions fills the lower left
      quadrant, and so on, each of them as a curve of half the side. */
  function Curve(k: nat, d: nat): Point {
    if k == 0 then Point(0, 0)
    else
      var n := Cells(k - 1);
      var q := Quarter(n, d);
      Place(Pow2(k - 1), if d >= Times(n, q) then Curve(k - 1, d - Times(n, q)) else Point(0, 0), q)
  }

  /** The position of a cell on the curve with side 2^k. */
  function Index(k: nat, p: Point): nat {
    if k == 0 then 0
    else
      var s := Pow2(k - 1);
      var q := QuadrantOf(s, p);
      Times(Cells(k - 1), q) + Index(k - 1, Unplace(s, p, q))
  }

  // ---------------------------------------------------------------- bijection

  lemma PlaceUnplace(s: int, p: Point, q: nat)
    requires InSquare(p, s) && q < 4
    ensures var r := Place(s, p, q); InSquare(r, 2 * s) && Unplace(s, r, q) == p && QuadrantOf(s, r) == q
  {
  }

  lemma UnplacePlace(s: int, p: Point)
    requires InSquare(p, 2 * s)
    ensures var q := QuadrantOf(s, p); InSquare(Unplace(s, p, q), s) && Place(s, Unplace(s, p, q), q) == p
  {
  }

  lemma QuarterIs(n: nat, q: nat, r: nat)
    requires q < 4 && r < n
    ensures Quarter(n, Times(n, q) + r) == q && Times(n, q) + r < 4 * n
  {
    if q == 0 {
    } else if q == 1 {
    } else if q == 2 {
    } else {
    }
  }

  lemma QuarterRest(n: nat, d: nat)
    requires d < 4 * n
    ensures Times(n, Quarter(n, d)) <= d < Times(n, Quarter(n, d)) + n
  {
    if d < n {
    } else if d < 2 * n {
    } else if d < 3 * n {
    } else {
    }
  }

  /** Position r of quarter q. */
  lemma CurveParts(k: nat, q: nat, r: nat, d: nat)
    requires r < Cells(k) && q < 4 && d == Times(Cells(k), q) + r
    ensures Curve(k + 1, d) == Place(Pow2(k), Curve(k, r), q) && d < Cells(k + 1)
  {
    QuarterIs(Cells(k), q, r);
  }

  /** From the position to the cell, which lies in the square, and back. */
  lemma {:induction false} IndexOfCurve(k: nat, d: nat)
    requires d < Cells(k)
    ensures InSquare(Curve(k, d), Pow2(k)) && Index(k, Curve(k, d)) == d
  {
    if k > 0 {
      var n := Cells(k - 1);
      QuarterRest(n, d);
      var q := Quarter(n, d);
      var r := d - Times(n, q);
      CurveParts(k - 1, q, r, d);
      IndexOfCurve(k - 1, r);
      PlaceUnplace(Pow2(k - 1), Curve(k - 1, r), q);
    }
  }

  /** From the cell to the position, which lies in the range, and back. */
  lemma {:induction false} CurveOfIndex(k: nat, p: Point)
    requires InSquare(p, Pow2(k))
    ensures Index(k, p) < Cells(k) && Curve(k, Index(k, p)) == p
  {
    if k > 0 {
      var s := Pow2(k - 1);
      UnplacePlace(s, p);
      var q := QuadrantOf(s, p);
      var r := Unplace(s, p, q);
      CurveOfIndex(k - 1, r);
      CurveParts(k - 1, q, Index(k - 1, r), Index(k, p));
    }
  }

  // ---------------------------------------------------------------- neighbours

  function Abs(a: int): int {
    if a < 0 then -a else a
  }

  ghost predicate Adjacent(p: Point, r: Point) {
    Abs(p.x - r.x) + Abs(p.y - r.y) == 1
  }

  /** The curve enters at the lower left corner and leaves at the lower right one. */
  lemma {:induction false} CurveEnds(k: nat)
    ensures Curve(k, 0) == Point(0, 0) && Curve(k, Cells(k) - 1) == Point(Pow2(k) - 1, 0)
  {
    if k > 0 {
      var n := Cells(k - 1);
      CurveEnds(k - 1);
      CurveParts(k - 1, 0, 0, 0);
      CurveParts(k - 1, 3, n - 1, Cells(k) - 1);
    }
  }

  lemma PlaceAdjacent(s: int, p: Point, r: Point, q: nat)
    requires Adjacent(p, r)
    ensures Adjacent(Place(s, p, q), Place(s, r, q))
  {
  }

  /** Where one quadrant ends the next one begins, one cell further. */
  lemma QuadrantsMeet(s: int, q: nat)
    requires q < 3
    ensures Adjacent(Place(s, Point(s - 1, 0), q), Place(s, Point(0, 0), q + 1))
  {
  }

  lemma WithinQuarter(k: nat, up: nat, q: nat, r: nat, r': nat, d: nat, next: nat)
    requires r < Cells(k) && r' < Cells(k) && q < 4 && d == Times(Cells(k), q) + r && next == Times(Cells(k), q) + r'
    requires Adjacent(Curve(k, r), Curve(k, r')) && up == k + 1
    ensures Adjacent(Curve(up, d), Curve(up, next))
  {
    CurveParts(k, q, r, d);
    CurveParts(k, q, r', next);
    PlaceAdjacent(Pow2(k), Curve(k, r), Curve(k, r'), q);
  }

  lemma BetweenQuarters(k: nat, up: nat, q: nat, d: nat, next: nat)
    requires q < 3 && d == Times(Cells(k), q) + (Cells(k) - 1) && next == Times(Cells(k), q + 1) && up == k + 1
    ensures Adjacent(Curve(up, d), Curve(up, next))
  {
    CurveParts(k, q, Cells(k) - 1, d);
    CurveParts(k, q + 1, 0, next);
    CurveEnds(k);
    QuadrantsMeet(Pow2(k), q);
  }

  /** The quarter that position `d` lies in, and where it starts: the next position is in it too or starts the next. */
  lemma QuarterOf(k: nat, up: nat, d: nat) returns (q: nat, base: nat)
    requires d + 1 < Cells(up) && up == k + 1
    ensures q < 4 && base == Times(Cells(k), q) && base <= d
    ensures d + 1 < base + Cells(k) || (q < 3 && d == base + (Cells(k) - 1) && d + 1 == Times(Cells(k), q + 1))
  {
    q := Quarter(Cells(k), d);
    base := Times(Cells(k), q);
    QuarterRest(Cells(k), d);
  }

  /** Consecutive positions are neighbouring cells. */
  lemma {:induction false} CurveSteps(k: nat, d: nat, next: nat)
    requires next == d + 1 < Cells(k)
    ensures Adjacent(Curve(k, d), Curve(k, next))
  {
    if k > 0 {
      var q, base := QuarterOf(k - 1, k, d);
      if next < base + Cells(k - 1) {
        var r: nat := d - base;
        CurveSteps(k - 1, r, r + 1);
        WithinQuarter(k - 1, k, q, r, r + 1, d, next);
      } else {
        BetweenQuarters(k - 1, k, q, d, next);
      }
    }
  }

  // ---------------------------------------------------------------- the loops

  /** `rot`: reflect and flip a quadrant of side `n`. */
  function Rot(n: int, p: Point, rx: int, ry: int): Point {
    if ry == 0 then (if rx == 1 then Point(n - 1 - p.y, n - 1 - p.x) else Point(p.y, p.x)) else p
  }

  /** The exclusive or of 3 * rx and ry, for bits rx and ry. */
  function Quadrant(rx: int, ry: int): int {
    if rx == 1 then 3 - ry else ry
  }

  lemma TimesIs(n: nat, q: nat)
    requires q < 4
    ensures Times(n, q) == n * q
  {
    if q == 2 {
    } else if q == 3 {
    }
  }

  lemma {:induction false} CellsIsSquare(k: nat)
    ensures Cells(k) == Pow2(k) * Pow2(k)
  {
    if k > 0 {
      var s := Pow2(k - 1);
      CellsIsSquare(k - 1);
      assert (2 * s) * (2 * s) == 4 * (s * s);
    }
  }

  lemma RotPlaces(s: int, p: Point, q: nat, rx: int, ry: int)
    requires q < 4 && rx == q / 2 && ry == (q + rx) % 2
    ensures var r := Rot(s, p, rx, ry); Point(r.x + s * rx, r.y + s * ry) == Place(s, p, q)
  {
    if q == 0 {
    } else if q == 1 {
    } else if q == 2 {
    } else {
    }
  }

  /** `i4_power` with a non-negative exponent. */
  method I4Power(i: int, j: nat) returns (value: int)
    requires i == 2
    ensures value == Pow2(j)
  {
    if j == 0 {
      value := 1;
    } else if j == 1 {
      value := i;
    } else {
      value := 1;
      for k := 0 to j
        invariant value == Pow2(k)
      {
        value := value * i;
      }
    }
  }

  lemma {:induction false} Pow2Grows(k: nat, m: nat)
    requires k <= m
    ensures Pow2(k) <= Pow2(m) && (k < m ==> Pow2(k) < Pow2(m))
  {
    if k < m {
      Pow2Grows(k, m - 1);
    }
  }

  /** The next base-4 digit of the position. */
  lemma NextDigit(k: nat, d: nat, t: nat, r: nat, q: nat, r': nat)
    requires r < Cells(k) && d == t * Cells(k) + r && q == t % 4 && r' == Times(Cells(k), q) + r
    ensures d == (t / 4) * Cells(k + 1) + r'
    ensures (t / 2) % 2 == q / 2 && (t + q / 2) % 2 == (q + q / 2) % 2
  {
    TimesIs(Cells(k), q);
    Regroup(Cells(k), t, t / 4, q);
    LowBits(t, t / 4, q);
  }

  lemma LastBit(x: nat, half: nat, bit: nat)
    requires x == 2 * half + bit && bit < 2
    ensures x / 2 == half && x % 2 == bit
  {
  }

  lemma LowBits(t: nat, u: nat, q: nat)
    requires t == 4 * u + q && q < 4
    ensures (t / 2) % 2 == q / 2 && (t + q / 2) % 2 == (q + q / 2) % 2
  {
    var high, low := if q < 2 then 0 else 1, if q == 1 || q == 3 then 1 else 0;
    LastBit(q, high, low);
    LastBit(t, 2 * u + high, low);
    LastBit(2 * u + high, u, high);
    var sum := q + high;
    LastBit(sum, if q < 2 then 0 else if q == 2 then 1 else 2, if q == 1 || q == 2 then 1 else 0);
    LastBit(t + high, 2 * u + sum / 2, sum % 2);
  }

  lemma Regroup(n: nat, t: nat, u: nat, q: nat)
    requires t == 4 * u + q
    ensures t * n == u * (4 * n) + n * q
  {
    assert t * n == (4 * u) * n + q * n;
  }

  lemma NotYet(m: nat, k: nat)
    requires k <= m && Pow2(k) < Pow2(m)
    ensures k < m
  {
  }

  lemma LastDigit(m: nat, k: nat, d: nat, t: nat, r: nat)
    requires k <= m && Pow2(k) >= Pow2(m) && d < Cells(m) && d == t * Cells(k) + r
    ensures k == m && t == 0 && r == d
  {
    Pow2Grows(k, m);
    MultiplesApart(Cells(k), 0, t);
  }

  /** `d2xy`: from a position to its cell, one base-4 digit after the other from the last one. */
  method D2xy(m: nat, d: nat) returns (p: Point)
    requires d < Cells(m)
    ensures p == Curve(m, d)
  {
    var n := I4Power(2, m);
    p := Point(0, 0);
    var t, s := d, 1;
    ghost var k, r := 0, 0;
    while s < n
      invariant k <= m && s == Pow2(k) && n == Pow2(m) && t >= 0 && 0 <= r < Cells(k)
      invariant d == t * Cells(k) + r && p == Curve(k, r)
      decreases n - s
    {
      NotYet(m, k);
      var rx := (t / 2) % 2;
      var ry := (t + rx) % 2;
      ghost var q := t % 4;
      ghost var r' := Times(Cells(k), q) + r;
      NextDigit(k, d, t, r, q, r');
      CurveParts(k, q, r, r');
      RotPlaces(s, p, q, rx, ry);
      p := Rot(s, p, rx, ry);
      p := Point(p.x + s * rx, p.y + s * ry);
      r := r';
      k := k + 1;
      t := t / 4;
      s := s * 2;
    }
    LastDigit(m, k, d, t, r);
  }

  /** The bit of weight `s` of a two's complement number. */
  function Bit(x: int, s: int): int
    requires s >= 1
  {
    (x / s) % 2
  }

  /** The bits below 2^k. */
  ghost function Low(k: nat, p: Point): Point {
    Point(p.x % Pow2(k), p.y % Pow2(k))
  }

  lemma ModHalf(x: int, s: nat)
    requires s >= 1
    ensures x % (2 * s) == (if Bit(x, s) == 1 then s else 0) + x % s && (Bit(x, s) == 0 || Bit(x, s) == 1)
  {
    var u := x / s;
    assert x == s * u + x % s;
    var v := u / 2;
    assert u == 2 * v + u % 2;
    assert s * u == v * (2 * s) + s * (u % 2);
    QuotientIs(x, v, 2 * s);
  }

  lemma ModReflect(x: int, s: nat)
    requires s >= 1
    ensures (s - 1 - x) % s == s - 1 - x % s
  {
    var u := x / s;
    assert x == s * u + x % s;
    assert (-u) * s == -(s * u);
    QuotientIs(s - 1 - x, -u, s);
  }

  /** Only the bits below s matter: the loop may leave coordinates negative or too large. */
  lemma LowBitsMatter(k: nat, p: Point, rx: int, ry: int)
    requires rx == Bit(p.x, Pow2(k)) && ry == Bit(p.y, Pow2(k))
    ensures (rx == 0 || rx == 1) && (ry == 0 || ry == 1)
    ensures var s, q := Pow2(k), QuadrantOf(Pow2(k), Low(k + 1, p));
            q == Quadrant(rx, ry) && Unplace(s, Low(k + 1, p), q) == Low(k, Rot(s, p, rx, ry))
  {
    var s := Pow2(k);
    ModHalf(p.x, s);
    ModHalf(p.y, s);
    ModReflect(p.x, s);
    ModReflect(p.y, s);
  }

  /** One round: the leading bits give the quadrant, the rest is the position in a curve of half the side. */
  lemma IndexNext(k: nat, p: Point, s: nat, rx: int, ry: int)
    requires s == Pow2(k) && rx == Bit(p.x, s) && ry == Bit(p.y, s)
    ensures Index(k + 1, Low(k + 1, p)) == s * s * Quadrant(rx, ry) + Index(k, Low(k, Rot(s, p, rx, ry)))
  {
    LowBitsMatter(k, p, rx, ry);
    CellsIsSquare(k);
    TimesIs(Cells(k), Quadrant(rx, ry));
  }

  /** The weight of the leading bit of a k-bit number. */
  function Weight(k: nat): nat {
    if k == 0 then 0 else Pow2(k - 1)
  }

  lemma WeightHalves(k: nat)
    ensures Weight(k + 1) == Pow2(k) && Weight(k + 1) / 2 == Weight(k)
  {
  }

  lemma LowOf(m: nat, p: Point)
    requires InSquare(p, Pow2(m))
    ensures Low(m, p) == p && Pow2(m) / 2 == Weight(m)
  {
    QuotientIs(p.x, 0, Pow2(m));
    QuotientIs(p.y, 0, Pow2(m));
    HalfWeight(m);
  }

  lemma HalfWeight(m: nat)
    ensures Pow2(m) / 2 == Weight(m)
  {
  }

  /** `xy2d`: from a cell to its position, one bit of each coordinate after the other from the first one. */
  method Xy2d(m: nat, p0: Point) returns (d: int)
    requires InSquare(p0, Pow2(m))
    ensures d == Index(m, p0)
  {
    var n := I4Power(2, m);
    var p := p0;
    d := 0;
    var s := n / 2;
    ghost var k: int := m;
    LowOf(m, p0);
    while s > 0
      invariant k >= 0 && s == Weight(k) && d + Index(k, Low(k, p)) == Index(m, p0)
      decreases k
    {
      k := k - 1;
      WeightHalves(k);
      var rx := Bit(p.x, s);
      var ry := Bit(p.y, s);
      IndexNext(k, p, s, rx, ry);
      d := d + s * s * Quadrant(rx, ry);
      p := Rot(s, p, rx, ry);
      s := s / 2;
    }
  }
}
