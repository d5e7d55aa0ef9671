/** The bucket of a reuse distance: a 64-bit base-2 ceiling computed with six masks.

    The loop halves the number of bits it still has to look at: a mask tells whether anything is set in the upper half,
    and if so the lower half is dropped and its width added to the result. What remains in the end is one bit. A number
    that is not a power of two has a bit below its highest one, which is what the test on x and x - 1 finds out before
    the loop starts. The bitwise operations are defined on natural numbers and related to division by powers of two;
    the bracket 2^(y-1) < x <= 2^y then determines the result. */
module BinaryLog {

  function Pow2(k: nat): (p: nat)
    ensures p > 0
  {
    if k == 0 then 1 else 2 * Pow2(k - 1)
  }

  /** Bitwise and of two naturals. */
  function And(x: nat, y: nat): nat {
    if x == 0 || y == 0 then 0 else 2 * And(x / 2, y / 2) + (x % 2) * (y % 2)
  }

  predicate IsPow2(x: nat) {
    x == 1 || (x > 0 && x % 2 == 0 && IsPow2(x / 2))
  }

  // ---------------------------------------------------------------- the two bit tricks

  lemma BitSquare(b: nat)
    requires b < 2
    ensures b * b == b
  {
  }

  lemma {:induction false} AndSelf(x: nat)
    ensures And(x, x) == x
  {
    if x > 0 {
      AndSelf(x / 2);
      BitSquare(x % 2);
    }
  }

  /** `x & (x - 1)` is zero exactly for powers of two. */
  lemma {:induction false} ClearsLowestBit(x: nat)
    requires x > 0
    ensures And(x, x - 1) == 0 <==> IsPow2(x)
  {
    if x > 1 {
      if x % 2 == 0 {
        assert (x - 1) / 2 == x / 2 - 1 && (x - 1) % 2 == 1;
        ClearsLowestBit(x / 2);
      } else {
        assert (x - 1) / 2 == x / 2 && (x - 1) % 2 == 0;
        AndSelf(x / 2);
      }
    }
  }

  lemma {:induction false} AndLow(x: nat, j: nat)
    ensures And(x, Pow2(j) - 1) == x % Pow2(j)
  {
    if j > 0 {
      var p := Pow2(j - 1);
      AndLow(x / 2, j - 1);
      assert (2 * p - 1) / 2 == p - 1 && (2 * p - 1) % 2 == 1;
      ModHalves(x, p);
    }
  }

  lemma ModHalves(x: nat, p: nat)
    requires p > 0
    ensures x % (2 * p) == 2 * (x / 2 % p) + x % 2
  {
    var q, r := x / 2 / p, x / 2 % p;
    assert x / 2 == q * p + r;
    assert x == q * (2 * p) + (2 * r + x % 2);
    ModUnique(x, 2 * p, q, 2 * r + x % 2);
  }

  lemma ModUnique(x: nat, m: nat, q: nat, r: nat)
    requires 0 <= r < m && x == q * m + r
    ensures x / m == q && x % m == r
  {
    var q', r' := x / m, x % m;
    assert x == q' * m + r';
    MulGap(q, q', m);
    MulGap(q', q, m);
  }

  lemma MulGap(a: nat, b: nat, c: nat)
    ensures a < b ==> a * c + c <= b * c
  {
    if a < b {
      assert b * c == a * c + (b - a) * c;
      assert (b - a) * c >= c by {
        assert (b - a) * c == c + (b - a - 1) * c;
      }
    }
  }

  lemma DivDiv(x: nat, a: nat, b: nat)
    requires a > 0 && b > 0
    ensures a * b > 0 && x / a / b == x / (a * b)
  {
    var y, r := x / a, x % a;
    var q, t := y / b, y % b;
    Regroup(x, a, b, y, r, q, t);
    ModUnique(x, a * b, q, t * a + r);
  }

  lemma Regroup(x: nat, a: nat, b: nat, y: nat, r: nat, q: nat, t: nat)
    requires x == y * a + r && r < a && y == q * b + t && t < b
    ensures x == q * (a * b) + (t * a + r) && t * a + r < a * b
  {
    assert y * a == q * (a * b) + t * a by {
      Distribute(q * b, t, a);
      Associate(q, b, a);
    }
    MulGap(t, b, a);
  }

  lemma Distribute(x: nat, y: nat, z: nat)
    ensures (x + y) * z == x * z + y * z
  {
  }

  lemma Associate(x: nat, y: nat, z: nat)
    ensures x * y * z == x * (z * y)
  {
  }

  /** Masking the bits from `s` up sees nothing exactly if they are all zero. */
  lemma {:induction false} AndShifted(x: nat, m: nat, s: nat, y: nat, z: nat)
    requires y == Pow2(s) * m && z == x / Pow2(s)
    ensures And(x, y) == 0 <==> And(z, m) == 0
  {
    if s == 0 {
      assert y == m && z == x;
    } else {
      TwiceTimes(Pow2(s - 1), m);
      DivDiv(x, 2, Pow2(s - 1));
      AndShifted(x / 2, m, s - 1, Pow2(s - 1) * m, z);
      AndEven(x, Pow2(s - 1) * m, y);
    }
  }

  lemma TwiceTimes(p: nat, m: nat)
    ensures 2 * p * m == 2 * (p * m)
  {
  }

  lemma AndEven(x: nat, y: nat, z: nat)
    requires z == 2 * y
    ensures And(x, z) == 2 * And(x / 2, y)
  {
  }

  // ---------------------------------------------------------------- the bucket

  /** The smallest y with x <= 2^y. */
  function Bucket(x: nat): nat {
    if x <= 1 then 0 else 1 + Bucket((x + 1) / 2)
  }

  /** The bucket of a distance brackets it: 2^(y-1) < x <= 2^y. */
  lemma {:induction false} BucketBrackets(x: nat)
    requires x > 0
    ensures x <= Pow2(Bucket(x))
    ensures Bucket(x) > 0 ==> Pow2(Bucket(x) - 1) < x
  {
    if x > 1 {
      BucketBrackets((x + 1) / 2);
    }
  }

  lemma {:induction false} Pow2Monotone(a: nat, b: nat)
    requires a <= b
    ensures Pow2(a) <= Pow2(b)
  {
    if a < b {
      Pow2Monotone(a, b - 1);
    }
  }

  lemma {:induction false} Pow2Sum(a: nat, b: nat)
    ensures Pow2(a + b) == Pow2(a) * Pow2(b)
  {
    if b > 0 {
      Pow2Sum(a, b - 1);
    }
  }

  /** Only one y brackets x. */
  lemma BucketUnique(x: nat, y: nat)
    requires x > 0 && x <= Pow2(y) && (y > 0 ==> Pow2(y - 1) < x)
    ensures y == Bucket(x)
  {
    BucketBrackets(x);
    if y < Bucket(x) {
      Pow2Monotone(y, Bucket(x) - 1);
    } else if y > Bucket(x) {
      Pow2Monotone(Bucket(x), y - 1);
    }
  }

  /** Between two consecutive powers only the lower one is a power. */
  lemma {:induction false} PowerBetween(x: nat, k: nat)
    requires Pow2(k) <= x < Pow2(k + 1)
    ensures IsPow2(x) <==> x == Pow2(k)
  {
    if k > 0 {
      if x % 2 == 0 {
        PowerBetween(x / 2, k - 1);
      }
    }
  }

  /** One round: with x below 2^(2j), the mask of the bits j..2j-1 tells whether x reaches 2^j. */
  lemma MaskTells(x: nat, j: nat)
    requires x < Pow2(2 * j)
    ensures And(x, Pow2(j) * (Pow2(j) - 1)) == 0 <==> x < Pow2(j)
  {
    MaskIsDiv(x, j, Pow2(j) * (Pow2(j) - 1), x / Pow2(j));
    Pow2Sum(j, j);
    DivBelow(x, Pow2(j), Pow2(j));
    SmallMod(x / Pow2(j), Pow2(j));
  }

  lemma MaskIsDiv(x: nat, j: nat, y: nat, z: nat)
    requires y == Pow2(j) * (Pow2(j) - 1) && z == x / Pow2(j)
    ensures And(x, y) == 0 <==> z % Pow2(j) == 0
  {
    AndShifted(x, Pow2(j) - 1, j, y, z);
    AndLow(z, j);
  }

  lemma SmallMod(x: nat, p: nat)
    requires x < p
    ensures x % p == x
  {
  }

  lemma DivBelow(x: nat, p: nat, q: nat)
    requires p > 0 && x < p * q
    ensures x / p < q && (x / p == 0 <==> x < p)
  {
    assert x == x / p * p + x % p;
    MulGap(q, x / p, p);
    MulGap(0, x / p, p);
  }

  /** The bits below 2j after one round of shifting. */
  lemma ShiftShrinks(x: nat, j: nat, x0: nat, acc: nat)
    requires 0 < x < Pow2(2 * j) && x == x0 / Pow2(acc) && x >= Pow2(j)
    ensures 0 < x / Pow2(j) < Pow2(j)
    ensures x / Pow2(j) == x0 / Pow2(acc + j)
  {
    Pow2Sum(j, j);
    DivBelow(x, Pow2(j), Pow2(j));
    Pow2Sum(acc, j);
    DivDiv(x0, Pow2(acc), Pow2(j));
  }

  /** The six masks: t[i] covers the bits j..2j-1 for j = 32, 16, 8, 4, 2, 1. */
  function Masks(): seq<nat> {
    [0xFFFFFFFF00000000, 0x00000000FFFF0000, 0x000000000000FF00, 0x00000000000000F0, 0x000000000000000C,
     0x0000000000000002]
  }

  function Width(i: nat): nat
    requires i < 6
  {
    Pow2(5 - i)
  }

  lemma MasksAre(i: nat)
    requires i < 6
    ensures Masks()[i] == Pow2(Width(i)) * (Pow2(Width(i)) - 1)
    ensures i < 5 ==> 2 * Width(i + 1) == Width(i)
  {
    var k := 2;
    Pow2Doubles(k, 4);
    Pow2Doubles(2 * k, 16);
    Pow2Doubles(4 * k, 256);
    Pow2Doubles(8 * k, 0x1_0000);
  }

  /** One round on the way down: what is left of `x` fits in the bits that are still to be looked at. */
  lemma Round(x0: nat, x: nat, j: nat, mask: nat, k: nat, acc: nat)
    requires 0 < x < Pow2(2 * j) && x == x0 / Pow2(acc) && mask == Pow2(j) * (Pow2(j) - 1)
    requires k == if And(x, mask) == 0 then 0 else j
    ensures 0 < x / Pow2(k) < Pow2(j) && x / Pow2(k) == x0 / Pow2(acc + k)
  {
    MaskTells(x, j);
    if And(x, mask) != 0 {
      ShiftShrinks(x, j, x0, acc);
    } else {
      assert Pow2(k) == 1;
    }
  }

  /** The body of the loop: drop `j` bits if the mask sees something above them. */
  method MaskAndShift(x: nat, j: nat, mask: nat, ghost x0: nat, ghost acc: nat) returns (k: nat, x': nat)
    requires 0 < x < Pow2(2 * j) && x == x0 / Pow2(acc) && mask == Pow2(j) * (Pow2(j) - 1)
    ensures 0 < x' < Pow2(j) && x' == x0 / Pow2(acc + k)
  {
    k := if And(x, mask) == 0 then 0 else j;
    Round(x0, x, j, mask, k, acc);
    x' := x / Pow2(k);
  }

  /** Base-2 ceiling of a 64-bit number. */
  method CeilLog2(x0: nat) returns (y: nat)
    requires x0 < 0x1_0000_0000_0000_0000
    ensures y == Bucket(x0)
  {
    if x0 == 0 {
      return 0;
    }
    var x, j := x0, 32;
    y := if And(x, x - 1) == 0 then 0 else 1;
    ghost var acc: nat, extra, bits := 0, y, 64;
    Pow2Of64(Width(0));
    for i := 0 to 6
      invariant i < 6 ==> j == Width(i) && bits == 2 * j
      invariant i == 6 ==> bits == 1
      invariant 0 < x < Pow2(bits)
      invariant x == x0 / Pow2(acc) && y == acc + extra
    {
      MasksAre(i);
      bits := j;
      var k;
      k, x := MaskAndShift(x, j, Masks()[i], x0, acc);
      y := y + k;
      acc := acc + k;
      j := j / 2;
    }
    FloorToCeiling(x0, acc);
  }

  lemma Pow2Doubles(k: nat, v: nat)
    requires Pow2(k) == v
    ensures Pow2(2 * k) == v * v
  {
    Pow2Sum(k, k);
  }

  lemma Pow2Of64(w: nat)
    requires w == Width(0)
    ensures w == 32 && Pow2(2 * w) == 0x1_0000_0000_0000_0000
  {
    var k := 2;
    Pow2Doubles(k, 4);
    Pow2Doubles(2 * k, 16);
    Pow2Doubles(4 * k, 256);
    Pow2Doubles(8 * k, 0x1_0000);
    Pow2Doubles(16 * k, 0x1_0000_0000);
  }

  lemma FloorToCeiling(x: nat, acc: nat)
    requires x > 0 && x / Pow2(acc) == 1
    ensures Bucket(x) == acc + if And(x, x - 1) == 0 then 0 else 1
  {
    var p := Pow2(acc);
    assert x == x / p * p + x % p;
    assert p <= x < 2 * p;
    ClearsLowestBit(x);
    PowerBetween(x, acc);
    if IsPow2(x) {
      if acc > 0 {
        Pow2Monotone(acc - 1, acc);
      }
      BucketUnique(x, acc);
    } else {
      BucketUnique(x, acc + 1);
    }
  }
}
