/** Fixed-width unsigned words as mathematical integers.  C's wrap-around is written out with `%`;
    the bit operators are defined bit by bit, so that masks and shifts can be reasoned about on integers.
 */
module Words {

  const TWO8 := 0x100
  const TWO16 := 0x1_0000
  const TWO32 := 0x1_0000_0000
  const TWO64 := 0x1_0000_0000_0000_0000

  type U8 = x: int | 0 <= x < TWO8
  type U16 = x: int | 0 <= x < TWO16
  type U32 = x: int | 0 <= x < TWO32
  type U64 = x: int | 0 <= x < TWO64
  type I32 = x: int | -0x8000_0000 <= x < 0x8000_0000

  function Min(a: int, b: int): int {
    if a <= b then a else b
  }

  // ---------------------------------------------------------------------------------------------
  // Bits
  // ---------------------------------------------------------------------------------------------

  function Pow2(k: nat): (p: nat)
    ensures p >= 1
  {
    if k == 0 then 1 else 2 * Pow2(k - 1)
  }

  /** Bit i of x, counting from the least significant one. */
  predicate Bit(x: nat, i: nat) {
    if i == 0 then x % 2 == 1 else Bit(x / 2, i - 1)
  }

  function BitAnd(x: nat, y: nat): nat {
    if x == 0 then 0 else 2 * BitAnd(x / 2, y / 2) + (if x % 2 == 1 && y % 2 == 1 then 1 else 0)
  }

  function BitOr(x: nat, y: nat): nat
    decreases x + y
  {
    if x == 0 && y == 0 then 0
    else 2 * BitOr(x / 2, y / 2) + (if x % 2 == 1 || y % 2 == 1 then 1 else 0)
  }

  function Shr(x: nat, k: nat): nat {
    if k == 0 then x else Shr(x / 2, k - 1)
  }

  lemma {:induction false} Pow2Monotone(j: nat, k: nat)
    requires j <= k
    ensures Pow2(j) <= Pow2(k)
  {
    if j < k {
      Pow2Monotone(j, k - 1);
    }
  }

  lemma {:induction false} Pow2Sum(j: nat, k: nat)
    ensures Pow2(j + k) == Pow2(j) * Pow2(k)
  {
    if j == 0 {
    } else {
      Pow2Sum(j - 1, k);
      var p, q := Pow2(j - 1), Pow2(k);
      assert 2 * p * q == 2 * (p * q);
    }
  }

  lemma Pow2Plus4(k: nat)
    ensures Pow2(k + 4) == 16 * Pow2(k)
  {
    assert Pow2(k + 4) == 2 * Pow2(k + 3);
    assert Pow2(k + 2) == 2 * Pow2(k + 1);
  }

  lemma Pow2Plus16(k: nat)
    ensures Pow2(k + 16) == TWO16 * Pow2(k)
  {
    Pow2Plus4(k);
    Pow2Plus4(k + 4);
    Pow2Plus4(k + 8);
    Pow2Plus4(k + 12);
  }

  lemma Pow2Plus64(k: nat)
    ensures Pow2(k + 64) == TWO64 * Pow2(k)
  {
    Pow2Plus16(k);
    Pow2Plus16(k + 16);
    Pow2Plus16(k + 32);
    Pow2Plus16(k + 48);
  }

  lemma Pow2At64()
    ensures Pow2(64) == TWO64 == 2 * Pow2(63)
  {
    Pow2Plus64(0);
  }

  lemma {:induction false} BitOfOr(x: nat, y: nat, i: nat)
    ensures Bit(BitOr(x, y), i) <==> Bit(x, i) || Bit(y, i)
    decreases i
  {
    var z := BitOr(x, y);
    assert z / 2 == BitOr(x / 2, y / 2);
    if i > 0 {
      BitOfOr(x / 2, y / 2, i - 1);
    }
  }

  lemma {:induction false} BitOfShr(x: nat, k: nat, i: nat)
    ensures Bit(Shr(x, k), i) == Bit(x, i + k)
    decreases k
  {
    if k > 0 {
      BitOfShr(x / 2, k - 1, i);
    }
  }

  lemma {:induction false} NoBits(i: nat)
    ensures !Bit(0, i)
  {
    if i > 0 {
      NoBits(i - 1);
    }
  }

  /** Every number that is not zero has a highest set bit, and lies in the interval that bit names. */
  lemma {:induction false} TopBit(x: nat) returns (k: nat)
    requires x > 0
    ensures Bit(x, k)
    ensures forall i :: i > k ==> !Bit(x, i)
    ensures Pow2(k) <= x < Pow2(k + 1)
    decreases x
  {
    if x == 1 {
      k := 0;
      forall i | i > k
        ensures !Bit(x, i)
      {
        NoBits(i - 1);
      }
    } else {
      var j := TopBit(x / 2);
      k := j + 1;
      forall i | i > k
        ensures !Bit(x, i)
      {
        assert Bit(x, i) == Bit(x / 2, i - 1);
      }
    }
  }

  /** A number whose set bits are exactly 0..k-1 is 2^k - 1. */
  lemma {:induction false} AllOnes(x: nat, k: nat)
    requires forall i :: 0 <= i < k ==> Bit(x, i)
    requires forall i :: i >= k ==> !Bit(x, i)
    ensures x == Pow2(k) - 1
    decreases k
  {
    if k == 0 {
      if x > 0 {
        var t := TopBit(x);
      }
    } else {
      forall i | 0 <= i
        ensures Bit(x / 2, i) == Bit(x, i + 1)
      {
      }
      assert Bit(x, 0);
      AllOnes(x / 2, k - 1);
    }
  }

  // ---------------------------------------------------------------------------------------------
  // Remainders
  // ---------------------------------------------------------------------------------------------

  lemma MulAtLeast(a: int, m: int)
    requires a >= 1 && m > 0
    ensures a * m >= m
  {
    assert a * m == (a - 1) * m + m;
  }

  lemma MulMonotone(a: int, b: int, m: int)
    requires a <= b && m >= 0
    ensures a * m <= b * m
  {
    assert b * m == a * m + (b - a) * m;
  }

  lemma EuclidUnique(m: int, q: int, r: int, q': int, r': int)
    requires 0 <= r < m && 0 <= r' < m
    requires q * m + r == q' * m + r'
    ensures q == q' && r == r'
  {
    assert (q - q') * m == r' - r && (q' - q) * m == r - r';
    if q > q' {
      MulAtLeast(q - q', m);
    } else if q < q' {
      MulAtLeast(q' - q, m);
    }
  }

  lemma DivModUnique(x: int, m: int, q: int, r: int)
    requires 0 <= r < m
    requires x == q * m + r
    ensures x / m == q && x % m == r
  {
    EuclidUnique(m, q, r, x / m, x % m);
  }

  /** The remainder by a product, from the remainder by one factor and what is above it. */
  lemma ModSplit(x: int, m: int, k: int)
    requires m > 0 && k > 0
    ensures m * k > 0
    ensures x % (m * k) == x / m % k * m + x % m && x / (m * k) == x / m / k
  {
    var q, r := x / m, x % m;
    var q2, r2 := q / k, q % k;
    MulAtLeast(k, m);
    MulMonotone(r2, k - 1, m);
    assert (q2 * k + r2) * m == q2 * (m * k) + r2 * m;
    DivModUnique(x, m * k, q2, r2 * m + r);
  }

  lemma ModShift(x: int, m: int, q: int)
    requires m > 0
    ensures (x + q * m) % m == x % m
  {
    DivModUnique(x + q * m, m, x / m + q, x % m);
  }

  /** Wrapping before an addition does not change the wrapped sum. */
  lemma ModStep(x: int, d: int, m: int)
    requires m > 0
    ensures (x % m + d) % m == (x + d) % m
  {
    ModShift(x + d, m, -(x / m));
    assert x % m + d == x + d + -(x / m) * m;
  }

  lemma ModDouble(x: nat, p: nat)
    requires p > 0
    ensures x % (2 * p) == 2 * (x / 2 % p) + x % 2
  {
    var q, r := x / 2 / p, x / 2 % p;
    assert x / 2 == q * p + r;
    assert q * (2 * p) == 2 * (q * p);
    DivModUnique(x, 2 * p, q, 2 * r + x % 2);
  }

  lemma {:induction false} AndZero(x: nat)
    ensures BitAnd(x, 0) == 0
  {
    if x > 0 {
      AndZero(x / 2);
    }
  }

  /** Masking with 2^k - 1 is reduction modulo 2^k. */
  lemma {:induction false} AndMask(x: nat, k: nat)
    ensures BitAnd(x, Pow2(k) - 1) == x % Pow2(k)
    decreases k
  {
    if k == 0 {
      AndZero(x);
    } else {
      var p := Pow2(k - 1);
      var y := Pow2(k) - 1;
      assert y == 2 * p - 1 && y / 2 == p - 1 && y % 2 == 1;
      AndMask(x / 2, k - 1);
      ModDouble(x, p);
    }
  }
}
