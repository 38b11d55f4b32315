/** The index arithmetic of the ring: power-of-two capacities, masks, and 64-bit differences. */
module RingIndex {
  import opened Words

  /** The capacity is the least power of two that is not below the request; above 2^63 the last
      increment wraps to 0. */
  ghost predicate IsLeastPowerOfTwo(n: nat, c: nat, k: nat) {
    && c == Pow2(k)
    && n <= c
    && forall j: nat :: n <= Pow2(j) ==> c <= Pow2(j)
  }

  /** Bits k-w+1 .. k of n are set, and none above k. */
  ghost predicate Smeared(n: nat, k: nat, w: nat) {
    && (forall i: nat :: k - w < i <= k ==> Bit(n, i))
    && (forall i: nat :: i > k ==> !Bit(n, i))
  }

  /** One `n |= n >> w` doubles the run of ones under the top bit. */
  lemma SmearStep(n: nat, k: nat, w: nat)
    requires Smeared(n, k, w)
    ensures Smeared(BitOr(n, Shr(n, w)), k, 2 * w)
  {
    var m := BitOr(n, Shr(n, w));
    forall i: nat
      ensures k - 2 * w < i <= k ==> Bit(m, i)
      ensures i > k ==> !Bit(m, i)
    {
      BitOfOr(n, Shr(n, w), i);
      BitOfShr(n, w, i);
    }
  }

  /** The or-shifts by w, 2 * w and so on, below 64. */
  function Smear(n: nat, w: nat): nat
    requires w > 0
    decreases 64 - w
  {
    if w >= 64 then n else Smear(BitOr(n, Shr(n, w)), 2 * w)
  }

  /** What the final increment makes of a fully smeared word. */
  ghost predicate Rounded(size: nat, s: nat, k: nat) {
    && (size <= Pow2(63) ==> IsLeastPowerOfTwo(size, (s + 1) % TWO64, k) && k <= 63)
    && (size > Pow2(63) ==> (s + 1) % TWO64 == 0)
  }

  lemma LeastAbove(n: nat, t: nat)
    requires Pow2(t) <= n < Pow2(t + 1)
    ensures IsLeastPowerOfTwo(n + 1, Pow2(t + 1), t + 1)
  {
    forall j: nat | n + 1 <= Pow2(j)
      ensures Pow2(t + 1) <= Pow2(j)
    {
      if j <= t {
        Pow2Monotone(j, t);
      } else {
        Pow2Monotone(t + 1, j);
      }
    }
  }

  lemma InWord(n: nat, t: nat)
    requires Pow2(t) <= n < TWO64
    ensures t <= 63
  {
    Pow2Monotone(Min(64, t), t);
    Pow2At64();
  }

  /** Bit t is the highest of `word`, and n is all ones up to it. */
  ghost predicate OnesUpTo(word: nat, n: nat, t: nat) {
    match (word, n)
    case (w, ones) => Pow2(t) <= w < Pow2(t + 1) && ones == Pow2(t + 1) - 1
  }

  lemma RoundedUp(size: nat, t: nat, s: nat)
    requires 0 < size < TWO64 && OnesUpTo(size - 1, s, t)
    ensures Rounded(size, s, t + 1)
  {
    InWord(size - 1, t);
    Pow2At64();
    LeastAbove(size - 1, t);
    if t == 63 {
      assert Pow2(t + 1) == TWO64;
    } else {
      Pow2Monotone(t + 1, 63);
      DivModUnique(Pow2(t + 1), TWO64, 0, Pow2(t + 1));
    }
  }

  lemma {:induction false} SmearAll(n: nat, t: nat, w: nat)
    requires t <= 63 && w > 0 && Smeared(n, t, w)
    ensures Smear(n, w) == Pow2(t + 1) - 1
    decreases 64 - w
  {
    if w >= 64 {
      AllOnes(n, t + 1);
    } else {
      SmearStep(n, t, w);
      SmearAll(BitOr(n, Shr(n, w)), t, 2 * w);
    }
  }

  /** The or-shifts make ones of all bits up to the highest. */
  lemma SmearedFrom(word: nat, n: nat) returns (t: nat)
    requires 0 < word < TWO64 && n == Smear(word, 1)
    ensures OnesUpTo(word, n, t)
  {
    t := TopBit(word);
    InWord(word, t);
    SmearAll(word, t, 1);
  }

  lemma RoundedFrom(size: nat, n: nat) returns (k: nat)
    requires 2 <= size < TWO64 && n == Smear(size - 1, 1)
    ensures Rounded(size, n, k)
  {
    var t := SmearedFrom(size - 1, n);
    RoundedUp(size, t, n);
    k := t + 1;
  }

  lemma RoundedOne()
    ensures Rounded(1, 0, 0)
  {
    Pow2At64();
    assert Pow2(0) == 1;
  }

  lemma {:induction false} ShrZero(k: nat)
    ensures Shr(0, k) == 0
  {
    if k > 0 {
      ShrZero(k - 1);
    }
  }

  lemma {:induction false} SmearZero(w: nat)
    requires w > 0
    ensures Smear(0, w) == 0
    decreases 64 - w
  {
    if w < 64 {
      ShrZero(w);
      SmearZero(2 * w);
    }
  }

  lemma SmearedSize(size: nat, n: nat) returns (k: nat)
    requires 1 <= size < TWO64 && n == Smear(size - 1, 1)
    ensures Rounded(size, n, k)
  {
    if size == 1 {
      k := 0;
      SmearZero(1);
      RoundedOne();
    } else {
      k := RoundedFrom(size, n);
    }
  }

  lemma SmearUnfolds(n: nat, w: nat)
    requires w > 0
    ensures w < 64 ==> Smear(n, w) == Smear(BitOr(n, Shr(n, w)), 2 * w)
    ensures w == 64 ==> Smear(n, w) == n
  {
  }

  /** The six or-shifts. */
  method SmearBits(word: nat) returns (n: nat)
    ensures n == Smear(word, 1)
  {
    n := word;
    SmearUnfolds(n, 1);
    n := BitOr(n, Shr(n, 1));
    SmearUnfolds(n, 2);
    n := BitOr(n, Shr(n, 2));
    SmearUnfolds(n, 4);
    n := BitOr(n, Shr(n, 4));
    SmearUnfolds(n, 8);
    n := BitOr(n, Shr(n, 8));
    SmearUnfolds(n, 16);
    n := BitOr(n, Shr(n, 16));
    SmearUnfolds(n, 32);
    n := BitOr(n, Shr(n, 32));
    SmearUnfolds(n, 64);
  }

  method NextPowerOfTwo(size: U64) returns (c: U64, ghost k: nat)
    ensures size <= Pow2(63) ==> IsLeastPowerOfTwo(size, c, k) && k <= 63
    ensures size > Pow2(63) ==> c == 0
  {
    if size == 0 {
      return 1, 0;
    }
    var n := SmearBits(size - 1);
    k := SmearedSize(size, n);
    c := (n + 1) % TWO64;
  }

  // ---------------------------------------------------------------------------------------------
  // Distances and slots
  // ---------------------------------------------------------------------------------------------

  /** `(w - r) & mask` on 64-bit words. */
  function Distance(w: nat, r: nat, mask: nat): nat {
    BitAnd((w - r) % TWO64, mask)
  }

  /** Where the i-th element after index `start` lives: chunk 1 runs to the end of the buffer,
      chunk 2 restarts at 0. */
  function Slot(start: nat, i: nat, capacity: nat): nat
    requires start < capacity && i <= capacity
  {
    if start + i < capacity then start + i else start + i - capacity
  }

  lemma PowerDividesWord(k: nat)
    requires k <= 63
    ensures Pow2(k) <= Pow2(63) && TWO64 == 2 * Pow2(63)
    ensures TWO64 == Pow2(64 - k) * Pow2(k)
  {
    Pow2At64();
    Pow2Monotone(k, 63);
    Pow2Sum(64 - k, k);
  }

  /** Wrapping at 2^64 first does not change a remainder modulo a smaller power of two. */
  lemma WrapThenReduce(x: int, cap: nat, times: nat)
    requires x < 0 < x + cap && TWO64 == times * cap
    ensures x % TWO64 % cap == x + cap
  {
    assert times >= 1;
    MulAtLeast(times, cap);
    DivModUnique(x, TWO64, -1, x + TWO64);
    assert (times - 1) * cap == TWO64 - cap;
    DivModUnique(x + TWO64, cap, times - 1, x + cap);
  }

  lemma DistanceIs(w: nat, r: nat, k: nat)
    requires k <= 63 && w < Pow2(k) && r < Pow2(k)
    ensures Distance(w, r, Pow2(k) - 1) == if w >= r then w - r else w - r + Pow2(k)
  {
    PowerDividesWord(k);
    AndMask((w - r) % TWO64, k);
    if w < r {
      WrapThenReduce(w - r, Pow2(k), Pow2(64 - k));
    } else {
      DivModUnique(w - r, TWO64, 0, w - r);
      DivModUnique(w - r, Pow2(k), 0, w - r);
    }
  }

  lemma SumInWord(index: nat, n: nat, k: nat)
    requires k <= 63 && index < Pow2(k) && n <= Pow2(k)
    ensures (index + n) % TWO64 == index + n
  {
    Pow2At64();
    Pow2Monotone(k, 63);
    DivModUnique(index + n, TWO64, 0, index + n);
  }

  lemma SlotIsRemainder(index: nat, n: nat, capacity: nat)
    requires index < capacity && n <= capacity
    ensures Slot(index, n, capacity) == (index + n) % capacity < capacity
  {
    if index + n >= capacity {
      DivModUnique(index + n, capacity, 1, index + n - capacity);
    } else {
      DivModUnique(index + n, capacity, 0, index + n);
    }
  }

  lemma AdvanceIs(index: nat, n: nat, k: nat)
    requires k <= 63 && index < Pow2(k) && n <= Pow2(k)
    ensures BitAnd((index + n) % TWO64, Pow2(k) - 1) == Slot(index, n, Pow2(k)) < Pow2(k)
  {
    SumInWord(index, n, k);
    AndMask(index + n, k);
    SlotIsRemainder(index, n, Pow2(k));
  }

  /** The slot of the element with number n, counting from the first element ever stored. */
  function Home(n: nat, capacity: nat): (h: nat)
    requires capacity > 0
    ensures h < capacity
  {
    if n < capacity then n else Home(n - capacity, capacity)
  }

  lemma {:induction false} HomeIsRemainder(n: nat, capacity: nat)
    requires capacity > 0
    ensures Home(n, capacity) == n % capacity
    decreases n
  {
    if n < capacity {
      DivModUnique(n, capacity, 0, n);
    } else {
      HomeIsRemainder(n - capacity, capacity);
      ModShift(n - capacity, capacity, 1);
    }
  }

  lemma {:induction false} SlotOfCounter(a: nat, i: nat, capacity: nat)
    requires 0 < capacity && i <= capacity
    ensures Slot(Home(a, capacity), i, capacity) == Home(a + i, capacity)
    decreases a
  {
    if a >= capacity {
      SlotOfCounter(a - capacity, i, capacity);
    } else if a + i >= capacity {
      if i == capacity {
        assert Home(a + i - capacity, capacity) == a;
      }
    }
  }

  /** The masked difference of two wrapped counters is their true distance, as long as that is
      below the capacity. */
  lemma DistanceOfCounters(a: nat, b: nat, k: nat)
    requires k <= 63 && b <= a < b + Pow2(k)
    ensures Distance(Home(a, Pow2(k)), Home(b, Pow2(k)), Pow2(k) - 1) == a - b
  {
    var cap := Pow2(k);
    SlotOfCounter(b, a - b, cap);
    DistanceIs(Home(a, cap), Home(b, cap), k);
  }

  /** Advancing a wrapped counter by the masked sum follows the unbounded one. */
  lemma AdvanceHome(a: nat, n: nat, k: nat)
    requires k <= 63 && n <= Pow2(k)
    ensures BitAnd((Home(a, Pow2(k)) + n) % TWO64, Pow2(k) - 1) == Home(a + n, Pow2(k))
  {
    AdvanceIs(Home(a, Pow2(k)), n, k);
    SlotOfCounter(a, n, Pow2(k));
  }

  /** Counters less than a capacity apart never share a slot. */
  lemma DistinctSlots(a: nat, b: nat, capacity: nat)
    requires a < b < a + capacity
    ensures Home(a, capacity) != Home(b, capacity)
  {
    SlotOfCounter(a, b - a, capacity);
  }
}
