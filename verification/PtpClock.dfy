/** The slave clock: a PI servo that sets the slope of an affine host-to-PTP mapping.  Doubles are exact
    reals; 64-bit integers wrap. */
module PtpClock {
  import opened Words

  const KP := 0.001
  const KI := 0.0001
  const NS := 1_000_000_000.0
  const SLOPE_BAND := 0.0011

  /** static_cast<int64_t> of a 64-bit unsigned word. */
  function ToSigned(x: U64): int {
    if x >= 0x8000_0000_0000_0000 then x - TWO64 else x
  }

  /** static_cast<int64_t> of a double: towards zero. */
  function Trunc(x: real): int {
    if x >= 0.0 then x.Floor else -(-x).Floor
  }

  function Clamp(x: real): real {
    if x > NS then NS else if x < -NS then -NS else x
  }

  datatype Clock = Clock(slope: real, anchorHost: U64, anchorPTP: U64, integrator: real, offset: real, locked: bool)

  function AfterUpdate(c: Clock, offsetNs: int, hostTime: U64): Clock {
    var error := offsetNs as real;
    var integrator := Clamp(c.integrator + error);
    Clock(1.0 + (KP * error + KI * integrator) / NS, hostTime, c.anchorPTP, integrator, error,
          -500.0 < error < 500.0)
  }

  class PTPClient {
    var affineSlopeA: real
    var rateRatio: real
    var affineAnchorHost: U64
    var affineAnchorPTP: U64
    var integrator: real
    var offsetNs: real
    var locked: bool

    function Abs(): Clock
      reads this
    {
      Clock(affineSlopeA, affineAnchorHost, affineAnchorPTP, integrator, offsetNs, locked)
    }

    constructor (hostTime: U64)
      ensures Abs() == Clock(1.0, hostTime, 0, 0.0, 0.0, false)
    {
      affineSlopeA, rateRatio := 1.0, 1.0;
      affineAnchorHost, affineAnchorPTP := hostTime, 0;
      integrator, offsetNs, locked := 0.0, 0.0, false;
    }

    /** `notify` is the status callback: called exactly when the lock state changes. */
    method ServoUpdate(offset: int, hostTime: U64) returns (notify: bool)
      modifies this
      ensures Abs() == AfterUpdate(old(Abs()), offset, hostTime)
      ensures notify == (locked != old(locked)) && rateRatio == affineSlopeA
    {
      var error := offset as real;
      var pTerm := KP * error;
      integrator := integrator + error;
      if integrator > NS { integrator := NS; }
      if integrator < -NS { integrator := -NS; }
      var iTerm := KI * integrator;
      var adjustment := pTerm + iTerm;
      rateRatio := 1.0 + adjustment / NS;
      affineSlopeA := rateRatio;
      affineAnchorHost := hostTime;
      offsetNs := error;
      var wasLocked := locked;
      locked := (if error < 0.0 then -error else error) < 500.0;
      notify := locked != wasLocked;
    }
  }

  /** A distance scaled by the slope, and scaled back. */
  function Scale(slope: real, d: int): int {
    Trunc(slope * d as real)
  }

  function Unscale(slope: real, p: int): int
    requires slope != 0.0
  {
    Trunc(p as real / slope)
  }

  /** The signed 64-bit distance from an anchor. */
  function DistanceFrom(anchor: U64, t: U64): int {
    ToSigned((t - anchor) % TWO64)
  }

  function HostTimeToPTP(c: Clock, hostTime: U64): U64 {
    (c.anchorPTP + Scale(c.slope, DistanceFrom(c.anchorHost, hostTime))) % TWO64
  }

  function PTPToHostTime(c: Clock, ptpTime: U64): U64
    requires c.slope != 0.0
  {
    (c.anchorHost + Unscale(c.slope, DistanceFrom(c.anchorPTP, ptpTime))) % TWO64
  }

  // ---------------------------------------------------------------------------------------------
  // Bounds on every run of the servo
  // ---------------------------------------------------------------------------------------------

  datatype Sample = Sample(offset: int, hostTime: U64)

  function ServoRun(c: Clock, samples: seq<Sample>): Clock
    decreases |samples|
  {
    if samples == [] then c
    else
      var k := |samples| - 1;
      AfterUpdate(ServoRun(c, samples[..k]), samples[k].offset, samples[k].hostTime)
  }

  ghost predicate Bounded(c: Clock) {
    && -NS <= c.integrator <= NS
    && 1.0 - SLOPE_BAND <= c.slope <= 1.0 + SLOPE_BAND
  }

  predicate AllWithin(samples: seq<Sample>, limit: int) {
    forall i :: 0 <= i < |samples| ==> -limit <= samples[i].offset <= limit
  }

  function Capped(x: real): real {
    if x > NS then NS else x
  }

  /** The most the integrator can have gathered after n offsets of at most `limit` nanoseconds. */
  function Gathered(integrator: real, limit: nat, n: nat): real {
    Capped((if integrator < 0.0 then -integrator else integrator) + (n * limit) as real)
  }

  lemma ClampGrows(before: real, limit: real, x: real, e: real)
    requires -Capped(before) <= x <= Capped(before) && -limit <= e <= limit
    ensures -Capped(before + limit) <= Clamp(x + e) <= Capped(before + limit)
  {
  }

  lemma GatheredGrows(integrator: real, limit: nat, n: nat, x: real, e: int)
    requires -Gathered(integrator, limit, n) <= x <= Gathered(integrator, limit, n)
    requires -(limit as int) <= e <= limit
    ensures -Gathered(integrator, limit, n + 1) <= Clamp(x + e as real) <= Gathered(integrator, limit, n + 1)
  {
    var start := if integrator < 0.0 then -integrator else integrator;
    assert (n + 1) * limit == n * limit + limit;
    ClampGrows(start + (n * limit) as real, limit as real, x, e as real);
  }

  /** DRIFT.  With offsets of at most `limit` ns either way, n updates move the integrator by at most
      n * limit, never past 10^9, and the slope is off 1 by no more than what the two gains make of the
      last offset and of that integrator. */
  lemma {:induction false} ServoDrift(c: Clock, samples: seq<Sample>, limit: nat)
    requires -NS <= c.integrator <= NS && AllWithin(samples, limit)
    ensures var r, most := ServoRun(c, samples), Gathered(c.integrator, limit, |samples|);
      && -most <= r.integrator <= most <= NS
      && (samples != [] ==>
            var off := (0.001 * limit as real + 0.0001 * most) / 1_000_000_000.0;
            -off <= r.slope - 1.0 <= off)
    decreases |samples|
  {
    if samples != [] {
      var k := |samples| - 1;
      ServoDrift(c, samples[..k], limit);
      GatheredGrows(c.integrator, limit, k, ServoRun(c, samples[..k]).integrator, samples[k].offset);
    }
  }

  /** STABILITY.  With offsets of at most a second either way, no run of updates moves the integrator past
      10^9 or the slope more than 0.0011 from 1. */
  lemma ServoStaysBounded(c: Clock, samples: seq<Sample>)
    requires Bounded(c) && AllWithin(samples, 1_000_000_000)
    ensures Bounded(ServoRun(c, samples))
    ensures var r := ServoRun(c, samples);
      -1_000_000_000.0 <= r.integrator <= 1_000_000_000.0 && 0.9989 <= r.slope <= 1.0011
  {
    ServoDrift(c, samples, 1_000_000_000);
  }

  /** ONE UPDATE.  The integrator gathers the offset and stops at a second either way; the slope is 1 plus a
      thousandth of the offset and a ten-thousandth of the integrator, per second; half a microsecond locks. */
  lemma UpdateIsPI(c: Clock, offset: int, hostTime: U64)
    ensures var c', sum := AfterUpdate(c, offset, hostTime), c.integrator + offset as real;
      && (-1_000_000_000.0 <= sum <= 1_000_000_000.0 ==> c'.integrator == sum)
      && (sum > 1_000_000_000.0 ==> c'.integrator == 1_000_000_000.0)
      && (sum < -1_000_000_000.0 ==> c'.integrator == -1_000_000_000.0)
      && (c'.slope - 1.0) * 1_000_000_000.0 == 0.001 * offset as real + 0.0001 * c'.integrator
      && (c'.locked <==> -500 < offset < 500) && c'.offset == offset as real
      && c'.anchorHost == hostTime && c'.anchorPTP == c.anchorPTP
  {
    var x := KP * offset as real + KI * AfterUpdate(c, offset, hostTime).integrator;
    assert x / NS * NS == x;
  }

  /** The offsets of the samples added up. */
  function Total(samples: seq<Sample>): int {
    if samples == [] then 0 else Total(samples[..|samples| - 1]) + samples[|samples| - 1].offset
  }

  /** No update of the run takes the integrator past a second. */
  ghost predicate NeverSaturates(c: Clock, samples: seq<Sample>) {
    forall n :: 0 <= n <= |samples| ==>
      -1_000_000_000.0 <= c.integrator + Total(samples[..n]) as real <= 1_000_000_000.0
  }

  lemma {:induction false} IntegratorIsTotal(c: Clock, samples: seq<Sample>)
    requires NeverSaturates(c, samples)
    ensures ServoRun(c, samples).integrator == c.integrator + Total(samples) as real
    decreases |samples|
  {
    if samples != [] {
      var k := |samples| - 1;
      forall n | 0 <= n <= k
        ensures samples[..k][..n] == samples[..n]
      {
      }
      IntegratorIsTotal(c, samples[..k]);
      assert samples[..k + 1] == samples;
      UpdateIsPI(ServoRun(c, samples[..k]), samples[k].offset, samples[k].hostTime);
    }
  }

  /** PROPORTIONAL AND INTEGRAL.  As long as the integrator does not stop, a run of updates sets the slope to 1
      plus a thousandth of the last offset and a ten-thousandth of all offsets together, per second. */
  lemma ServoIsPI(c: Clock, samples: seq<Sample>)
    requires samples != [] && NeverSaturates(c, samples)
    ensures var r, last := ServoRun(c, samples), samples[|samples| - 1];
      && r.integrator == c.integrator + Total(samples) as real
      && (r.slope - 1.0) * 1_000_000_000.0 ==
           0.001 * last.offset as real + 0.0001 * (c.integrator + Total(samples) as real)
      && (r.locked <==> -500 < last.offset < 500)
      && r.anchorHost == last.hostTime
  {
    var k := |samples| - 1;
    IntegratorIsTotal(c, samples);
    UpdateIsPI(ServoRun(c, samples[..k]), samples[k].offset, samples[k].hostTime);
  }

  // ---------------------------------------------------------------------------------------------
  // Converting there and back
  // ---------------------------------------------------------------------------------------------

  lemma TruncOfNegative(x: real)
    ensures Trunc(-x) == -Trunc(x)
  {
  }

  lemma FloorBounds(x: real)
    ensures x.Floor as real <= x < x.Floor as real + 1.0
  {
  }

  lemma PositiveProduct(a: real, b: real)
    requires a > 0.0
    ensures b > 0.0 ==> a * b > 0.0
    ensures b >= 0.0 ==> a * b >= 0.0
  {
  }

  lemma TruncNonNegative(r: real)
    requires r >= 0.0
    ensures Trunc(r) >= 0 && Trunc(r) as real <= r < Trunc(r) as real + 1.0
  {
    FloorBounds(r);
  }

  lemma NearBelow(z: real, d: nat)
    requires z >= 0.0 && d as real - 1.2 < z <= d as real
    ensures d - 2 <= Trunc(z) <= d
  {
    TruncNonNegative(z);
  }

  lemma Distribute(a: real, x: real, y: real)
    ensures a * (x - y) == a * x - a * y
  {
  }

  lemma QuotientBounds(a: real, x: real, y: real)
    requires 1.0 - SLOPE_BAND <= a <= 1.0 + SLOPE_BAND
    requires 0.0 <= y <= a * x < y + 1.0
    ensures 0.0 <= y / a && x - 1.2 < y / a <= x
  {
    var z := y / a;
    assert a * z == y;
    Distribute(a, z, x);
    PositiveProduct(a, z - x);
    Distribute(a, x - 1.2, z);
    PositiveProduct(a, x - 1.2 - z);
    Distribute(a, x, 1.2);
    PositiveProduct(a, -z);
    assert a * (-z) == -y;
  }

  lemma Back(a: real, d: nat, p: nat)
    requires 1.0 - SLOPE_BAND <= a <= 1.0 + SLOPE_BAND
    requires p as real <= a * d as real < p as real + 1.0
    ensures d - 2 <= Unscale(a, p) <= d
  {
    QuotientBounds(a, d as real, p as real);
    NearBelow(p as real / a, d);
  }

  /** For a slope near 1 and a non-negative distance: scaling and truncating both ways loses at most 2. */
  lemma ThereAndBack(a: real, d: nat)
    requires 1.0 - SLOPE_BAND <= a <= 1.0 + SLOPE_BAND
    ensures Scale(a, d) >= 0 && d - 2 <= Unscale(a, Scale(a, d)) <= d
  {
    PositiveProduct(a, d as real);
    TruncNonNegative(a * d as real);
    var p := Scale(a, d);
    Back(a, d, p);
  }

  lemma NegateProduct(a: real, x: real)
    ensures a * (-x) == -(a * x)
  {
  }

  lemma MirrorScale(a: real, d: int)
    ensures Scale(a, d) == -Scale(a, -d)
  {
    assert d as real == -((-d) as real);
    NegateProduct(a, (-d) as real);
    TruncOfNegative(a * (-d) as real);
  }

  lemma NegateQuotient(x: real, a: real)
    requires a != 0.0
    ensures (-x) / a == -(x / a)
  {
  }

  lemma MirrorUnscale(a: real, q: int)
    requires a != 0.0
    ensures Unscale(a, -q) == -Unscale(a, q)
  {
    assert (-q) as real == -(q as real);
    NegateQuotient(q as real, a);
    TruncOfNegative(q as real / a);
  }

  lemma SignedWrap(d: int)
    requires -0x8000_0000_0000_0000 <= d < 0x8000_0000_0000_0000
    ensures ToSigned(d % TWO64) == d
  {
    if d >= 0 {
      DivModUnique(d, TWO64, 0, d);
    } else {
      DivModUnique(d, TWO64, -1, d + TWO64);
    }
  }

  /** Taking an offset off a wrapped sum gives the wrapped addend back. */
  lemma WrapBack(anchor: int, d: int)
    ensures ((anchor + d) % TWO64 - anchor) % TWO64 == d % TWO64
  {
    ModStep(anchor + d, -anchor, TWO64);
  }

  /** static_cast<int64_t> of a double is defined for this result. */
  predicate FitsInt64(x: int) {
    -0x8000_0000_0000_0000 <= x < 0x8000_0000_0000_0000
  }

  lemma Rewrap(anchor: U64, x: int)
    requires FitsInt64(x)
    ensures DistanceFrom(anchor, (anchor + x) % TWO64) == x
  {
    WrapBack(anchor, x);
    SignedWrap(x);
  }

  lemma ConvertedDistance(c: Clock, hostTime: U64)
    requires FitsInt64(Scale(c.slope, DistanceFrom(c.anchorHost, hostTime)))
    ensures DistanceFrom(c.anchorPTP, HostTimeToPTP(c, hostTime)) ==
      Scale(c.slope, DistanceFrom(c.anchorHost, hostTime))
  {
    Rewrap(c.anchorPTP, Scale(c.slope, DistanceFrom(c.anchorHost, hostTime)));
  }

  /** The number is x without its fraction. */
  ghost predicate TowardsZero(y: int, x: real) {
    if x >= 0.0 then y as real <= x < y as real + 1.0 else y as real - 1.0 < x <= y as real
  }

  lemma TruncIsTowardsZero(x: real)
    ensures TowardsZero(Trunc(x), x)
  {
    FloorBounds(x);
    FloorBounds(-x);
  }

  /** THE MAPPING.  x nanoseconds behind the host anchor are slope * x nanoseconds, without the fraction, behind
      the PTP anchor. */
  lemma MapsToPTP(c: Clock, x: int) returns (y: int)
    requires FitsInt64(x)
    ensures TowardsZero(y, c.slope * x as real)
    ensures HostTimeToPTP(c, (c.anchorHost + x) % TWO64) == (c.anchorPTP + y) % TWO64
  {
    y := Scale(c.slope, x);
    Rewrap(c.anchorHost, x);
    TruncIsTowardsZero(c.slope * x as real);
  }

  /** And p nanoseconds behind the PTP anchor are p / slope behind the host anchor. */
  lemma MapsToHost(c: Clock, p: int) returns (h: int)
    requires c.slope != 0.0 && FitsInt64(p)
    ensures TowardsZero(h, p as real / c.slope)
    ensures PTPToHostTime(c, (c.anchorPTP + p) % TWO64) == (c.anchorHost + h) % TWO64
  {
    h := Unscale(c.slope, p);
    Rewrap(c.anchorPTP, p);
    TruncIsTowardsZero(p as real / c.slope);
  }

  lemma ThereAndBackSigned(a: real, d: int)
    requires 1.0 - SLOPE_BAND <= a <= 1.0 + SLOPE_BAND
    ensures var h := Unscale(a, Scale(a, d));
      if d >= 0 then d - 2 <= h <= d else d <= h <= d + 2
  {
    if d >= 0 {
      ThereAndBack(a, d);
    } else {
      ThereAndBack(a, -d);
      MirrorScale(a, d);
      MirrorUnscale(a, Scale(a, -d));
    }
  }

  /** ROUND TRIP.  Converting a host time to PTP and back lands at most 2 ns from it, between it and the
      anchor, for any slope the servo can set and any host time whose conversion fits 64 bits. */
  lemma HostRoundTrip(c: Clock, hostTime: U64)
    requires Bounded(c) && FitsInt64(Scale(c.slope, DistanceFrom(c.anchorHost, hostTime)))
    ensures var d := DistanceFrom(c.anchorHost, hostTime);
      var d' := DistanceFrom(c.anchorHost, PTPToHostTime(c, HostTimeToPTP(c, hostTime)));
      if d >= 0 then d - 2 <= d' <= d else d <= d' <= d + 2
  {
    var d := DistanceFrom(c.anchorHost, hostTime);
    ThereAndBackSigned(c.slope, d);
    ConvertedDistance(c, hostTime);
    Rewrap(c.anchorHost, Unscale(c.slope, Scale(c.slope, d)));
  }

  lemma TruncMonotone(x: real, y: real)
    requires x <= y
    ensures Trunc(x) <= Trunc(y)
  {
    FloorBounds(x);
    FloorBounds(y);
    FloorBounds(-x);
    FloorBounds(-y);
  }

  lemma ScaleMonotone(a: real, d: int, e: int)
    requires a > 0.0 && d <= e
    ensures Scale(a, d) <= Scale(a, e)
  {
    PositiveProduct(a, (e - d) as real);
    Distribute(a, e as real, d as real);
    assert (e - d) as real == e as real - d as real;
    TruncMonotone(a * d as real, a * e as real);
  }

  /** MONOTONE.  Between two updates PTP time never goes back: in distance from the PTP anchor, a later
      host time maps no earlier, as long as both conversions fit 64 bits. */
  lemma MappingIsMonotone(c: Clock, h1: U64, h2: U64)
    requires Bounded(c) && DistanceFrom(c.anchorHost, h1) <= DistanceFrom(c.anchorHost, h2)
    requires FitsInt64(Scale(c.slope, DistanceFrom(c.anchorHost, h1)))
    requires FitsInt64(Scale(c.slope, DistanceFrom(c.anchorHost, h2)))
    ensures DistanceFrom(c.anchorPTP, HostTimeToPTP(c, h1)) <= DistanceFrom(c.anchorPTP, HostTimeToPTP(c, h2))
  {
    ScaleMonotone(c.slope, DistanceFrom(c.anchorHost, h1), DistanceFrom(c.anchorHost, h2));
    ConvertedDistance(c, h1);
    ConvertedDistance(c, h2);
  }

  // ---------------------------------------------------------------------------------------------
  // Across an update
  // ---------------------------------------------------------------------------------------------

  lemma ProductOfDifference(a: real, b: real, x: real)
    ensures (a - b) * x == a * x - b * x
  {
  }

  /** The product of a slope near 1 and a length lies between half the length and one and a half times it. */
  lemma NearlyTheLength(a: real, x: real)
    requires 1.0 - SLOPE_BAND <= a <= 1.0 + SLOPE_BAND && x >= 0.0
    ensures 0.5 * x <= a * x <= 1.5 * x
  {
    PositiveProduct(a - 0.5, x);
    PositiveProduct(1.5 - a, x);
    ProductOfDifference(a, 0.5, x);
    ProductOfDifference(1.5, a, x);
  }

  lemma TruncVanishesIff(r: real)
    requires r >= 0.0
    ensures Trunc(r) == 0 <==> r < 1.0
  {
    TruncNonNegative(r);
  }

  lemma BelowTheWord(r: real)
    requires 0.0 <= r <= 1.5 * 9223372036854775808.0
    ensures 0 <= Trunc(r) < TWO64
  {
    TruncNonNegative(r);
  }

  lemma ZeroProduct(a: real)
    ensures a * 0.0 == 0.0
  {
  }

  lemma UnitProduct(a: real)
    ensures a * 1.0 == a
  {
  }

  lemma ScaleUpwards(a: real, n: nat)
    requires 1.0 - SLOPE_BAND <= a <= 1.0 + SLOPE_BAND && n <= 0x8000_0000_0000_0000
    ensures 0 <= Scale(a, n) < TWO64
    ensures Scale(a, n) == 0 <==> n == 0 || (n == 1 && a < 1.0)
  {
    var x := n as real;
    var r := a * x;
    NearlyTheLength(a, x);
    BelowTheWord(r);
    TruncVanishesIff(r);
    if n == 0 {
      ZeroProduct(a);
    } else if n == 1 {
      UnitProduct(a);
    }
  }

  lemma SmallMultiple(x: int)
    requires -TWO64 < x < TWO64
    ensures x % TWO64 == 0 <==> x == 0
  {
  }

  /** A distance is scaled to nothing exactly if it is nothing, or one nanosecond on a slow clock. */
  lemma ScaleVanishesIff(a: real, d: int)
    requires 1.0 - SLOPE_BAND <= a <= 1.0 + SLOPE_BAND && FitsInt64(d)
    ensures Scale(a, d) % TWO64 == 0 <==> d == 0 || (a < 1.0 && -1 <= d <= 1)
  {
    if d >= 0 {
      ScaleUpwards(a, d);
      SmallMultiple(Scale(a, d));
    } else {
      ScaleUpwards(a, -d);
      MirrorScale(a, d);
      SmallMultiple(Scale(a, d));
    }
  }

  lemma ScaleZero(a: real)
    ensures Scale(a, 0) == 0
  {
    assert a * 0.0 == 0.0;
  }

  lemma SameAfterAdding(x: U64, k: int)
    ensures (x + k) % TWO64 == x <==> k % TWO64 == 0
    ensures ((x + k) % TWO64 - k) % TWO64 == x
  {
    WrapBack(x, k);
    ModStep(k, x, TWO64);
    DivModUnique(x, TWO64, 0, x);
    ModStep(x + k, -k, TWO64);
    if k % TWO64 == 0 {
      assert (k % TWO64 + x) % TWO64 == (k + x) % TWO64;
    }
  }

  /** THE JUMP AT AN UPDATE.  An update moves the host anchor only, so it restarts the mapping at the PTP
      anchor: PTP time moves back by exactly the scaled distance from the old host anchor.  It is continuous
      exactly if the update comes at the old anchor, or one nanosecond from it while the clock runs slow. */
  lemma UpdateRestartsMapping(c: Clock, offset: int, hostTime: U64)
    requires Bounded(c)
    ensures var d := DistanceFrom(c.anchorHost, hostTime);
      var before, after := HostTimeToPTP(c, hostTime), HostTimeToPTP(AfterUpdate(c, offset, hostTime), hostTime);
      && after == c.anchorPTP
      && after == (before - Scale(c.slope, d)) % TWO64
      && (after == before <==> d == 0 || (c.slope < 1.0 && -1 <= d <= 1))
  {
    var d := DistanceFrom(c.anchorHost, hostTime);
    ScaleZero(AfterUpdate(c, offset, hostTime).slope);
    DivModUnique(c.anchorPTP, TWO64, 0, c.anchorPTP);
    SameAfterAdding(c.anchorPTP, Scale(c.slope, d));
    ScaleVanishesIff(c.slope, d);
  }

  /** For instance: one second after its anchor, an update throws a clock of slope 1 back by one second. */
  lemma UpdateThrowsBack(c: Clock, offset: int)
    requires c.slope == 1.0 && c.anchorHost == 0 && c.anchorPTP == 5_000_000_000
    ensures HostTimeToPTP(c, 1_000_000_000) == 6_000_000_000
    ensures HostTimeToPTP(AfterUpdate(c, offset, 1_000_000_000), 1_000_000_000) == 5_000_000_000
  {
    ScaleZero(AfterUpdate(c, offset, 1_000_000_000).slope);
    assert DistanceFrom(0, 1_000_000_000) == 1_000_000_000;
  }
}
