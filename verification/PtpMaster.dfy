/** The send loop of the PTP master: when Sync and Announce go out.  Times are nanoseconds of the steady
    clock. */
module PtpMaster {
  import opened Words

  const SYNC_INTERVAL := 125_000_000
  const ANNOUNCE_INTERVAL := 1_000_000_000

  /** The first point of the grid through `next` that lies after `now`; `next` itself if it is not due. */
  function NextGrid(next: int, interval: int, now: int): int
    requires interval > 0
  {
    if now < next then next else next + ((now - next) / interval + 1) * interval
  }

  lemma NextGridIsLeast(next: int, interval: int, now: int, j: int)
    requires interval > 0 && now >= next
    ensures NextGrid(next, interval, now) > now
    ensures next + j * interval > now ==> next + j * interval >= NextGrid(next, interval, now)
  {
    var q := (now - next) / interval;
    assert now - next == q * interval + (now - next) % interval;
    assert (q + 1) * interval == q * interval + interval;
    if j <= q {
      MulMonotone(j, q, interval);
    } else {
      MulMonotone(q + 1, j, interval);
    }
  }

  datatype Sched = Sched(nextSync: int, nextAnnounce: int, syncs: nat, announces: nat)

  /** One iteration at clock reading `now`. */
  function Tick(s: Sched, now: int): Sched {
    Sched(NextGrid(s.nextSync, SYNC_INTERVAL, now), NextGrid(s.nextAnnounce, ANNOUNCE_INTERVAL, now),
          s.syncs + (if now >= s.nextSync then 1 else 0),
          s.announces + (if now >= s.nextAnnounce then 1 else 0))
  }

  class MasterSendLoop {
    var nextSync: int
    var nextAnnounce: int
    var syncSequenceId: U16
    var announceSequenceId: U16
    ghost var syncs: nat
    ghost var announces: nat

    /** Sequence ids count the messages sent, modulo 2^16. */
    ghost predicate Valid()
      reads this
    {
      syncSequenceId == syncs % TWO16 && announceSequenceId == announces % TWO16
    }

    ghost function Abs(): Sched
      reads this
    {
      Sched(nextSync, nextAnnounce, syncs, announces)
    }

    constructor (now: int)
      ensures Valid() && Abs() == Sched(now, now, 0, 0)
    {
      nextSync, nextAnnounce := now, now;
      syncSequenceId, announceSequenceId := 0, 0;
      syncs, announces := 0, 0;
    }

    /** The catch-up loop that both messages use. */
    static method CatchUp(next: int, interval: int, now: int) returns (r: int)
      requires interval > 0 && now >= next
      ensures r == NextGrid(next, interval, now)
    {
      r := next + interval;
      ghost var j := 1;
      while r <= now
        invariant j >= 1 && r == next + j * interval
        invariant next + (j - 1) * interval <= now
        decreases now - r
      {
        r := r + interval;
        j := j + 1;
      }
      DivModUnique(now - next, interval, j - 1, now - next - (j - 1) * interval);
    }

    /** One iteration of the loop: what is sent, and with which sequence id. */
    method Iterate(now: int) returns (sync: bool, syncId: U16, announce: bool, announceId: U16)
      requires Valid()
      modifies this
      ensures Valid() && Abs() == Tick(old(Abs()), now)
      ensures sync == (now >= old(nextSync)) && announce == (now >= old(nextAnnounce))
      ensures sync ==> syncId == old(syncs) % TWO16
      ensures announce ==> announceId == old(announces) % TWO16
    {
      sync, announce, syncId, announceId := false, false, 0, 0;
      if now >= nextSync {
        sync, syncId := true, syncSequenceId;
        ModStep(syncs, 1, TWO16);
        syncSequenceId, syncs := (syncSequenceId + 1) % TWO16, syncs + 1;
        nextSync := CatchUp(nextSync, SYNC_INTERVAL, now);
      }
      if now >= nextAnnounce {
        announce, announceId := true, announceSequenceId;
        ModStep(announces, 1, TWO16);
        announceSequenceId, announces := (announceSequenceId + 1) % TWO16, announces + 1;
        nextAnnounce := CatchUp(nextAnnounce, ANNOUNCE_INTERVAL, now);
      }
    }
  }

  // ---------------------------------------------------------------------------------------------
  // Runs
  // ---------------------------------------------------------------------------------------------

  /** The clock starts at t0 and never goes back. */
  ghost predicate Clock(clock: seq<int>, t0: int) {
    && (forall i :: 0 <= i < |clock| ==> t0 <= clock[i])
    && (forall i, j :: 0 <= i <= j < |clock| ==> clock[i] <= clock[j])
  }

  function RunFirst(clock: seq<int>, t0: int, n: nat): Sched
    requires n <= |clock|
  {
    if n == 0 then Sched(t0, t0, 0, 0) else Tick(RunFirst(clock, t0, n - 1), clock[n - 1])
  }

  /** The grid slot, counted from t0, that a reading falls into. */
  function SyncSlot(now: int, t0: int): int {
    (now - t0) / SYNC_INTERVAL
  }

  function AnnounceSlot(now: int, t0: int): int {
    (now - t0) / ANNOUNCE_INTERVAL
  }

  /** The slots in which the first n iterations polled. */
  function SyncSlots(clock: seq<int>, t0: int, n: nat): set<int>
    requires n <= |clock|
  {
    if n == 0 then {} else SyncSlots(clock, t0, n - 1) + {SyncSlot(clock[n - 1], t0)}
  }

  function AnnounceSlots(clock: seq<int>, t0: int, n: nat): set<int>
    requires n <= |clock|
  {
    if n == 0 then {} else AnnounceSlots(clock, t0, n - 1) + {AnnounceSlot(clock[n - 1], t0)}
  }

  /** The schedule after polling last in Sync slot `a` and Announce slot `b`. */
  ghost predicate At(s: Sched, t0: int, a: int, b: int, syncSlots: set<int>, announceSlots: set<int>) {
    && s.nextSync == t0 + (a + 1) * SYNC_INTERVAL
    && s.nextAnnounce == t0 + (b + 1) * ANNOUNCE_INTERVAL
    && b == a / 8
    && s.syncs == |syncSlots| && (forall x :: x in syncSlots ==> x <= a)
    && s.announces == |announceSlots| && (forall x :: x in announceSlots ==> x <= b)
    && a in syncSlots && b in announceSlots
    && s.announces <= s.syncs <= 8 * (s.announces - 1) + a % 8 + 1
  }

  lemma SlotsNest(x: int)
    requires x >= 0
    ensures x / ANNOUNCE_INTERVAL == x / SYNC_INTERVAL / 8
  {
    var q, r := x / SYNC_INTERVAL, x % SYNC_INTERVAL;
    assert x == q * SYNC_INTERVAL + r;
    assert x == q / 8 * ANNOUNCE_INTERVAL + (q % 8 * SYNC_INTERVAL + r);
    DivModUnique(x, ANNOUNCE_INTERVAL, q / 8, q % 8 * SYNC_INTERVAL + r);
  }

  /** From slot a, polling in slot a' >= a moves the grid to the end of a'. */
  lemma GridFollows(t0: int, interval: int, a: int, now: int)
    requires interval > 0 && now - t0 >= a * interval
    ensures NextGrid(t0 + (a + 1) * interval, interval, now) == t0 + ((now - t0) / interval + 1) * interval
    ensures now >= t0 + (a + 1) * interval <==> (now - t0) / interval > a
  {
    var x := now - t0;
    var q := x / interval;
    assert x == q * interval + x % interval;
    assert (a + 1) * interval == a * interval + interval;
    assert (q + 1) * interval == q * interval + interval;
    if q < a {
      MulMonotone(q + 1, a, interval);
    } else if q > a {
      MulMonotone(a + 1, q, interval);
      assert (q - a - 1) * interval == q * interval - (a + 1) * interval;
      DivModUnique(x - (a + 1) * interval, interval, q - a - 1, x % interval);
      assert (q - a) * interval + (a + 1) * interval == (q + 1) * interval;
    }
  }

  lemma SlotBound(now: int, t0: int, a: int, interval: int)
    requires interval > 0 && (now - t0) / interval == a
    ensures now - t0 >= a * interval
  {
    assert now - t0 == a * interval + (now - t0) % interval;
  }

  lemma SlotMonotone(x: int, y: int, interval: int)
    requires interval > 0 && x <= y
    ensures x / interval <= y / interval
  {
    var p, q := x / interval, y / interval;
    assert (q + 1) * interval == q * interval + interval;
    if q < p {
      MulMonotone(q + 1, p, interval);
    }
  }

  lemma FirstTick(t0: int, now: int)
    requires t0 <= now
    ensures var a, b := SyncSlot(now, t0), AnnounceSlot(now, t0);
      At(Tick(Sched(t0, t0, 0, 0), now), t0, a, b, {a}, {b})
  {
    SlotsNest(now - t0);
  }

  lemma GrowSlots(slots: set<int>, a: int, a': int)
    requires a <= a' && a in slots && forall x :: x in slots ==> x <= a
    ensures a' in slots <==> a' == a
    ensures |slots + {a'}| == |slots| + (if a' > a then 1 else 0)
  {
    if a' == a {
      assert slots + {a'} == slots;
    }
  }

  lemma NextTick(s: Sched, t0: int, last: int, now: int, syncSlots: set<int>, announceSlots: set<int>)
    requires t0 <= last <= now
    requires At(s, t0, SyncSlot(last, t0), AnnounceSlot(last, t0), syncSlots, announceSlots)
    ensures var a, b := SyncSlot(now, t0), AnnounceSlot(now, t0);
      && At(Tick(s, now), t0, a, b, syncSlots + {a}, announceSlots + {b})
      && (now >= s.nextSync <==> a !in syncSlots)
      && (now >= s.nextAnnounce <==> b !in announceSlots)
  {
    var a, b := SyncSlot(last, t0), AnnounceSlot(last, t0);
    var a', b' := SyncSlot(now, t0), AnnounceSlot(now, t0);
    SlotBound(last, t0, a, SYNC_INTERVAL);
    SlotBound(last, t0, b, ANNOUNCE_INTERVAL);
    SlotMonotone(last - t0, now - t0, SYNC_INTERVAL);
    SlotMonotone(last - t0, now - t0, ANNOUNCE_INTERVAL);
    GridFollows(t0, SYNC_INTERVAL, a, now);
    GridFollows(t0, ANNOUNCE_INTERVAL, b, now);
    SlotsNest(now - t0);
    GrowSlots(syncSlots, a, a');
    GrowSlots(announceSlots, b, b');
  }

  lemma {:induction false} RunAt(clock: seq<int>, t0: int, n: nat)
    requires Clock(clock, t0) && 0 < n <= |clock|
    ensures At(RunFirst(clock, t0, n), t0, SyncSlot(clock[n - 1], t0), AnnounceSlot(clock[n - 1], t0),
               SyncSlots(clock, t0, n), AnnounceSlots(clock, t0, n))
    decreases n
  {
    if n == 1 {
      FirstTick(t0, clock[0]);
      assert RunFirst(clock, t0, 0) == Sched(t0, t0, 0, 0);
      assert SyncSlots(clock, t0, 1) == {SyncSlot(clock[0], t0)};
      assert AnnounceSlots(clock, t0, 1) == {AnnounceSlot(clock[0], t0)};
    } else {
      RunAt(clock, t0, n - 1);
      NextTick(RunFirst(clock, t0, n - 1), t0, clock[n - 2], clock[n - 1],
               SyncSlots(clock, t0, n - 1), AnnounceSlots(clock, t0, n - 1));
    }
  }

  /** The slots polled, told by the clock readings. */
  lemma {:induction false} SlotsAre(clock: seq<int>, t0: int, n: nat)
    requires n <= |clock|
    ensures SyncSlots(clock, t0, n) == set i | 0 <= i < n :: (clock[i] - t0) / 125_000_000
    ensures AnnounceSlots(clock, t0, n) == set i | 0 <= i < n :: (clock[i] - t0) / 1_000_000_000
    decreases n
  {
    if n > 0 {
      SlotsAre(clock, t0, n - 1);
    }
  }

  /** SCHEDULE.  However irregularly the loop runs: exactly one Sync per 125 ms slot it polls in, exactly
      one Announce per polled 1 s slot, and between 1 and 8 Syncs for every Announce. */
  lemma OnePerPolledSlot(clock: seq<int>, t0: int, n: nat)
    requires Clock(clock, t0) && n <= |clock|
    ensures var s := RunFirst(clock, t0, n);
      && s.syncs == |set i | 0 <= i < n :: (clock[i] - t0) / 125_000_000|
      && s.announces == |set i | 0 <= i < n :: (clock[i] - t0) / 1_000_000_000|
      && s.announces <= s.syncs <= 8 * s.announces
  {
    SlotsAre(clock, t0, n);
    if n > 0 {
      RunAt(clock, t0, n);
    }
  }

  /** An iteration sends a Sync exactly if its slot is new, likewise an Announce, and never an Announce
      without a Sync. */
  lemma SendsIffSlotIsNew(clock: seq<int>, t0: int, n: nat)
    requires Clock(clock, t0) && n < |clock|
    ensures var s := RunFirst(clock, t0, n);
      && (clock[n] >= s.nextSync <==>
            forall i :: 0 <= i < n ==> (clock[i] - t0) / 125_000_000 != (clock[n] - t0) / 125_000_000)
      && (clock[n] >= s.nextAnnounce <==>
            forall i :: 0 <= i < n ==> (clock[i] - t0) / 1_000_000_000 != (clock[n] - t0) / 1_000_000_000)
      && (clock[n] >= s.nextAnnounce ==> clock[n] >= s.nextSync)
  {
    SlotsAre(clock, t0, n);
    if n > 0 {
      RunAt(clock, t0, n);
      var s := RunFirst(clock, t0, n);
      NextTick(s, t0, clock[n - 1], clock[n], SyncSlots(clock, t0, n), AnnounceSlots(clock, t0, n));
      var a := SyncSlot(clock[n - 1], t0);
      assert (a + 1) * SYNC_INTERVAL <= (a / 8 + 1) * ANNOUNCE_INTERVAL;
    }
  }
}
