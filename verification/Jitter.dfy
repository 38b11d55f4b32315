/** The adaptive playout buffer: a timestamp-ordered queue with a target depth. */
module Jitter {
  import opened Words

  datatype Option<T> = None | Some(value: T)

  datatype JitterPacket = JitterPacket(timestamp: U32, arrivalTime: U64, frameCount: U32, samples: seq<I32>)

  datatype Config = Config(minPackets: U32, maxPackets: U32, sampleRate: U32)

  datatype State = State(target: U32, queue: seq<JitterPacket>, underruns: U32, overruns: U32, lastPlayoutTime: U64)

  // ---------------------------------------------------------------------------------------------
  // The operations as functions
  // ---------------------------------------------------------------------------------------------

  function Initial(cfg: Config): State {
    State((cfg.minPackets + cfg.maxPackets) % TWO32 / 2, [], 0, 0, 0)
  }

  /** The place of a new packet: before the first queued one that is not older. */
  function Position(queue: seq<JitterPacket>, timestamp: U32): (at: nat)
    ensures at <= |queue|
    ensures forall i :: 0 <= i < at ==> queue[i].timestamp < timestamp
    ensures at < |queue| ==> queue[at].timestamp >= timestamp
  {
    if queue != [] && queue[0].timestamp < timestamp then 1 + Position(queue[1..], timestamp) else 0
  }

  function InsertAt(queue: seq<JitterPacket>, at: nat, p: JitterPacket): seq<JitterPacket>
    requires at <= |queue|
  {
    queue[..at] + [p] + queue[at..]
  }

  predicate NearlyFull(cfg: Config, depth: nat) {
    depth >= (cfg.maxPackets - 1) % TWO32
  }

  predicate MuchDeeper(depth: nat, target: U32) {
    depth > (target + 2) % TWO32
  }

  /** The target depth and underrun counter after an insertion that leaves `depth` packets queued. */
  function Adjust(cfg: Config, target: U32, underruns: U32, depth: nat): (U32, U32) {
    var t1 := if NearlyFull(cfg, depth) && target < cfg.maxPackets then target + 1 else target;
    var starved := underruns > 0 && t1 < cfg.maxPackets;
    var t2 := if starved then t1 + 1 else t1;
    var u := if starved then 0 else underruns;
    var t3 := if MuchDeeper(depth, t2) && u == 0 && t2 > cfg.minPackets then t2 - 1 else t2;
    (t3, u)
  }

  function AfterInsert(cfg: Config, s: State, p: JitterPacket): State {
    if |s.queue| >= cfg.maxPackets then s.(overruns := (s.overruns + 1) % TWO32)
    else
      var queue := InsertAt(s.queue, Position(s.queue, p.timestamp), p);
      var (target, underruns) := Adjust(cfg, s.target, s.underruns, |queue|);
      s.(queue := queue, target := target, underruns := underruns)
  }

  /** Duration of a packet in nanoseconds; 64-bit, as is everything below. */
  function Duration(cfg: Config, p: JitterPacket): U64
    requires cfg.sampleRate > 0
  {
    p.frameCount * 1_000_000_000 / cfg.sampleRate
  }

  function PlayoutTime(cfg: Config, target: U32, p: JitterPacket): U64
    requires cfg.sampleRate > 0
  {
    (p.arrivalTime + target * Duration(cfg, p) % TWO64) % TWO64
  }

  function GetNext(cfg: Config, s: State, now: U64): (State, Option<JitterPacket>)
    requires cfg.sampleRate > 0
  {
    if s.queue == [] then (s.(underruns := (s.underruns + 1) % TWO32), None)
    else if now >= PlayoutTime(cfg, s.target, s.queue[0]) then (s.(lastPlayoutTime := now), Some(s.queue[0]))
    else (s, None)
  }

  /** One playout iteration: get the next packet and, if there is one, release it. */
  function Poll(cfg: Config, s: State, now: U64): (State, Option<JitterPacket>)
    requires cfg.sampleRate > 0
  {
    var (s', p) := GetNext(cfg, s, now);
    if p.Some? then (s'.(queue := s'.queue[1..]), p) else (s', None)
  }

  /** 8 samples a frame, counted in 32 bits. */
  function SampleCount(frameCount: U32): U32 {
    frameCount * 8 % TWO32
  }

  lemma SmallSampleCount(frameCount: U32)
    requires frameCount * 8 < TWO32
    ensures SampleCount(frameCount) == frameCount * 8
  {
    DivModUnique(frameCount * 8, TWO32, 0, frameCount * 8);
  }

  // ---------------------------------------------------------------------------------------------
  // The class
  // ---------------------------------------------------------------------------------------------

  class JitterBuffer {
    const minPackets: U32
    const maxPackets: U32
    const sampleRate: U32
    var targetPackets: U32
    var queue: seq<JitterPacket>
    var underruns: U32
    var overruns: U32
    var lastPlayoutTime: U64

    function Cfg(): Config {
      Config(minPackets, maxPackets, sampleRate)
    }

    function Abs(): State
      reads this
    {
      State(targetPackets, queue, underruns, overruns, lastPlayoutTime)
    }

    constructor (minPackets: U32, maxPackets: U32, sampleRate: U32)
      ensures Cfg() == Config(minPackets, maxPackets, sampleRate)
      ensures Abs() == Initial(Cfg())
    {
      this.minPackets := minPackets;
      this.maxPackets := maxPackets;
      this.sampleRate := sampleRate;
      targetPackets := (minPackets + maxPackets) % TWO32 / 2;
      queue := [];
      underruns, overruns, lastPlayoutTime := 0, 0, 0;
    }

    /** The scan over the queue. */
    method FindPlace(timestamp: U32) returns (it: nat)
      ensures it == Position(queue, timestamp)
    {
      it := 0;
      while it < |queue| && queue[it].timestamp < timestamp
        invariant it <= |queue|
        invariant it + Position(queue[it..], timestamp) == Position(queue, timestamp)
      {
        assert queue[it..][1..] == queue[it + 1..];
        it := it + 1;
      }
    }

    method AdjustDepth()
      modifies this`targetPackets, this`underruns
      ensures (targetPackets, underruns) == Adjust(Cfg(), old(targetPackets), old(underruns), |queue|)
    {
      var currentDepth := |queue|;
      if NearlyFull(Cfg(), currentDepth) {
        if targetPackets < maxPackets {
          targetPackets := targetPackets + 1;
        }
      }
      ghost var t1 := targetPackets;
      if underruns > 0 && targetPackets < maxPackets {
        targetPackets := targetPackets + 1;
        underruns := 0;
      }
      assert (targetPackets, underruns) ==
        if old(underruns) > 0 && t1 < maxPackets then (t1 + 1, 0) else (t1, old(underruns));
      if MuchDeeper(currentDepth, targetPackets) && underruns == 0 {
        if targetPackets > minPackets {
          targetPackets := targetPackets - 1;
        }
      }
    }

    /** The caller's buffer holds 8 samples a frame; that product is 32-bit. */
    method Insert(timestamp: U32, arrivalTime: U64, samples: array<I32>, frameCount: U32)
      requires SampleCount(frameCount) <= samples.Length
      modifies this
      ensures Abs() == AfterInsert(Cfg(), old(Abs()),
        JitterPacket(timestamp, arrivalTime, frameCount, samples[..SampleCount(frameCount)]))
    {
      if |queue| >= maxPackets {
        overruns := (overruns + 1) % TWO32;
        return;
      }
      var packet := JitterPacket(timestamp, arrivalTime, frameCount, samples[..SampleCount(frameCount)]);
      var it := FindPlace(timestamp);
      queue := InsertAt(queue, it, packet);
      AdjustDepth();
    }

    method GetNextPacket(ptpTimeNs: U64) returns (packet: Option<JitterPacket>)
      requires sampleRate > 0
      modifies this
      ensures (Abs(), packet) == GetNext(Cfg(), old(Abs()), ptpTimeNs)
    {
      if queue == [] {
        underruns := (underruns + 1) % TWO32;
        return None;
      }
      var firstPacket := queue[0];
      var packetDurationNs := firstPacket.frameCount * 1_000_000_000 / sampleRate;
      var targetDelay := targetPackets * packetDurationNs % TWO64;
      var playoutTime := (firstPacket.arrivalTime + targetDelay) % TWO64;
      if ptpTimeNs >= playoutTime {
        lastPlayoutTime := ptpTimeNs;
        return Some(queue[0]);
      }
      return None;
    }

    /** The C++ code compares addresses: is the packet the front of the queue? */
    method ReleasePacket(packet: Option<JitterPacket>)
      modifies this`queue
      ensures queue ==
        if packet.Some? && old(queue) != [] && old(queue)[0] == packet.value then old(queue)[1..] else old(queue)
    {
      if packet.None? || queue == [] {
        return;
      }
      if queue[0] == packet.value {
        queue := queue[1..];
      }
    }

    method Reset()
      modifies this
      ensures Abs() == State(old(targetPackets), [], 0, 0, 0)
    {
      queue := [];
      underruns, overruns, lastPlayoutTime := 0, 0, 0;
    }
  }

  // ---------------------------------------------------------------------------------------------
  // Runs
  // ---------------------------------------------------------------------------------------------

  datatype Event = Arrive(packet: JitterPacket) | Playout(now: U64)

  /** The buffer after a run, and what became of every packet offered to it. */
  datatype Log = Log(s: State, accepted: seq<JitterPacket>, released: seq<JitterPacket>, dropped: nat)

  function StepLog(cfg: Config, l: Log, e: Event): Log
    requires cfg.sampleRate > 0
  {
    match e
    case Arrive(p) =>
      var s' := AfterInsert(cfg, l.s, p);
      if |l.s.queue| >= cfg.maxPackets then l.(s := s', dropped := l.dropped + 1)
      else l.(s := s', accepted := l.accepted + [p])
    case Playout(now) =>
      var (s', p) := Poll(cfg, l.s, now);
      if p.Some? then l.(s := s', released := l.released + [p.value]) else l.(s := s')
  }

  /** The log after the first n events. */
  function RunFirst(cfg: Config, events: seq<Event>, n: nat): Log
    requires cfg.sampleRate > 0 && n <= |events|
  {
    if n == 0 then Log(Initial(cfg), [], [], 0)
    else StepLog(cfg, RunFirst(cfg, events, n - 1), events[n - 1])
  }

  ghost predicate SortedQueue(queue: seq<JitterPacket>) {
    forall i, j :: 0 <= i <= j < |queue| ==> queue[i].timestamp <= queue[j].timestamp
  }

  ghost predicate SaneConfig(cfg: Config) {
    cfg.sampleRate > 0 && cfg.minPackets <= cfg.maxPackets && cfg.minPackets + cfg.maxPackets < TWO32
  }

  /** Sorted, bounded, and every packet accounted for. */
  ghost predicate LogInv(cfg: Config, l: Log) {
    && SortedQueue(l.s.queue)
    && |l.s.queue| <= cfg.maxPackets
    && cfg.minPackets <= l.s.target <= cfg.maxPackets
    && multiset(l.accepted) == multiset(l.s.queue) + multiset(l.released)
    && l.s.overruns == l.dropped % TWO32
  }

  lemma InsertKeepsSorted(queue: seq<JitterPacket>, p: JitterPacket)
    requires SortedQueue(queue)
    ensures SortedQueue(InsertAt(queue, Position(queue, p.timestamp), p))
  {
  }

  /** A packet that arrives while the front is out for playout pushes it off the front, so that its release
      finds another packet there, exactly if there is room and it is not newer. */
  lemma PushesFrontIff(cfg: Config, s: State, r: JitterPacket)
    requires s.queue != []
    ensures var queue := AfterInsert(cfg, s, r).queue;
      && (queue == [r] + s.queue <==> |s.queue| < cfg.maxPackets && r.timestamp <= s.queue[0].timestamp)
      && (queue == [r] + s.queue || queue[0] == s.queue[0])
  {
    var at := Position(s.queue, r.timestamp);
    if at == 0 {
      assert InsertAt(s.queue, 0, r) == [r] + s.queue;
    } else {
      assert InsertAt(s.queue, at, r)[0] == s.queue[0];
    }
  }

  lemma InsertAdds(queue: seq<JitterPacket>, at: nat, p: JitterPacket)
    requires at <= |queue|
    ensures multiset(InsertAt(queue, at, p)) == multiset(queue) + multiset{p}
  {
    assert queue == queue[..at] + queue[at..];
  }

  lemma AdjustInRange(cfg: Config, target: U32, underruns: U32, depth: nat)
    requires cfg.minPackets <= target <= cfg.maxPackets
    ensures cfg.minPackets <= Adjust(cfg, target, underruns, depth).0 <= cfg.maxPackets
  {
  }

  lemma ArriveInv(cfg: Config, l: Log, p: JitterPacket)
    requires SaneConfig(cfg) && LogInv(cfg, l)
    ensures LogInv(cfg, StepLog(cfg, l, Arrive(p)))
  {
    if |l.s.queue| >= cfg.maxPackets {
      ModStep(l.dropped, 1, TWO32);
    } else {
      var at := Position(l.s.queue, p.timestamp);
      InsertKeepsSorted(l.s.queue, p);
      InsertAdds(l.s.queue, at, p);
      AdjustInRange(cfg, l.s.target, l.s.underruns, |InsertAt(l.s.queue, at, p)|);
      assert multiset(l.accepted + [p]) == multiset(l.accepted) + multiset{p};
    }
  }

  lemma ReleaseMoves(queue: seq<JitterPacket>, released: seq<JitterPacket>)
    requires queue != []
    ensures multiset(queue) + multiset(released) == multiset(queue[1..]) + multiset(released + [queue[0]])
  {
    assert queue == [queue[0]] + queue[1..];
  }

  lemma PlayoutInv(cfg: Config, l: Log, now: U64)
    requires SaneConfig(cfg) && LogInv(cfg, l)
    ensures LogInv(cfg, StepLog(cfg, l, Playout(now)))
  {
    var (s', p) := Poll(cfg, l.s, now);
    if p.Some? {
      ReleaseMoves(l.s.queue, l.released);
    }
  }

  lemma StepInv(cfg: Config, l: Log, e: Event)
    requires SaneConfig(cfg) && LogInv(cfg, l)
    ensures LogInv(cfg, StepLog(cfg, l, e))
  {
    match e
    case Arrive(p) => ArriveInv(cfg, l, p);
    case Playout(now) => PlayoutInv(cfg, l, now);
  }

  /** Packets queued, released or counted as overruns. */
  function Fates(l: Log): nat {
    |l.s.queue| + |l.released| + l.dropped
  }

  lemma StepFates(cfg: Config, l: Log, e: Event)
    requires cfg.sampleRate > 0
    ensures Fates(StepLog(cfg, l, e)) == Fates(l) + (if e.Arrive? then 1 else 0)
  {
  }

  function Arrivals(events: seq<Event>, n: nat): nat
    requires n <= |events|
  {
    if n == 0 then 0 else Arrivals(events, n - 1) + (if events[n - 1].Arrive? then 1 else 0)
  }

  lemma InitialTarget(cfg: Config)
    requires SaneConfig(cfg)
    ensures Initial(cfg).target == (cfg.minPackets + cfg.maxPackets) / 2
  {
    DivModUnique(cfg.minPackets + cfg.maxPackets, TWO32, 0, cfg.minPackets + cfg.maxPackets);
  }

  /** INVARIANTS OF EVERY RUN.  The queue stays sorted and bounded and the target in range; the packets
      accepted are exactly those queued or released; arrivals are those queued, released or counted as
      overruns. */
  lemma {:induction false} RunInvariant(cfg: Config, events: seq<Event>, n: nat)
    requires SaneConfig(cfg) && n <= |events|
    ensures LogInv(cfg, RunFirst(cfg, events, n))
    ensures Arrivals(events, n) == Fates(RunFirst(cfg, events, n))
    decreases n
  {
    if n == 0 {
      InitialTarget(cfg);
    } else {
      RunInvariant(cfg, events, n - 1);
      StepFates(cfg, RunFirst(cfg, events, n - 1), events[n - 1]);
      StepInv(cfg, RunFirst(cfg, events, n - 1), events[n - 1]);
    }
  }

  /** A packet lasts d nanoseconds: its frames at the sample rate, in whole nanoseconds, rounded down. */
  ghost predicate Lasts(cfg: Config, p: JitterPacket, d: nat) {
    match p
    case JitterPacket(_, _, frames, _) =>
      d * cfg.sampleRate <= frames * 1_000_000_000 < (d + 1) * cfg.sampleRate
  }

  lemma DurationIs(cfg: Config, p: JitterPacket, d: nat)
    requires cfg.sampleRate > 0
    ensures Lasts(cfg, p, d) <==> d == Duration(cfg, p)
  {
    var time, rate := p.frameCount * 1_000_000_000, cfg.sampleRate;
    assert time / rate * rate + time % rate == time;
    if Lasts(cfg, p, d) {
      DivModUnique(time, rate, d, time - d * rate);
    }
  }

  lemma PlayoutTimeIs(cfg: Config, target: U32, p: JitterPacket, d: nat)
    requires cfg.sampleRate > 0 && Lasts(cfg, p, d)
    ensures PlayoutTime(cfg, target, p) == (p.arrivalTime + target * d) % TWO64
  {
    DurationIs(cfg, p, d);
    ModStep(target * d, p.arrivalTime, TWO64);
  }

  lemma FitsWord(x: nat)
    requires x < TWO64
    ensures x % TWO64 == x
  {
    DivModUnique(x, TWO64, 0, x);
  }

  lemma PlayedAt(cfg: Config, s: State, now: U64, playout: nat)
    requires cfg.sampleRate > 0 && s.queue != []
    requires PlayoutTime(cfg, s.target, s.queue[0]) == playout % TWO64
    ensures GetNext(cfg, s, now) ==
      if now >= playout % TWO64 then (s.(lastPlayoutTime := now), Some(s.queue[0])) else (s, None)
    ensures playout < TWO64 ==> (GetNext(cfg, s, now).1 == Some(s.queue[0]) <==> now >= playout)
  {
    if playout < TWO64 {
      FitsWord(playout);
    }
  }

  /** WHEN A PACKET IS PLAYED.  The front is handed out exactly once the clock shows its arrival plus as many
      of its own durations as the target is deep, in 64-bit arithmetic. */
  lemma PlayedIff(cfg: Config, s: State, now: U64, d: nat, playout: nat)
    requires cfg.sampleRate > 0 && s.queue != [] && Lasts(cfg, s.queue[0], d)
    requires playout == s.queue[0].arrivalTime + s.target * d
    ensures GetNext(cfg, s, now) ==
      if now >= playout % 0x1_0000_0000_0000_0000 then (s.(lastPlayoutTime := now), Some(s.queue[0])) else (s, None)
    ensures playout < 0x1_0000_0000_0000_0000 ==>
      (GetNext(cfg, s, now).1 == Some(s.queue[0]) <==> now >= playout)
  {
    PlayoutTimeIs(cfg, s.target, s.queue[0], d);
    PlayedAt(cfg, s, now, playout);
  }

  lemma PlayoutTimeBounds(cfg: Config, target: U32, p: JitterPacket, d: nat)
    requires SaneConfig(cfg) && cfg.minPackets <= target <= cfg.maxPackets
    requires Lasts(cfg, p, d) && p.arrivalTime + cfg.maxPackets * d < TWO64
    ensures PlayoutTime(cfg, target, p) == p.arrivalTime + target * d
    ensures p.arrivalTime + cfg.minPackets * d <= p.arrivalTime + target * d <= p.arrivalTime + cfg.maxPackets * d
  {
    MulMonotone(cfg.minPackets, target, d);
    MulMonotone(target, cfg.maxPackets, d);
    PlayoutTimeIs(cfg, target, p, d);
    FitsWord(p.arrivalTime + target * d);
  }

  /** Every packet a playout step of a run hands out has the least timestamp in the queue, and is not
      early: the clock has passed its arrival by the current target depth (no 64-bit overflow), which is at
      least the minimum depth. */
  lemma DeliveryIsLeastAndNotEarly(cfg: Config, events: seq<Event>, n: nat, d: nat)
    requires SaneConfig(cfg) && n < |events| && events[n].Playout?
    ensures var s := RunFirst(cfg, events, n).s;
      match Poll(cfg, s, events[n].now).1
      case None => true
      case Some(p) =>
        && (forall q :: q in s.queue ==> p.timestamp <= q.timestamp)
        && (Lasts(cfg, p, d) && p.arrivalTime + cfg.maxPackets * d < TWO64 ==>
              events[n].now >= p.arrivalTime + s.target * d >= p.arrivalTime + cfg.minPackets * d)
  {
    RunInvariant(cfg, events, n);
    var s := RunFirst(cfg, events, n).s;
    match Poll(cfg, s, events[n].now).1
    case None =>
    case Some(p) =>
      if Lasts(cfg, p, d) && p.arrivalTime + cfg.maxPackets * d < TWO64 {
        PlayoutTimeBounds(cfg, s.target, p, d);
      }
  }

  /** Polling at the given times. */
  function PollAll(cfg: Config, s: State, times: seq<U64>): (State, seq<JitterPacket>)
    requires cfg.sampleRate > 0
    decreases |times|
  {
    if times == [] then (s, [])
    else
      var (s1, p) := Poll(cfg, s, times[0]);
      var (s2, out) := PollAll(cfg, s1, times[1..]);
      (s2, (if p.Some? then [p.value] else []) + out)
  }

  /** Even the deepest target has been waited out for every queued packet at time t. */
  ghost predicate Overdue(cfg: Config, queue: seq<JitterPacket>, t: U64) {
    forall i, d :: 0 <= i < |queue| && Lasts(cfg, queue[i], d) ==>
      queue[i].arrivalTime + cfg.maxPackets * d <= t
  }

  lemma OverdueSuffix(cfg: Config, queue: seq<JitterPacket>, j: nat, t: U64)
    requires j <= |queue| && Overdue(cfg, queue, t)
    ensures Overdue(cfg, queue[j..], t)
  {
  }

  /** An overdue front is handed out, whatever the target. */
  lemma OverdueIsPlayed(cfg: Config, s: State, now: U64)
    requires SaneConfig(cfg) && cfg.minPackets <= s.target <= cfg.maxPackets
    requires s.queue != [] && Overdue(cfg, s.queue, now)
    ensures Poll(cfg, s, now) == (s.(lastPlayoutTime := now, queue := s.queue[1..]), Some(s.queue[0]))
  {
    var d := Duration(cfg, s.queue[0]);
    DurationIs(cfg, s.queue[0], d);
    PlayoutTimeBounds(cfg, s.target, s.queue[0], d);
  }

  /** DRAIN.  Once every packet is overdue, n polls hand out exactly the first n packets of the queue, in
      order; so a queue is empty after exactly as many polls as it has packets. */
  lemma {:induction false} Drain(cfg: Config, s: State, times: seq<U64>)
    requires SaneConfig(cfg) && cfg.minPackets <= s.target <= cfg.maxPackets
    requires |times| <= |s.queue|
    requires forall i :: 0 <= i < |times| ==> Overdue(cfg, s.queue, times[i])
    ensures var (s', out) := PollAll(cfg, s, times);
      out == s.queue[..|times|] && s'.queue == s.queue[|times|..]
    decreases |times|
  {
    if times != [] {
      OverdueIsPlayed(cfg, s, times[0]);
      var s1 := Poll(cfg, s, times[0]).0;
      forall i | 0 <= i < |times[1..]|
        ensures Overdue(cfg, s1.queue, times[1..][i])
      {
        OverdueSuffix(cfg, s.queue, 1, times[i + 1]);
      }
      Drain(cfg, s1, times[1..]);
      assert s.queue[..|times|] == [s.queue[0]] + s1.queue[..|times| - 1];
    }
  }

  // ---------------------------------------------------------------------------------------------
  // What raises the target depth
  // ---------------------------------------------------------------------------------------------

  /** An arrival that is queued and leaves at least one packet less than the maximum in the queue. */
  ghost predicate NearlyFills(cfg: Config, s: State, e: Event) {
    e.Arrive? && |s.queue| < cfg.maxPackets <= |s.queue| + 2
  }

  /** A poll that finds nothing. */
  ghost predicate Starves(s: State, e: Event) {
    e.Playout? && s.queue == []
  }

  /** THE DEPTH RULES for an arrival that is queued.  It raises the target by one if it nearly fills the queue,
      and by one more if polls have starved, which clears their counter; never past the maximum.  It lowers the
      target by one if that leaves over two packets more than the target queued, with the counter at zero. */
  lemma DepthRules(cfg: Config, s: State, p: JitterPacket)
    requires cfg.maxPackets + 2 < TWO32 && s.target <= cfg.maxPackets && |s.queue| < cfg.maxPackets
    ensures var full := if |s.queue| + 2 >= cfg.maxPackets then 1 else 0;
      var starved := if s.underruns > 0 then 1 else 0;
      var risen := Min(s.target + full + starved, cfg.maxPackets);
      var s' := AfterInsert(cfg, s, p);
      && |s'.queue| == |s.queue| + 1
      && s'.underruns == (if s.target + full < cfg.maxPackets then 0 else s.underruns)
      && s'.target ==
           if |s.queue| + 1 > risen + 2 && s'.underruns == 0 && risen > cfg.minPackets then risen - 1 else risen
  {
    DivModUnique(cfg.maxPackets - 1, TWO32, 0, cfg.maxPackets - 1);
  }

  lemma CalmArrival(cfg: Config, s: State, p: JitterPacket)
    requires s.underruns == 0 && AfterInsert(cfg, s, p).target > s.target
    ensures |s.queue| < cfg.maxPackets <= |s.queue| + 2
  {
    if |s.queue| < cfg.maxPackets {
      DivModUnique(cfg.maxPackets - 1, TWO32, 0, cfg.maxPackets - 1);
    }
  }

  lemma CalmStep(cfg: Config, l: Log, e: Event)
    requires cfg.sampleRate > 0 && l.s.underruns == 0
    ensures !Starves(l.s, e) ==> StepLog(cfg, l, e).s.underruns == 0
    ensures StepLog(cfg, l, e).s.target > l.s.target ==> NearlyFills(cfg, l.s, e)
  {
    if e.Arrive? && StepLog(cfg, l, e).s.target > l.s.target {
      CalmArrival(cfg, l.s, e.packet);
    }
  }

  /** After i events the counter is at zero. */
  ghost predicate Calm(cfg: Config, events: seq<Event>, i: nat)
    requires cfg.sampleRate > 0 && i <= |events|
  {
    match RunFirst(cfg, events, i)
    case Log(s, _, _, _) => s.underruns == 0
  }

  /** Event i is a poll that finds nothing. */
  ghost predicate StarvesAt(cfg: Config, events: seq<Event>, i: nat)
    requires cfg.sampleRate > 0 && i < |events|
  {
    match RunFirst(cfg, events, i)
    case Log(s, _, _, _) => Starves(s, events[i])
  }

  /** Event i is an arrival that nearly fills the queue. */
  ghost predicate NearlyFillsAt(cfg: Config, events: seq<Event>, i: nat)
    requires cfg.sampleRate > 0 && i < |events|
  {
    match RunFirst(cfg, events, i)
    case Log(s, _, _, _) => NearlyFills(cfg, s, events[i])
  }

  lemma CalmNext(cfg: Config, events: seq<Event>, i: nat)
    requires cfg.sampleRate > 0 && i < |events| && Calm(cfg, events, i) && !StarvesAt(cfg, events, i)
    ensures Calm(cfg, events, i + 1)
  {
    CalmStep(cfg, RunFirst(cfg, events, i), events[i]);
  }

  lemma CalmRaise(cfg: Config, events: seq<Event>, i: nat)
    requires cfg.sampleRate > 0 && i < |events| && Calm(cfg, events, i)
    ensures RunFirst(cfg, events, i + 1).s.target > RunFirst(cfg, events, i).s.target ==> NearlyFillsAt(cfg, events, i)
  {
    CalmStep(cfg, RunFirst(cfg, events, i), events[i]);
  }

  lemma {:induction false} StaysCalm(cfg: Config, events: seq<Event>, i: nat, j: nat)
    requires cfg.sampleRate > 0 && i <= j <= |events| && Calm(cfg, events, i)
    requires forall k :: i <= k < j ==> !StarvesAt(cfg, events, k)
    ensures Calm(cfg, events, j)
    decreases j
  {
    if i < j {
      StaysCalm(cfg, events, i, j - 1);
      CalmNext(cfg, events, j - 1);
    }
  }

  lemma UsesUpUnderruns(cfg: Config, l: Log, p: JitterPacket)
    requires cfg.sampleRate > 0 && |l.s.queue| < cfg.maxPackets
    requires l.s.target + (if |l.s.queue| + 2 >= cfg.maxPackets then 1 else 0) < cfg.maxPackets
    ensures StepLog(cfg, l, Arrive(p)).s.underruns == 0
  {
    DivModUnique(cfg.maxPackets - 1, TWO32, 0, cfg.maxPackets - 1);
  }

  /** Event i is an arrival that is queued and finds the target below the maximum, even after a raise for nearly
      filling the queue. */
  ghost predicate FindsRoomAt(cfg: Config, events: seq<Event>, i: nat)
    requires cfg.sampleRate > 0 && i < |events|
  {
    match RunFirst(cfg, events, i)
    case Log(s, _, _, _) =>
      && events[i].Arrive? && |s.queue| < cfg.maxPackets
      && s.target + (if |s.queue| + 2 >= cfg.maxPackets then 1 else 0) < cfg.maxPackets
  }

  lemma CalmsDown(cfg: Config, events: seq<Event>, i: nat)
    requires cfg.sampleRate > 0 && i < |events| && FindsRoomAt(cfg, events, i)
    ensures Calm(cfg, events, i + 1)
  {
    UsesUpUnderruns(cfg, RunFirst(cfg, events, i), events[i].packet);
  }

  /** ONE RAISE FOR STARVED POLLS.  However many polls starved before, an arrival that is queued and finds the
      target below the maximum uses them up: until another poll starves, nothing but a nearly full queue raises
      the target. */
  lemma RaisedOnce(cfg: Config, events: seq<Event>, i: nat, j: nat)
    requires cfg.sampleRate > 0 && i < j < |events| && FindsRoomAt(cfg, events, i)
    requires forall k :: i < k < j ==> !StarvesAt(cfg, events, k)
    ensures Calm(cfg, events, i + 1) && Calm(cfg, events, j)
    ensures RunFirst(cfg, events, j + 1).s.target > RunFirst(cfg, events, j).s.target ==> NearlyFillsAt(cfg, events, j)
  {
    CalmsDown(cfg, events, i);
    StaysCalm(cfg, events, i + 1, j);
    CalmRaise(cfg, events, j);
  }

  /** The event leads from one log to the other. */
  ghost predicate Leads(cfg: Config, l: Log, e: Event, l': Log)
    requires cfg.sampleRate > 0
  {
    match l
    case Log(_, _, _, _) => l' == StepLog(cfg, l, e)
  }

  ghost predicate LeadsAt(cfg: Config, events: seq<Event>, logs: seq<Log>, i: nat)
    requires cfg.sampleRate > 0 && i < |events| && |logs| == |events| + 1
  {
    Leads(cfg, logs[i], events[i], logs[i + 1])
  }

  /** The logs of a run: one before each event, and one after the last. */
  ghost predicate IsRun(cfg: Config, events: seq<Event>, logs: seq<Log>)
    requires cfg.sampleRate > 0
  {
    && |logs| == |events| + 1 && logs[0] == Log(Initial(cfg), [], [], 0)
    && forall i :: 0 <= i < |events| ==> LeadsAt(cfg, events, logs, i)
  }

  lemma RunIsNext(cfg: Config, events: seq<Event>, logs: seq<Log>, n: nat)
    requires cfg.sampleRate > 0 && n < |events| && |logs| == |events| + 1
    requires LeadsAt(cfg, events, logs, n) && logs[n] == RunFirst(cfg, events, n)
    ensures logs[n + 1] == RunFirst(cfg, events, n + 1)
  {
  }

  lemma {:induction false} RunIs(cfg: Config, events: seq<Event>, logs: seq<Log>, n: nat)
    requires cfg.sampleRate > 0 && IsRun(cfg, events, logs) && n <= |events|
    ensures logs[n] == RunFirst(cfg, events, n)
    decreases n
  {
    if n > 0 {
      RunIs(cfg, events, logs, n - 1);
      RunIsNext(cfg, events, logs, n - 1);
    }
  }

  /** By how much the target is higher in the second log. */
  function Rise(l: Log, l': Log): nat {
    match (l, l')
    case (Log(s, _, _, _), Log(s', _, _, _)) => if s'.target > s.target then s'.target - s.target else 0
  }

  /** 1 for a poll that starves and for an arrival that nearly fills the queue. */
  ghost function Reason(cfg: Config, l: Log, e: Event): nat {
    match l
    case Log(s, _, _, _) => if Starves(s, e) || NearlyFills(cfg, s, e) then 1 else 0
  }

  /** 1 if a starved poll has not raised the target yet. */
  function Pending(l: Log): nat {
    match l
    case Log(s, _, _, _) => if s.underruns > 0 then 1 else 0
  }

  /** By how much the first n events have raised the target, each counted by itself. */
  function Raises(logs: seq<Log>, n: nat): nat
    requires n < |logs|
  {
    if n == 0 then 0 else Raises(logs, n - 1) + Rise(logs[n - 1], logs[n])
  }

  /** Starved polls and arrivals that nearly fill the queue, among the first n events. */
  ghost function Reasons(cfg: Config, events: seq<Event>, logs: seq<Log>, n: nat): nat
    requires n < |logs| && n <= |events|
  {
    if n == 0 then 0 else Reasons(cfg, events, logs, n - 1) + Reason(cfg, logs[n - 1], events[n - 1])
  }

  lemma ReasonToRise(cfg: Config, l: Log, e: Event, l': Log)
    requires cfg.sampleRate > 0 && Leads(cfg, l, e, l')
    ensures Rise(l, l') + Pending(l') <= Pending(l) + Reason(cfg, l, e)
  {
    if e.Arrive? && |l.s.queue| < cfg.maxPackets {
      DivModUnique(cfg.maxPackets - 1, TWO32, 0, cfg.maxPackets - 1);
    }
  }

  /** RAISES ARE EARNED.  On every run the target is raised by no more, in all, than the number of polls that
      starved and of arrivals that nearly filled the queue; a starved poll that has not raised it yet is left over. */
  lemma {:induction false} RaisesAreEarned(cfg: Config, events: seq<Event>, logs: seq<Log>, n: nat)
    requires cfg.sampleRate > 0 && IsRun(cfg, events, logs) && n <= |events|
    ensures Raises(logs, n) + Pending(logs[n]) <= Reasons(cfg, events, logs, n)
    decreases n
  {
    if n == 0 {
      assert Pending(logs[0]) == 0;
    } else {
      RaisesAreEarned(cfg, events, logs, n - 1);
      assert LeadsAt(cfg, events, logs, n - 1);
      ReasonToRise(cfg, logs[n - 1], events[n - 1], logs[n]);
    }
  }

  // ---------------------------------------------------------------------------------------------
  // When the target depth can shrink
  // ---------------------------------------------------------------------------------------------

  /** Event i does not shrink the target. */
  ghost predicate KeepsTarget(cfg: Config, events: seq<Event>, i: nat)
    requires cfg.sampleRate > 0 && i < |events|
  {
    RunFirst(cfg, events, i).s.target <= RunFirst(cfg, events, i + 1).s.target
  }

  ghost predicate NeverShrinks(cfg: Config, events: seq<Event>)
    requires cfg.sampleRate > 0
  {
    forall i :: 0 <= i < |events| ==> KeepsTarget(cfg, events, i)
  }

  /** A poll that finds the queue empty makes the next arrival raise the target by one, up to the maximum -
      except that a target of 0 out of at most 2 is raised twice, as one packet nearly fills that queue. */
  lemma UnderrunRaisesTarget(cfg: Config, s: State, now: U64, p: JitterPacket)
    requires SaneConfig(cfg) && 0 < cfg.maxPackets && cfg.maxPackets + 2 < TWO32
    requires cfg.minPackets <= s.target <= cfg.maxPackets
    requires s.queue == [] && s.underruns + 1 < TWO32
    ensures Poll(cfg, s, now) == (s.(underruns := s.underruns + 1), None)
    ensures var target := AfterInsert(cfg, Poll(cfg, s, now).0, p).target;
      && (target == Min(s.target + 1, cfg.maxPackets) <==> !(s.target == 0 && cfg.maxPackets == 2))
      && (s.target == 0 && cfg.maxPackets == 2 ==> target == 2)
  {
    DivModUnique(s.underruns + 1, TWO32, 0, s.underruns + 1);
    DivModUnique(cfg.maxPackets - 1, TWO32, 0, cfg.maxPackets - 1);
  }

  /** A net decrease needs a target at least 5 below the maximum. */
  lemma ShrinkNeedsRoom(cfg: Config, target: U32, underruns: U32, depth: nat)
    requires target <= cfg.maxPackets && 0 < depth <= cfg.maxPackets && cfg.maxPackets + 2 < TWO32
    requires Adjust(cfg, target, underruns, depth).0 < target
    ensures target + 5 <= cfg.maxPackets
  {
  }

  lemma NarrowStep(cfg: Config, l: Log, e: Event)
    requires SaneConfig(cfg) && cfg.maxPackets + 2 < TWO32
    requires LogInv(cfg, l) && l.s.target + 4 >= cfg.maxPackets
    ensures StepLog(cfg, l, e).s.target >= l.s.target
  {
    if e.Arrive? && |l.s.queue| < cfg.maxPackets {
      if StepLog(cfg, l, e).s.target < l.s.target {
        ShrinkNeedsRoom(cfg, l.s.target, l.s.underruns, |l.s.queue| + 1);
      }
    }
  }

  lemma {:induction false} TargetStaysHigh(cfg: Config, events: seq<Event>, n: nat)
    requires SaneConfig(cfg) && cfg.maxPackets + 2 < TWO32 && cfg.maxPackets - cfg.minPackets <= 8
    requires n <= |events|
    ensures RunFirst(cfg, events, n).s.target + 4 >= cfg.maxPackets
    decreases n
  {
    if n == 0 {
      InitialTarget(cfg);
    } else {
      TargetStaysHigh(cfg, events, n - 1);
      RunInvariant(cfg, events, n - 1);
      NarrowStep(cfg, RunFirst(cfg, events, n - 1), events[n - 1]);
    }
  }

  lemma NarrowNeverShrinks(cfg: Config, events: seq<Event>, n: nat)
    requires SaneConfig(cfg) && cfg.maxPackets + 2 < TWO32 && cfg.maxPackets - cfg.minPackets <= 8
    requires n < |events|
    ensures KeepsTarget(cfg, events, n)
  {
    TargetStaysHigh(cfg, events, n);
    RunInvariant(cfg, events, n);
    NarrowStep(cfg, RunFirst(cfg, events, n), events[n]);
  }

  const SOME_PACKET := JitterPacket(0, 0, 0, [])

  /** n arrivals and nothing else. */
  function Burst(n: nat): seq<Event> {
    seq(n, i => Arrive(SOME_PACKET))
  }

  ghost predicate Filling(s: State, m: nat, t: nat) {
    |s.queue| == m && s.underruns == 0 && s.target == t
  }

  lemma BurstStep(cfg: Config, l: Log, m: nat, t: nat)
    requires SaneConfig(cfg) && cfg.maxPackets + 2 < TWO32
    requires Filling(l.s, m, t) && t <= cfg.maxPackets && m + 2 < cfg.maxPackets && m < t + 3
    ensures Filling(StepLog(cfg, l, Arrive(SOME_PACKET)).s, m + 1,
                    if m == t + 2 && t > cfg.minPackets then t - 1 else t)
  {
  }

  lemma {:induction false} BurstFills(cfg: Config, n: nat, m: nat, t: nat)
    requires SaneConfig(cfg) && cfg.maxPackets + 2 < TWO32 && m <= n
    requires t == Initial(cfg).target && m <= t + 2 && m + 1 < cfg.maxPackets
    ensures Filling(RunFirst(cfg, Burst(n), m).s, m, t)
    decreases m
  {
    if m > 0 {
      BurstFills(cfg, n, m - 1, t);
      InitialTarget(cfg);
      BurstStep(cfg, RunFirst(cfg, Burst(n), m - 1), m - 1, t);
    }
  }

  lemma LastOfBurst(cfg: Config, events: seq<Event>, n: nat, t: nat)
    requires SaneConfig(cfg) && cfg.maxPackets + 2 < TWO32
    requires n < |events| && events[n] == Arrive(SOME_PACKET) && n == t + 2 && cfg.minPackets < t <= cfg.maxPackets
    requires n + 2 < cfg.maxPackets && Filling(RunFirst(cfg, events, n).s, n, t)
    ensures !KeepsTarget(cfg, events, n)
  {
    BurstStep(cfg, RunFirst(cfg, events, n), n, t);
  }

  lemma WideShrinks(cfg: Config)
    requires SaneConfig(cfg) && cfg.maxPackets + 2 < TWO32 && cfg.maxPackets - cfg.minPackets > 8
    ensures !NeverShrinks(cfg, Burst(Initial(cfg).target + 3))
  {
    var t := Initial(cfg).target;
    var events := Burst(t + 3);
    InitialTarget(cfg);
    BurstFills(cfg, t + 3, t + 2, t);
    LastOfBurst(cfg, events, t + 2, t);
    assert !KeepsTarget(cfg, events, t + 2);
  }

  /** WHEN THE TARGET SHRINKS.  On no run at all, exactly if the configured range spans at most 8 packets
      (the engine's 3 to 6 does). */
  lemma NeverShrinksIffNarrow(cfg: Config)
    requires SaneConfig(cfg) && cfg.maxPackets + 2 < TWO32
    ensures (forall events :: NeverShrinks(cfg, events)) <==> cfg.maxPackets - cfg.minPackets <= 8
  {
    if cfg.maxPackets - cfg.minPackets <= 8 {
      forall events
        ensures NeverShrinks(cfg, events)
      {
        forall i | 0 <= i < |events|
          ensures KeepsTarget(cfg, events, i)
        {
          NarrowNeverShrinks(cfg, events, i);
        }
      }
    } else {
      WideShrinks(cfg);
    }
  }
}
