/** The whole receive path of one stream, from the packetizer's blocks to the samples the driver reads:
    network, depacketizer, jitter buffer, playout loop, ring, driver.  The ring's two threads overlap; here
    each of their calls is one step, a driver's Read standing for the count it got, which is what
    RingProtocol.Linearises allows (ThreadsHearTheSender puts the two together). */
module AudioPath {
  import opened Words
  import opened Rtp
  import opened RtpRuns
  import opened Jitter
  import opened Transport
  import Fifo
  import RingProtocol

  datatype PathEvent = Net(e: NetEvent) | DriverRead(count: nat)

  /** What one playout iteration wrote: the beginning of a sent block, or of a stretch of silence, cut to
      the room the ring had. */
  datatype Segment = Segment(source: Option<nat>, room: nat)

  /** The receiver, the ring's contents, what the driver has read, and what each playout iteration wrote. */
  datatype Path = Path(net: NetLog, ring: seq<I32>, read: seq<I32>, segments: seq<Segment>)

  /** What arrives of a sent block, as the receiver should hear it, or a stretch of silence. */
  function WholeSound(snd: Sender, source: Option<nat>): seq<I32> {
    match source
    case None => Fifo.Repeat(0, SILENCE_FRAMES * CHANNELS)
    case Some(n) => if n < |snd.blocks| then TruncatedAll(Fitting(snd.blocks[n]).samples) else []
  }

  /** The sound of a sent block is the whole block exactly if that has no more frames than a datagram. */
  lemma SoundIsWholeIff(snd: Sender, n: nat)
    requires GoodSender(snd) && n < |snd.blocks|
    ensures WholeSound(snd, Some(n)) == TruncatedAll(snd.blocks[n].samples) <==> snd.blocks[n].frames <= 62
    ensures WholeSound(snd, Some(n)) <= TruncatedAll(snd.blocks[n].samples)
  {
    assert Sendable(snd.blocks[n], CHANNELS);
    FittingIsSendable(snd.blocks[n]);
  }

  function SoundOf(snd: Sender, g: Segment): seq<I32> {
    var whole := WholeSound(snd, g.source);
    whole[..Min(g.room, |whole|)]
  }

  function Sound(snd: Sender, segments: seq<Segment>): seq<I32> {
    if segments == [] then []
    else Sound(snd, segments[..|segments| - 1]) + SoundOf(snd, segments[|segments| - 1])
  }

  /** The numbers of the sent blocks among the segments. */
  function Numbers(segments: seq<Segment>): seq<nat> {
    if segments == [] then []
    else
      var last := segments[|segments| - 1];
      Numbers(segments[..|segments| - 1]) + (if last.source.Some? then [last.source.value] else [])
  }

  /** What the playout iteration at `now` writes. */
  function WrittenBlock(cfg: Config, p: Path, now: U64): seq<I32>
    requires cfg.sampleRate > 0
  {
    PlayoutBlock(Poll(cfg, p.net.sys.jb, now).1)
  }

  predicate Possible(snd: Sender, e: PathEvent) {
    e.Net? ==> Exists(snd, e.e)
  }

  predicate AllPossible(snd: Sender, events: seq<PathEvent>) {
    forall i {:trigger Possible(snd, events[i])} :: 0 <= i < |events| ==> Possible(snd, events[i])
  }

  function PathStep(cfg: Config, snd: Sender, limit: nat, p: Path, e: PathEvent): Path
    requires cfg.sampleRate > 0 && |p.ring| <= limit && Possible(snd, e)
  {
    match e
    case DriverRead(count) =>
      var (ring, reply) := Fifo.Step(p.ring, limit, 0, Fifo.Read(count));
      p.(ring := ring, read := p.read + reply.values)
    case Net(Deliver(n, now)) => p.(net := NetStep(cfg, snd, p.net, Deliver(n, now)))
    case Net(Tick(now)) =>
      var net := NetStep(cfg, snd, p.net, Tick(now));
      var source := if |net.playedTags| > |p.net.playedTags| then Some(net.playedTags[|p.net.playedTags|]) else None;
      var room := limit - |p.ring|;
      p.(net := net, segments := p.segments + [Segment(source, room)],
         ring := Fifo.Step(p.ring, limit, 0, Fifo.Write(WrittenBlock(cfg, p, now))).0)
  }

  function PathStart(cfg: Config): Path {
    Path(NetStart(cfg), [], [], [])
  }

  /** Step k of a run leads from state k to state k + 1. */
  ghost predicate StepAt(cfg: Config, snd: Sender, limit: nat, events: seq<PathEvent>, ps: seq<Path>, k: nat)
    requires cfg.sampleRate > 0 && k < |events| && |ps| == |events| + 1
  {
    && |ps[k].ring| <= limit && Possible(snd, events[k])
    && ps[k + 1] == PathStep(cfg, snd, limit, ps[k], events[k])
  }

  /** A run: the states before its first event and after each. */
  ghost predicate Follows(cfg: Config, snd: Sender, limit: nat, events: seq<PathEvent>, ps: seq<Path>)
    requires cfg.sampleRate > 0
  {
    && |ps| == |events| + 1 && ps[0] == PathStart(cfg)
    && forall k :: 0 <= k < |events| ==> StepAt(cfg, snd, limit, events, ps, k)
  }

  lemma RingIsBounded(cfg: Config, snd: Sender, limit: nat, p: Path, e: PathEvent)
    requires cfg.sampleRate > 0 && |p.ring| <= limit && Possible(snd, e)
    ensures |PathStep(cfg, snd, limit, p, e).ring| <= limit
  {
  }

  lemma OneMoreEvent(cfg: Config, snd: Sender, limit: nat, events: seq<PathEvent>, ps: seq<Path>, e: PathEvent)
    requires cfg.sampleRate > 0 && Follows(cfg, snd, limit, events, ps) && Possible(snd, e)
    requires |ps[|events|].ring| <= limit
    ensures Follows(cfg, snd, limit, events + [e], ps + [PathStep(cfg, snd, limit, ps[|events|], e)])
  {
    var events', ps' := events + [e], ps + [PathStep(cfg, snd, limit, ps[|events|], e)];
    forall k | 0 <= k < |events'|
      ensures StepAt(cfg, snd, limit, events', ps', k)
    {
      if k < |events| {
        assert StepAt(cfg, snd, limit, events, ps, k);
      }
    }
  }

  /** Any events make a run. */
  lemma {:induction false} RunExists(cfg: Config, snd: Sender, limit: nat, events: seq<PathEvent>)
    returns (ps: seq<Path>)
    requires cfg.sampleRate > 0 && AllPossible(snd, events)
    ensures Follows(cfg, snd, limit, events, ps) && |ps[|events|].ring| <= limit
    decreases |events|
  {
    if events == [] {
      ps := [PathStart(cfg)];
    } else {
      var n := |events| - 1;
      assert Possible(snd, events[n]);
      assert forall i :: 0 <= i < n ==> events[..n][i] == events[i] && Possible(snd, events[i]);
      var before := RunExists(cfg, snd, limit, events[..n]);
      OneMoreEvent(cfg, snd, limit, events[..n], before, events[n]);
      RingIsBounded(cfg, snd, limit, before[n], events[n]);
      ps := before + [PathStep(cfg, snd, limit, before[n], events[n])];
      assert events[..n] + [events[n]] == events;
    }
  }

  /** A delivery is near the last packet that passed the sequence check, and no packet is queued behind one
      from before a timestamp wrap. */
  ghost predicate TameAt(cfg: Config, snd: Sender, events: seq<PathEvent>, ps: seq<Path>, k: nat)
    requires k < |events| && |ps| == |events| + 1
  {
    events[k].Net? ==> NearLastPassed(ps[k].net, events[k].e) && NoWrapAt(cfg, snd, ps[k].net, events[k].e)
  }

  ghost predicate PathInv(snd: Sender, limit: nat, p: Path) {
    match p
    case Path(net, ring, read, segments) =>
      && NetInv(snd, net)
      && |ring| <= limit
      && Numbers(segments) == net.playedTags
      && read + ring == Sound(snd, segments)
  }

  lemma ReadInv(cfg: Config, snd: Sender, limit: nat, p: Path, count: nat)
    requires cfg.sampleRate > 0 && PathInv(snd, limit, p)
    ensures PathInv(snd, limit, PathStep(cfg, snd, limit, p, DriverRead(count)))
  {
    var n := Min(count, |p.ring|);
    assert p.read + p.ring == (p.read + p.ring[..n]) + p.ring[n..];
  }

  lemma AddSegment(snd: Sender, segments: seq<Segment>, g: Segment)
    ensures Sound(snd, segments + [g]) == Sound(snd, segments) + SoundOf(snd, g)
    ensures Numbers(segments + [g]) == Numbers(segments) + (if g.source.Some? then [g.source.value] else [])
  {
    assert (segments + [g])[..|segments|] == segments;
  }

  lemma TickWrites(cfg: Config, snd: Sender, limit: nat, p: Path, now: U64)
    requires cfg.sampleRate > 0 && PathInv(snd, limit, p)
    ensures var net := NetStep(cfg, snd, p.net, Tick(now));
      var played := p.net.playedTags;
      if |net.playedTags| > |played| then
        net.playedTags == played + [net.playedTags[|played|]]
        && WrittenBlock(cfg, p, now) == WholeSound(snd, Some(net.playedTags[|played|]))
      else net.playedTags == played && WrittenBlock(cfg, p, now) == WholeSound(snd, None)
  {
    if Poll(cfg, p.net.sys.jb, now).1.Some? {
      assert Carries(p.net.sys.jb.queue[0], snd, p.net.queueTags[0]);
    }
  }

  lemma RingTakes(read: seq<I32>, ring: seq<I32>, limit: nat, block: seq<I32>)
    requires |ring| <= limit
    ensures read + Fifo.Step(ring, limit, 0, Fifo.Write(block)).0 ==
      (read + ring) + block[..Min(limit - |ring|, |block|)]
  {
    var kept := block[..Min(limit - |ring|, |block|)];
    assert read + (ring + kept) == (read + ring) + kept;
  }

  lemma PlayInv(cfg: Config, snd: Sender, limit: nat, p: Path, now: U64)
    requires cfg.sampleRate > 0 && PathInv(snd, limit, p)
    ensures PathInv(snd, limit, PathStep(cfg, snd, limit, p, Net(Tick(now))))
  {
    TickInv(cfg, snd, p.net, now);
    TickWrites(cfg, snd, limit, p, now);
    var p' := PathStep(cfg, snd, limit, p, Net(Tick(now)));
    var g := p'.segments[|p.segments|];
    AddSegment(snd, p.segments, g);
    RingTakes(p.read, p.ring, limit, WrittenBlock(cfg, p, now));
  }

  lemma PathStepInv(cfg: Config, snd: Sender, limit: nat, p: Path, e: PathEvent)
    requires cfg.sampleRate > 0 && GoodSender(snd) && Possible(snd, e) && PathInv(snd, limit, p)
    requires e.Net? ==> NearLastPassed(p.net, e.e) && NoWrapAt(cfg, snd, p.net, e.e)
    ensures PathInv(snd, limit, PathStep(cfg, snd, limit, p, e))
  {
    match e
    case DriverRead(count) => ReadInv(cfg, snd, limit, p, count);
    case Net(Deliver(n, now)) => DeliverInv(cfg, snd, p.net, n, now);
    case Net(Tick(now)) => PlayInv(cfg, snd, limit, p, now);
  }

  ghost predicate TameThroughout(cfg: Config, snd: Sender, events: seq<PathEvent>, ps: seq<Path>)
    requires |ps| == |events| + 1
  {
    forall i :: 0 <= i < |events| ==> TameAt(cfg, snd, events, ps, i)
  }

  lemma TameStep(cfg: Config, snd: Sender, limit: nat, events: seq<PathEvent>, ps: seq<Path>, k: nat)
    requires cfg.sampleRate > 0 && GoodSender(snd) && k < |events| && Follows(cfg, snd, limit, events, ps)
    requires TameThroughout(cfg, snd, events, ps) && PathInv(snd, limit, ps[k])
    ensures PathInv(snd, limit, ps[k + 1])
  {
    assert TameAt(cfg, snd, events, ps, k) && StepAt(cfg, snd, limit, events, ps, k);
    PathStepInv(cfg, snd, limit, ps[k], events[k]);
  }

  lemma PathStartInv(cfg: Config, snd: Sender, limit: nat)
    ensures PathInv(snd, limit, PathStart(cfg))
  {
    StartInv(cfg, snd);
  }

  lemma {:induction false} TameRunInv(cfg: Config, snd: Sender, limit: nat, events: seq<PathEvent>, ps: seq<Path>,
                                      k: nat)
    requires cfg.sampleRate > 0 && GoodSender(snd) && k <= |events| && Follows(cfg, snd, limit, events, ps)
    requires TameThroughout(cfg, snd, events, ps)
    ensures PathInv(snd, limit, ps[k])
    decreases k
  {
    if k == 0 {
      PathStartInv(cfg, snd, limit);
    } else {
      TameRunInv(cfg, snd, limit, events, ps, k - 1);
      TameStep(cfg, snd, limit, events, ps, k - 1);
    }
  }

  /** END TO END.  Whatever the network loses, repeats and reorders, and whenever the driver reads: the
      samples the driver has read are the beginning of a sound made of sent blocks in sending order (their
      first 62 frames, low 8 bits cleared) and stretches of silence, each cut only where the ring was full. */
  lemma DriverHearsTheSender(cfg: Config, snd: Sender, limit: nat, events: seq<PathEvent>, ps: seq<Path>)
    requires cfg.sampleRate > 0 && GoodSender(snd) && Follows(cfg, snd, limit, events, ps)
    requires TameThroughout(cfg, snd, events, ps)
    ensures var p := ps[|events|];
      && p.read <= Sound(snd, p.segments)
      && Sound(snd, p.segments) == p.read + p.ring
      && NonDecreasing(Numbers(p.segments))
  {
    TameRunInv(cfg, snd, limit, events, ps, |events|);
    var p := ps[|events|];
    TagsSorted(p.net.playedTags, p.net.queueTags, p.net.last);
  }

  // ---------------------------------------------------------------------------------------------
  // With the ring's two threads interleaved
  // ---------------------------------------------------------------------------------------------

  /** The calls on the ring: one Write for each playout iteration, one Read for each read. */
  function CallsAt(cfg: Config, p: Path, e: PathEvent): seq<Fifo.Call<I32>>
    requires cfg.sampleRate > 0
  {
    match e
    case DriverRead(count) => [Fifo.Read(count)]
    case Net(Deliver(_, _)) => []
    case Net(Tick(now)) => [Fifo.Write(WrittenBlock(cfg, p, now))]
  }

  /** The calls made before each event of a run, and after the last. */
  ghost predicate CallsGrowAt(cfg: Config, events: seq<PathEvent>, ps: seq<Path>, cs: seq<seq<Fifo.Call<I32>>>, k: nat)
    requires cfg.sampleRate > 0 && k < |events| && |ps| == |cs| == |events| + 1
  {
    cs[k + 1] == cs[k] + CallsAt(cfg, ps[k], events[k])
  }

  ghost predicate RingCalls(cfg: Config, events: seq<PathEvent>, ps: seq<Path>, cs: seq<seq<Fifo.Call<I32>>>)
    requires cfg.sampleRate > 0 && |ps| == |events| + 1
  {
    && |cs| == |events| + 1 && cs[0] == []
    && forall k :: 0 <= k < |events| ==> CallsGrowAt(cfg, events, ps, cs, k)
  }

  /** What the calls leave in the ring, and what they have delivered. */
  function Outcome(limit: nat, calls: seq<Fifo.Call<I32>>): (r: (seq<I32>, seq<I32>))
    ensures |r.0| <= limit
  {
    var r := Fifo.Run([], limit, 0, calls);
    (r.0, Fifo.Delivered(calls, r.1))
  }

  lemma LeavesMore(limit: nat, calls: seq<Fifo.Call<I32>>, ring: seq<I32>, read: seq<I32>, call: Fifo.Call<I32>)
    requires Outcome(limit, calls) == (ring, read) && |ring| <= limit
    ensures var (ring', reply) := Fifo.Step(ring, limit, 0, call);
      Outcome(limit, calls + [call]) == (ring', read + Fifo.Out(call, reply))
  {
    Fifo.RunMore([], limit, 0, calls, call);
    var r := Fifo.Run([], limit, 0, calls + [call]).1;
    assert (calls + [call])[..|calls|] == calls && r[..|calls|] == Fifo.Run([], limit, 0, calls).1;
  }

  lemma ReadLeaves(cfg: Config, snd: Sender, limit: nat, p: Path, count: nat, calls: seq<Fifo.Call<I32>>)
    requires cfg.sampleRate > 0 && |p.ring| <= limit && Outcome(limit, calls) == (p.ring, p.read)
    ensures var p' := PathStep(cfg, snd, limit, p, DriverRead(count));
      Outcome(limit, calls + [Fifo.Read(count)]) == (p'.ring, p'.read)
  {
    LeavesMore(limit, calls, p.ring, p.read, Fifo.Read(count));
  }

  lemma TickLeaves(cfg: Config, snd: Sender, limit: nat, p: Path, now: U64, calls: seq<Fifo.Call<I32>>)
    requires cfg.sampleRate > 0 && |p.ring| <= limit && Outcome(limit, calls) == (p.ring, p.read)
    ensures var p' := PathStep(cfg, snd, limit, p, Net(Tick(now)));
      Outcome(limit, calls + [Fifo.Write(WrittenBlock(cfg, p, now))]) == (p'.ring, p'.read)
  {
    LeavesMore(limit, calls, p.ring, p.read, Fifo.Write(WrittenBlock(cfg, p, now)));
    assert p.read + [] == p.read;
  }

  lemma DeliverLeaves(cfg: Config, snd: Sender, limit: nat, p: Path, n: nat, now: U64, calls: seq<Fifo.Call<I32>>)
    requires cfg.sampleRate > 0 && |p.ring| <= limit && n < |snd.blocks| && Outcome(limit, calls) == (p.ring, p.read)
    ensures var p' := PathStep(cfg, snd, limit, p, Net(Deliver(n, now)));
      Outcome(limit, calls + []) == (p'.ring, p'.read)
  {
    assert calls + [] == calls;
  }

  lemma StepLeaves(cfg: Config, snd: Sender, limit: nat, p: Path, e: PathEvent, calls: seq<Fifo.Call<I32>>)
    requires cfg.sampleRate > 0 && |p.ring| <= limit && Possible(snd, e) && Outcome(limit, calls) == (p.ring, p.read)
    ensures var p' := PathStep(cfg, snd, limit, p, e);
      Outcome(limit, calls + CallsAt(cfg, p, e)) == (p'.ring, p'.read)
  {
    match e
    case DriverRead(count) => ReadLeaves(cfg, snd, limit, p, count, calls);
    case Net(Deliver(n, now)) => DeliverLeaves(cfg, snd, limit, p, n, now, calls);
    case Net(Tick(now)) => TickLeaves(cfg, snd, limit, p, now, calls);
  }

  /** The calls leave in the ring, and have delivered, what the path says. */
  ghost predicate Agrees(limit: nat, calls: seq<Fifo.Call<I32>>, p: Path) {
    match p
    case Path(_, ring, read, _) => Outcome(limit, calls) == (ring, read)
  }

  lemma NextAgrees(cfg: Config, snd: Sender, limit: nat, events: seq<PathEvent>, ps: seq<Path>,
                   cs: seq<seq<Fifo.Call<I32>>>, k: nat)
    requires cfg.sampleRate > 0 && k < |events| && Follows(cfg, snd, limit, events, ps)
    requires RingCalls(cfg, events, ps, cs) && Agrees(limit, cs[k], ps[k])
    ensures Agrees(limit, cs[k + 1], ps[k + 1])
  {
    assert StepAt(cfg, snd, limit, events, ps, k) && CallsGrowAt(cfg, events, ps, cs, k);
    StepLeaves(cfg, snd, limit, ps[k], events[k], cs[k]);
  }

  lemma StartAgrees(cfg: Config, limit: nat)
    ensures Agrees(limit, [], PathStart(cfg))
  {
  }

  lemma {:induction false} PathIsFifo(cfg: Config, snd: Sender, limit: nat, events: seq<PathEvent>, ps: seq<Path>,
                                      cs: seq<seq<Fifo.Call<I32>>>, k: nat)
    requires cfg.sampleRate > 0 && k <= |events| && Follows(cfg, snd, limit, events, ps)
    requires RingCalls(cfg, events, ps, cs)
    ensures Agrees(limit, cs[k], ps[k])
    decreases k
  {
    if k == 0 {
      StartAgrees(cfg, limit);
    } else {
      PathIsFifo(cfg, snd, limit, events, ps, cs, k - 1);
      NextAgrees(cfg, snd, limit, events, ps, cs, k - 1);
    }
  }

  lemma ThreadsDeliver(s: RingProtocol.State<I32>, k: nat, actions: seq<RingProtocol.Action<I32>>,
                       t: RingProtocol.State<I32>, limit: nat, calls: seq<Fifo.Call<I32>>,
                       ring: seq<I32>, read: seq<I32>)
    requires RingProtocol.Init(s, k) && RingProtocol.Reaches(s, actions, t) && limit == Pow2(k) - 1
    requires RingProtocol.CallsOf(s, actions, t) == calls && Outcome(limit, calls) == (ring, read)
    ensures RingProtocol.ValuesRead(t.replies) == read
  {
    RingProtocol.Linearises(s, k, actions, t, 0);
  }

  /** END TO END, WITH BOTH THREADS.  Let the playout thread and the driver's thread run on the real ring in
      any interleaving, element by element, such that the calls that take effect are those of the events.
      Then the samples the driver's thread has read are the beginning of the sender's sound. */
  lemma ThreadsHearTheSender(cfg: Config, snd: Sender, limit: nat, events: seq<PathEvent>, ps: seq<Path>,
                             cs: seq<seq<Fifo.Call<I32>>>, k: nat, s: RingProtocol.State<I32>,
                             actions: seq<RingProtocol.Action<I32>>, t: RingProtocol.State<I32>)
    requires cfg.sampleRate > 0 && GoodSender(snd) && Follows(cfg, snd, limit, events, ps) && limit == Pow2(k) - 1
    requires TameThroughout(cfg, snd, events, ps) && RingCalls(cfg, events, ps, cs)
    requires RingProtocol.Init(s, k) && RingProtocol.Reaches(s, actions, t)
    requires RingProtocol.CallsOf(s, actions, t) == cs[|events|]
    ensures var segments := ps[|events|].segments;
      RingProtocol.ValuesRead(t.replies) <= Sound(snd, segments) && NonDecreasing(Numbers(segments))
  {
    DriverHearsTheSender(cfg, snd, limit, events, ps);
    PathIsFifo(cfg, snd, limit, events, ps, cs, |events|);
    ThreadsDeliver(s, k, actions, t, limit, cs[|events|], ps[|events|].ring, ps[|events|].read);
  }

  // ---------------------------------------------------------------------------------------------
  // A perfect network and a ring that is read in time
  // ---------------------------------------------------------------------------------------------

  function PathDeliveries(events: seq<PathEvent>, k: nat): nat
    requires k <= |events|
  {
    if k == 0 then 0
    else PathDeliveries(events, k - 1) + (if events[k - 1].Net? && events[k - 1].e.Deliver? then 1 else 0)
  }

  /** The event delivers the next packet in time, or its block finds room in the ring, or it is a read. */
  ghost predicate SmoothStep(cfg: Config, snd: Sender, limit: nat, p: Path, e: PathEvent, m: nat)
    requires cfg.sampleRate > 0 && |p.ring| <= limit
  {
    match e
    case DriverRead(_) => true
    case Net(Deliver(_, _)) => DeliversNext(cfg, snd, p.net, e.e, m)
    case Net(Tick(now)) => |p.ring| + |WrittenBlock(cfg, p, now)| <= limit
  }

  ghost predicate SmoothAt(cfg: Config, snd: Sender, limit: nat, events: seq<PathEvent>, ps: seq<Path>, k: nat)
    requires cfg.sampleRate > 0 && k < |events| && |ps| == |events| + 1
  {
    |ps[k].ring| <= limit && SmoothStep(cfg, snd, limit, ps[k], events[k], PathDeliveries(events, k))
  }

  /** Every segment found room for the whole of its sound. */
  ghost predicate Uncut(snd: Sender, segments: seq<Segment>) {
    forall i :: 0 <= i < |segments| ==> |WholeSound(snd, segments[i].source)| <= segments[i].room
  }

  ghost predicate AllThere(snd: Sender, limit: nat, p: Path, m: nat) {
    match p
    case Path(net, _, _, segments) => PathInv(snd, limit, p) && Complete(snd, net, m) && Uncut(snd, segments)
  }

  lemma ReadAllThere(cfg: Config, snd: Sender, limit: nat, p: Path, m: nat, count: nat)
    requires cfg.sampleRate > 0 && AllThere(snd, limit, p, m)
    ensures AllThere(snd, limit, PathStep(cfg, snd, limit, p, DriverRead(count)), m)
  {
    ReadInv(cfg, snd, limit, p, count);
  }

  lemma NetDeliverPlaysNothing(cfg: Config, snd: Sender, l: NetLog, n: nat, now: U64)
    requires cfg.sampleRate > 0 && n < |snd.blocks|
    ensures NetStep(cfg, snd, l, Deliver(n, now)).playedTags == l.playedTags
  {
  }

  lemma DeliverAllThere(cfg: Config, snd: Sender, limit: nat, p: Path, m: nat, n: nat, now: U64)
    requires cfg.sampleRate > 0 && GoodSender(snd) && n < |snd.blocks| && AllThere(snd, limit, p, m)
    requires DeliversNext(cfg, snd, p.net, Deliver(n, now), m)
    ensures AllThere(snd, limit, PathStep(cfg, snd, limit, p, Net(Deliver(n, now))), m + 1)
  {
    NextComplete(cfg, snd, p.net, m, Deliver(n, now));
    NetDeliverPlaysNothing(cfg, snd, p.net, n, now);
  }

  lemma TickIsUncut(cfg: Config, snd: Sender, limit: nat, p: Path, now: U64)
    requires cfg.sampleRate > 0 && PathInv(snd, limit, p) && Uncut(snd, p.segments)
    requires |p.ring| + |WrittenBlock(cfg, p, now)| <= limit
    ensures Uncut(snd, PathStep(cfg, snd, limit, p, Net(Tick(now))).segments)
  {
    TickWrites(cfg, snd, limit, p, now);
  }

  lemma TickAllThere(cfg: Config, snd: Sender, limit: nat, p: Path, m: nat, now: U64)
    requires cfg.sampleRate > 0 && GoodSender(snd) && AllThere(snd, limit, p, m)
    requires |p.ring| + |WrittenBlock(cfg, p, now)| <= limit
    ensures AllThere(snd, limit, PathStep(cfg, snd, limit, p, Net(Tick(now))), m)
  {
    NextComplete(cfg, snd, p.net, m, Tick(now));
    PlayInv(cfg, snd, limit, p, now);
    TickIsUncut(cfg, snd, limit, p, now);
  }

  lemma NextAllThere(cfg: Config, snd: Sender, limit: nat, p: Path, m: nat, e: PathEvent)
    requires cfg.sampleRate > 0 && GoodSender(snd) && Possible(snd, e) && AllThere(snd, limit, p, m)
    requires SmoothStep(cfg, snd, limit, p, e, m)
    ensures AllThere(snd, limit, PathStep(cfg, snd, limit, p, e), if e.Net? && e.e.Deliver? then m + 1 else m)
  {
    match e
    case DriverRead(count) => ReadAllThere(cfg, snd, limit, p, m, count);
    case Net(Deliver(n, now)) => DeliverAllThere(cfg, snd, limit, p, m, n, now);
    case Net(Tick(now)) => TickAllThere(cfg, snd, limit, p, m, now);
  }

  ghost predicate SmoothThroughout(cfg: Config, snd: Sender, limit: nat, events: seq<PathEvent>, ps: seq<Path>)
    requires cfg.sampleRate > 0 && |ps| == |events| + 1
  {
    forall i :: 0 <= i < |events| ==> SmoothAt(cfg, snd, limit, events, ps, i)
  }

  lemma SmoothRunStep(cfg: Config, snd: Sender, limit: nat, events: seq<PathEvent>, ps: seq<Path>, k: nat)
    requires cfg.sampleRate > 0 && GoodSender(snd) && k < |events| && Follows(cfg, snd, limit, events, ps)
    requires SmoothThroughout(cfg, snd, limit, events, ps) && AllThere(snd, limit, ps[k], PathDeliveries(events, k))
    ensures AllThere(snd, limit, ps[k + 1], PathDeliveries(events, k + 1))
  {
    assert StepAt(cfg, snd, limit, events, ps, k) && SmoothAt(cfg, snd, limit, events, ps, k);
    NextAllThere(cfg, snd, limit, ps[k], PathDeliveries(events, k), events[k]);
  }

  lemma StartAllThere(cfg: Config, snd: Sender, limit: nat)
    ensures AllThere(snd, limit, PathStart(cfg), 0)
  {
    PathStartInv(cfg, snd, limit);
  }

  lemma {:induction false} SmoothRun(cfg: Config, snd: Sender, limit: nat, events: seq<PathEvent>, ps: seq<Path>,
                                     k: nat)
    requires cfg.sampleRate > 0 && GoodSender(snd) && k <= |events| && Follows(cfg, snd, limit, events, ps)
    requires SmoothThroughout(cfg, snd, limit, events, ps)
    ensures AllThere(snd, limit, ps[k], PathDeliveries(events, k))
    decreases k
  {
    if k == 0 {
      StartAllThere(cfg, snd, limit);
    } else {
      SmoothRun(cfg, snd, limit, events, ps, k - 1);
      SmoothRunStep(cfg, snd, limit, events, ps, k - 1);
    }
  }

  /** The whole sounds of the segments, one after another. */
  function WholeSounds(snd: Sender, segments: seq<Segment>): seq<I32> {
    if segments == [] then []
    else WholeSounds(snd, segments[..|segments| - 1]) + WholeSound(snd, segments[|segments| - 1].source)
  }

  lemma {:induction false} UncutIsWhole(snd: Sender, segments: seq<Segment>)
    requires Uncut(snd, segments)
    ensures Sound(snd, segments) == WholeSounds(snd, segments)
    decreases |segments|
  {
    if segments != [] {
      var n := |segments| - 1;
      UncutIsWhole(snd, segments[..n]);
      var whole := WholeSound(snd, segments[n].source);
      assert whole[..|whole|] == whole;
    }
  }

  // The target depth stays in its range, so a queue that is polled late enough drains.

  ghost predicate TargetInRange(cfg: Config, jb: State) {
    cfg.minPackets <= jb.target <= cfg.maxPackets
  }

  lemma AbsorbInRange(cfg: Config, jb: State, parsed: Parsed, now: U64)
    requires TargetInRange(cfg, jb)
    ensures TargetInRange(cfg, Absorb(cfg, jb, parsed, now).jb)
  {
    if parsed.frames > 0 && |jb.queue| < cfg.maxPackets {
      AdjustInRange(cfg, jb.target, jb.underruns, |jb.queue| + 1);
    }
  }

  lemma ReceiveInRange(cfg: Config, sys: RxSystem, bytes: seq<U8>, now: U64)
    requires TargetInRange(cfg, sys.jb)
    ensures TargetInRange(cfg, Receive(cfg, sys, bytes, now).jb)
  {
    AbsorbInRange(cfg, sys.jb, Parse(sys.rx, bytes, CHANNELS), now);
  }

  lemma DeliverInRange(cfg: Config, snd: Sender, l: NetLog, n: nat, now: U64)
    requires cfg.sampleRate > 0 && n < |snd.blocks| && TargetInRange(cfg, l.sys.jb)
    ensures TargetInRange(cfg, NetStep(cfg, snd, l, Deliver(n, now)).sys.jb)
  {
    ReceiveInRange(cfg, l.sys, Datagram(SentPacket(snd, n)), now);
  }

  lemma TickInRange(cfg: Config, snd: Sender, l: NetLog, now: U64)
    requires cfg.sampleRate > 0 && TargetInRange(cfg, l.sys.jb)
    ensures TargetInRange(cfg, NetStep(cfg, snd, l, Tick(now)).sys.jb)
  {
  }

  lemma StepInRange(cfg: Config, snd: Sender, l: NetLog, e: NetEvent)
    requires cfg.sampleRate > 0 && Exists(snd, e) && TargetInRange(cfg, l.sys.jb)
    ensures TargetInRange(cfg, NetStep(cfg, snd, l, e).sys.jb)
  {
    match e
    case Deliver(n, now) => DeliverInRange(cfg, snd, l, n, now);
    case Tick(now) => TickInRange(cfg, snd, l, now);
  }

  lemma RangeStep(cfg: Config, snd: Sender, limit: nat, events: seq<PathEvent>, ps: seq<Path>, k: nat)
    requires cfg.sampleRate > 0 && k < |events| && Follows(cfg, snd, limit, events, ps)
    requires TargetInRange(cfg, ps[k].net.sys.jb)
    ensures TargetInRange(cfg, ps[k + 1].net.sys.jb)
  {
    assert StepAt(cfg, snd, limit, events, ps, k);
    if events[k].Net? {
      StepInRange(cfg, snd, ps[k].net, events[k].e);
    }
  }

  lemma {:induction false} TargetStaysInRange(cfg: Config, snd: Sender, limit: nat, events: seq<PathEvent>,
                                              ps: seq<Path>, k: nat)
    requires SaneConfig(cfg) && k <= |events| && Follows(cfg, snd, limit, events, ps)
    ensures TargetInRange(cfg, ps[k].net.sys.jb)
    decreases k
  {
    if k == 0 {
      InitialTarget(cfg);
    } else {
      TargetStaysInRange(cfg, snd, limit, events, ps, k - 1);
      RangeStep(cfg, snd, limit, events, ps, k - 1);
    }
  }

  /** The event polls at a time when every packet of the queue is overdue. */
  ghost predicate PollsLate(cfg: Config, queue: seq<JitterPacket>, e: PathEvent) {
    e.Net? && e.e.Tick? && Overdue(cfg, queue, e.e.now)
  }

  ghost predicate AllLate(cfg: Config, queue: seq<JitterPacket>, events: seq<PathEvent>, start: nat, end: nat)
    requires end <= |events|
  {
    forall i :: start <= i < end ==> PollsLate(cfg, queue, events[i])
  }

  lemma LatePoll(cfg: Config, snd: Sender, limit: nat, p: Path, e: PathEvent, queue: seq<JitterPacket>, j: nat)
    requires SaneConfig(cfg) && TargetInRange(cfg, p.net.sys.jb) && |p.ring| <= limit && j < |queue|
    requires p.net.sys.jb.queue == queue[j..] && PollsLate(cfg, queue, e)
    ensures var p' := PathStep(cfg, snd, limit, p, e);
      p'.net.sys.jb.queue == queue[j + 1..] && TargetInRange(cfg, p'.net.sys.jb)
  {
    OverdueSuffix(cfg, queue, j, e.e.now);
    OverdueIsPlayed(cfg, p.net.sys.jb, e.e.now);
    assert queue[j..][1..] == queue[j + 1..];
  }

  /** Polls from event `start` on have taken the first packets of the queue there. */
  ghost predicate Drained(cfg: Config, ps: seq<Path>, start: nat, k: nat)
    requires start <= k < |ps|
  {
    && k - start <= |ps[start].net.sys.jb.queue|
    && ps[k].net.sys.jb.queue == ps[start].net.sys.jb.queue[k - start..]
    && TargetInRange(cfg, ps[k].net.sys.jb)
  }

  lemma LatePollStep(cfg: Config, snd: Sender, limit: nat, events: seq<PathEvent>, ps: seq<Path>, start: nat, k: nat)
    requires SaneConfig(cfg) && start <= k < |events| && Follows(cfg, snd, limit, events, ps)
    requires AllLate(cfg, ps[start].net.sys.jb.queue, events, start, k + 1)
    requires Drained(cfg, ps, start, k) && k + 1 - start <= |ps[start].net.sys.jb.queue|
    ensures Drained(cfg, ps, start, k + 1) && PathDeliveries(events, k + 1) == PathDeliveries(events, k)
  {
    assert StepAt(cfg, snd, limit, events, ps, k);
    assert PollsLate(cfg, ps[start].net.sys.jb.queue, events[k]);
    LatePoll(cfg, snd, limit, ps[k], events[k], ps[start].net.sys.jb.queue, k - start);
  }

  /** From event `start` on, as many late polls as packets are queued there empty the queue. */
  lemma {:induction false} LatePollsDrain(cfg: Config, snd: Sender, limit: nat, events: seq<PathEvent>, ps: seq<Path>,
                                          start: nat, k: nat)
    requires SaneConfig(cfg) && start <= k <= |events| && Follows(cfg, snd, limit, events, ps)
    requires k - start <= |ps[start].net.sys.jb.queue| && TargetInRange(cfg, ps[start].net.sys.jb)
    requires AllLate(cfg, ps[start].net.sys.jb.queue, events, start, k)
    ensures Drained(cfg, ps, start, k) && PathDeliveries(events, k) == PathDeliveries(events, start)
    decreases k
  {
    if start == k {
      assert ps[start].net.sys.jb.queue[0..] == ps[start].net.sys.jb.queue;
    } else {
      LatePollsDrain(cfg, snd, limit, events, ps, start, k - 1);
      LatePollStep(cfg, snd, limit, events, ps, start, k - 1);
    }
  }

  /** Nothing is left in the jitter buffer, and the last read empties the ring. */
  lemma LastRead(cfg: Config, snd: Sender, limit: nat, p: Path, m: nat, count: nat)
    requires cfg.sampleRate > 0 && AllThere(snd, limit, p, m) && p.net.sys.jb.queue == [] && count >= limit
    ensures var p' := PathStep(cfg, snd, limit, p, DriverRead(count));
      p'.read == WholeSounds(snd, p'.segments) && Numbers(p'.segments) == UpTo(m)
  {
    assert p.ring[..|p.ring|] == p.ring;
    assert p.net.playedTags + [] == p.net.playedTags;
    UncutIsWhole(snd, p.segments);
  }

  lemma AfterDrain(cfg: Config, snd: Sender, limit: nat, events: seq<PathEvent>, ps: seq<Path>, start: nat, n: nat)
    requires SaneConfig(cfg) && start <= n <= |events| && Follows(cfg, snd, limit, events, ps)
    requires |ps[start].net.sys.jb.queue| == n - start
    requires AllLate(cfg, ps[start].net.sys.jb.queue, events, start, n)
    ensures ps[n].net.sys.jb.queue == [] && PathDeliveries(events, n) == PathDeliveries(events, start)
  {
    TargetStaysInRange(cfg, snd, limit, events, ps, start);
    LatePollsDrain(cfg, snd, limit, events, ps, start, n);
  }

  lemma AllThereAt(cfg: Config, snd: Sender, limit: nat, events: seq<PathEvent>, ps: seq<Path>, k: nat, m: nat)
    requires cfg.sampleRate > 0 && GoodSender(snd) && k <= |events| && Follows(cfg, snd, limit, events, ps)
    requires SmoothThroughout(cfg, snd, limit, events, ps) && m == PathDeliveries(events, k)
    ensures AllThere(snd, limit, ps[k], m)
  {
    SmoothRun(cfg, snd, limit, events, ps, k);
  }

  lemma LastEvent(cfg: Config, snd: Sender, limit: nat, events: seq<PathEvent>, ps: seq<Path>, m: nat)
    requires cfg.sampleRate > 0 && Follows(cfg, snd, limit, events, ps) && |events| > 0
    requires AllThere(snd, limit, ps[|events| - 1], m) && ps[|events| - 1].net.sys.jb.queue == []
    requires events[|events| - 1].DriverRead? && events[|events| - 1].count >= limit
    ensures var p := ps[|events|];
      p.read == WholeSounds(snd, p.segments) && Numbers(p.segments) == UpTo(m)
  {
    var n := |events| - 1;
    assert StepAt(cfg, snd, limit, events, ps, n);
    LastRead(cfg, snd, limit, ps[n], m, events[n].count);
  }

  /** NOTHING IS MISSED.  If the network keeps the order and loses nothing, no packet finds the queue full or
      its oldest packet behind a timestamp wrap, and no block finds the ring too full, then after enough late
      polls and one read of the rest the driver has read what arrives of every block delivered - the whole
      block, if it has at most 62 frames - uncut, once and in order, with whole stretches of silence between
      them and nothing else. */
  lemma EverythingIsHeard(cfg: Config, snd: Sender, limit: nat, events: seq<PathEvent>, ps: seq<Path>, start: nat)
    requires SaneConfig(cfg) && GoodSender(snd) && start < |events| && Follows(cfg, snd, limit, events, ps)
    requires SmoothThroughout(cfg, snd, limit, events, ps)
    requires |ps[start].net.sys.jb.queue| == |events| - 1 - start
    requires AllLate(cfg, ps[start].net.sys.jb.queue, events, start, |events| - 1)
    requires events[|events| - 1].DriverRead? && events[|events| - 1].count >= limit
    ensures var p := ps[|events|];
      && p.read == WholeSounds(snd, p.segments)
      && Numbers(p.segments) == UpTo(PathDeliveries(events, start))
  {
    var m := PathDeliveries(events, start);
    AfterDrain(cfg, snd, limit, events, ps, start, |events| - 1);
    AllThereAt(cfg, snd, limit, events, ps, |events| - 1, m);
    LastEvent(cfg, snd, limit, events, ps, m);
  }
}
