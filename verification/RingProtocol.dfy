/** The ring with its two threads interleaved.  Each atomic load or store of an index is one step, and
    so is the copy of each single element: memcpy promises no order, so the elements of a call may be
    copied in any order, and the other thread may run between any two of them.
 */
module RingProtocol {
  import opened Words
  import opened RingIndex
  import Fifo

  datatype Kind = Read | Peek | Skip

  /** Where the producer is inside Write.  WriteSilence is a Write whose data are all zero elements. */
  datatype Producer<T> =
    | PIdle
    | PSeenWrite(data: seq<T>, w: nat)                                      // has loaded writeIndex
    | PCopying(data: seq<T>, toWrite: nat, writeIdx: nat, done: set<nat>)   // has loaded readIndex as well

  /** Where the consumer is inside Read, Peek or Skip. */
  datatype Consumer<T> =
    | CIdle
    | CSeenWrite(kind: Kind, frames: nat, w: nat)                                  // has loaded writeIndex
    | CCopying(kind: Kind, toRead: nat, readIdx: nat, got: map<nat, T>)            // has loaded readIndex as well

  /** What a finished call of the consumer returned.  `at` counts the elements consumed before it. */
  datatype Reply<T> = Reply(kind: Kind, at: nat, count: nat, values: seq<T>)

  /** The shared words, the two program counters with their locals, and three history variables that no
      step of the program looks at. */
  datatype State<T> = State(
    buf: seq<T>, readIndex: nat, writeIndex: nat,
    producer: Producer<T>, consumer: Consumer<T>,
    accepted: seq<T>, taken: nat, replies: seq<Reply<T>>)

  datatype Action<T> =
    | BeginWrite(data: seq<T>)
    | ProducerLoadRead
    | ProducerCopy(i: nat)
    | PublishWrite
    | BeginRead(kind: Kind, frames: nat)
    | ConsumerLoadRead
    | ConsumerCopy(i: nat)
    | FinishRead

  ghost predicate Init<T>(s: State<T>, k: nat) {
    && k <= 63 && |s.buf| == Pow2(k)
    && s.readIndex == 0 && s.writeIndex == 0
    && s.producer == PIdle && s.consumer == CIdle
    && s.accepted == [] && s.taken == 0 && s.replies == []
  }

  /** The program counter allows the action. */
  predicate Enabled<T>(s: State<T>, a: Action<T>) {
    && s.readIndex < |s.buf| && s.writeIndex < |s.buf|
    && match a
       case BeginWrite(_) => s.producer.PIdle?
       case ProducerLoadRead => s.producer.PSeenWrite?
       case ProducerCopy(i) =>
         && s.producer.PCopying? && i < s.producer.toWrite <= |s.producer.data|
         && i !in s.producer.done && i <= |s.buf| && s.producer.writeIdx < |s.buf|
       case PublishWrite =>
         && s.producer.PCopying? && s.producer.toWrite <= |s.producer.data|
         && forall i :: 0 <= i < s.producer.toWrite ==> i in s.producer.done
       case BeginRead(_, _) => s.consumer.CIdle?
       case ConsumerLoadRead => s.consumer.CSeenWrite?
       case ConsumerCopy(i) =>
         && s.consumer.CCopying? && s.consumer.kind != Skip && i < s.consumer.toRead
         && i !in s.consumer.got && i <= |s.buf| && s.consumer.readIdx < |s.buf|
       case FinishRead =>
         && s.consumer.CCopying?
         && (s.consumer.kind != Skip ==> forall i :: 0 <= i < s.consumer.toRead ==> i in s.consumer.got)
  }

  /** The slot the producer's i-th copy stores to, and the one the consumer's i-th copy loads from. */
  function ProducerSlot<T>(s: State<T>, i: nat): nat
    requires s.producer.PCopying? && s.producer.writeIdx < |s.buf| && i <= |s.buf|
  {
    Slot(s.producer.writeIdx, i, |s.buf|)
  }

  function ConsumerSlot<T>(s: State<T>, i: nat): nat
    requires s.consumer.CCopying? && s.consumer.readIdx < |s.buf| && i <= |s.buf|
  {
    Slot(s.consumer.readIdx, i, |s.buf|)
  }

  function Next<T>(s: State<T>, a: Action<T>): State<T>
    requires Enabled(s, a)
  {
    var capacity := |s.buf|;
    var mask := capacity - 1;
    match a
    case BeginWrite(data) => s.(producer := PSeenWrite(data, s.writeIndex))
    case ProducerLoadRead =>
      var available := capacity - 1 - Distance(s.producer.w, s.readIndex, mask);
      var toWrite := Min(|s.producer.data|, available);
      if toWrite <= 0 then s.(producer := PIdle)
      else s.(producer := PCopying(s.producer.data, toWrite, s.writeIndex, {}))
    case ProducerCopy(i) =>
      s.(buf := s.buf[ProducerSlot(s, i) := s.producer.data[i]],
         producer := s.producer.(done := s.producer.done + {i}))
    case PublishWrite =>
      s.(writeIndex := BitAnd((s.producer.writeIdx + s.producer.toWrite) % TWO64, mask),
         producer := PIdle,
         accepted := s.accepted + s.producer.data[..s.producer.toWrite])
    case BeginRead(kind, frames) => s.(consumer := CSeenWrite(kind, frames, s.writeIndex))
    case ConsumerLoadRead =>
      var available := Distance(s.consumer.w, s.readIndex, mask);
      var toRead := Min(s.consumer.frames, available);
      if toRead == 0 then s.(consumer := CIdle)
      else s.(consumer := CCopying(s.consumer.kind, toRead, s.readIndex, map[]))
    case ConsumerCopy(i) =>
      s.(consumer := s.consumer.(got := s.consumer.got[i := s.buf[ConsumerSlot(s, i)]]))
    case FinishRead =>
      var c := s.consumer;
      var values := if c.kind == Skip then [] else seq(c.toRead, i requires 0 <= i < c.toRead => c.got[i]);
      var s' := s.(consumer := CIdle, replies := s.replies + [Reply(c.kind, s.taken, c.toRead, values)]);
      if c.kind == Peek then s'
      else s'.(readIndex := BitAnd((c.readIdx + c.toRead) % TWO64, mask), taken := s.taken + c.toRead)
  }

  // ---------------------------------------------------------------------------------------------
  // The invariant
  // ---------------------------------------------------------------------------------------------

  /** Every element between the two counters is in its slot. */
  ghost predicate Stored<T>(buf: seq<T>, accepted: seq<T>, taken: nat) {
    && taken <= |accepted| < taken + |buf|
    && forall j :: taken <= j < |accepted| ==> buf[Home(j, |buf|)] == accepted[j]
  }

  /** The room the producer counted on is still there, and what it copied is still there. */
  ghost predicate ProducerInv<T>(p: Producer<T>, buf: seq<T>, writeIndex: nat, stored: nat, taken: nat) {
    match p
    case PIdle => true
    case PSeenWrite(_, w) => w == writeIndex
    case PCopying(data, toWrite, writeIdx, done) =>
      && 0 < toWrite <= |data|
      && taken <= stored && stored + toWrite < taken + |buf|
      && writeIdx == writeIndex
      && forall i :: i in done ==> i < toWrite && buf[Home(stored + i, |buf|)] == data[i]
  }

  /** The elements the consumer counted on are still there, and what it copied is right. */
  ghost predicate ConsumerInv<T>(c: Consumer<T>, capacity: nat, readIndex: nat, accepted: seq<T>, taken: nat)
    requires capacity > 0
  {
    match c
    case CIdle => true
    case CSeenWrite(_, _, w) => taken + Distance(w, readIndex, capacity - 1) <= |accepted|
    case CCopying(kind, toRead, readIdx, got) =>
      && 0 < toRead && taken + toRead <= |accepted|
      && readIdx == readIndex
      && forall i :: i in got ==> i < toRead && got[i] == accepted[taken + i]
  }

  /** Element number at which the first n replies leave the consumer. */
  function Consumed<T>(replies: seq<Reply<T>>, n: nat): nat
    requires n <= |replies|
  {
    if n == 0 then 0
    else Consumed(replies, n - 1) + (if replies[n - 1].kind == Peek then 0 else replies[n - 1].count)
  }

  /** The reply shows exactly the accepted elements from the position it was made at. */
  ghost predicate Faithful<T>(r: Reply<T>, accepted: seq<T>) {
    && r.at + r.count <= |accepted|
    && r.values == if r.kind == Skip then [] else accepted[r.at..r.at + r.count]
  }

  /** The j-th reply is faithful and was made where the earlier replies had left the consumer. */
  ghost predicate RightReply<T>(replies: seq<Reply<T>>, j: nat, accepted: seq<T>)
    requires j < |replies|
  {
    Faithful(replies[j], accepted) && replies[j].at == Consumed(replies, j)
  }

  ghost predicate RepliesInv<T>(replies: seq<Reply<T>>, accepted: seq<T>, taken: nat) {
    && (forall j :: 0 <= j < |replies| ==> RightReply(replies, j, accepted))
    && taken == Consumed(replies, |replies|)
  }

  ghost predicate Indices<T>(s: State<T>, k: nat) {
    && k <= 63 && |s.buf| == Pow2(k)
    && s.writeIndex == Home(|s.accepted|, |s.buf|)
    && s.readIndex == Home(s.taken, |s.buf|)
  }

  ghost predicate Inv<T>(s: State<T>, k: nat) {
    && Indices(s, k)
    && Stored(s.buf, s.accepted, s.taken)
    && ProducerInv(s.producer, s.buf, s.writeIndex, |s.accepted|, s.taken)
    && ConsumerInv(s.consumer, |s.buf|, s.readIndex, s.accepted, s.taken)
    && RepliesInv(s.replies, s.accepted, s.taken)
  }

  lemma InitInv<T>(s: State<T>, k: nat)
    requires Init(s, k)
    ensures Inv(s, k)
  {
  }

  lemma BeginInv<T>(s: State<T>, k: nat, a: Action<T>)
    requires Inv(s, k) && Enabled(s, a) && (a.BeginWrite? || a.BeginRead?)
    ensures Inv(Next(s, a), k)
  {
    DistanceOfCounters(|s.accepted|, s.taken, k);
  }

  lemma ProducerLoadInv<T>(s: State<T>, k: nat)
    requires Inv(s, k) && Enabled(s, ProducerLoadRead)
    ensures Inv(Next(s, ProducerLoadRead), k)
  {
    DistanceOfCounters(|s.accepted|, s.taken, k);
  }

  lemma ConsumerLoadInv<T>(s: State<T>, k: nat)
    requires Inv(s, k) && Enabled(s, ConsumerLoadRead)
    ensures Inv(Next(s, ConsumerLoadRead), k)
  {
  }

  /** A store ahead of the newest element changes the slot of no other element in reach. */
  lemma StoreAhead<T>(buf: seq<T>, taken: nat, n: nat, x: T)
    requires taken <= n < taken + |buf|
    ensures forall j: nat :: taken <= j < taken + |buf| && j != n ==>
      buf[Home(n, |buf|) := x][Home(j, |buf|)] == buf[Home(j, |buf|)]
  {
    forall j: nat | taken <= j < taken + |buf| && j != n
      ensures Home(j, |buf|) != Home(n, |buf|)
    {
      if j < n {
        DistinctSlots(j, n, |buf|);
      } else {
        DistinctSlots(n, j, |buf|);
      }
    }
  }

  lemma CopyKeepsBuffer<T>(p: Producer<T>, buf: seq<T>, writeIndex: nat, accepted: seq<T>, taken: nat, i: nat)
    requires Stored(buf, accepted, taken) && ProducerInv(p, buf, writeIndex, |accepted|, taken)
    requires p.PCopying? && i < p.toWrite
    ensures var buf' := buf[Home(|accepted| + i, |buf|) := p.data[i]];
      && Stored(buf', accepted, taken)
      && ProducerInv(p.(done := p.done + {i}), buf', writeIndex, |accepted|, taken)
  {
    StoreAhead(buf, taken, |accepted| + i, p.data[i]);
    var buf' := buf[Home(|accepted| + i, |buf|) := p.data[i]];
    forall j | j in p.done + {i}
      ensures buf'[Home(|accepted| + j, |buf|)] == p.data[j]
    {
    }
  }

  lemma ProducerCopyInv<T>(s: State<T>, k: nat, i: nat)
    requires Inv(s, k) && Enabled(s, ProducerCopy(i))
    ensures Inv(Next(s, ProducerCopy(i)), k)
  {
    SlotOfCounter(|s.accepted|, i, |s.buf|);
    CopyKeepsBuffer(s.producer, s.buf, s.writeIndex, s.accepted, s.taken, i);
  }

  lemma Extend<T>(buf: seq<T>, accepted: seq<T>, taken: nat, added: seq<T>)
    requires Stored(buf, accepted, taken) && |accepted| + |added| < taken + |buf|
    requires forall i :: 0 <= i < |added| ==> buf[Home(|accepted| + i, |buf|)] == added[i]
    ensures Stored(buf, accepted + added, taken)
  {
    forall j | taken <= j < |accepted + added|
      ensures buf[Home(j, |buf|)] == (accepted + added)[j]
    {
      if j >= |accepted| {
        assert buf[Home(|accepted| + (j - |accepted|), |buf|)] == added[j - |accepted|];
      }
    }
  }

  lemma PublishIndices<T>(s: State<T>, k: nat)
    requires Indices(s, k) && Enabled(s, PublishWrite)
    requires s.producer.writeIdx == s.writeIndex && s.producer.toWrite <= |s.buf|
    ensures Indices(Next(s, PublishWrite), k)
  {
    AdvanceHome(|s.accepted|, s.producer.toWrite, k);
  }

  lemma StillFaithful<T>(r: Reply<T>, accepted: seq<T>, added: seq<T>)
    requires Faithful(r, accepted)
    ensures Faithful(r, accepted + added)
  {
    assert (accepted + added)[r.at..r.at + r.count] == accepted[r.at..r.at + r.count];
  }

  lemma MoreAccepted<T>(c: Consumer<T>, capacity: nat, r: nat, accepted: seq<T>, taken: nat,
                        replies: seq<Reply<T>>, added: seq<T>)
    requires capacity > 0
    requires ConsumerInv(c, capacity, r, accepted, taken) && RepliesInv(replies, accepted, taken)
    ensures ConsumerInv(c, capacity, r, accepted + added, taken) && RepliesInv(replies, accepted + added, taken)
  {
    forall j | 0 <= j < |replies|
      ensures RightReply(replies, j, accepted + added)
    {
      assert RightReply(replies, j, accepted);
      StillFaithful(replies[j], accepted, added);
    }
  }

  lemma PublishWriteInv<T>(s: State<T>, k: nat)
    requires Inv(s, k) && Enabled(s, PublishWrite)
    ensures Inv(Next(s, PublishWrite), k)
  {
    var p := s.producer;
    var added := p.data[..p.toWrite];
    PublishIndices(s, k);
    Extend(s.buf, s.accepted, s.taken, added);
    MoreAccepted(s.consumer, |s.buf|, s.readIndex, s.accepted, s.taken, s.replies, added);
  }

  lemma CopyIsRight<T>(c: Consumer<T>, buf: seq<T>, r: nat, accepted: seq<T>, taken: nat, i: nat)
    requires Stored(buf, accepted, taken) && ConsumerInv(c, |buf|, r, accepted, taken)
    requires c.CCopying? && i < c.toRead
    ensures ConsumerInv(c.(got := c.got[i := buf[Home(taken + i, |buf|)]]), |buf|, r, accepted, taken)
  {
    assert buf[Home(taken + i, |buf|)] == accepted[taken + i];
  }

  lemma ConsumerCopyInv<T>(s: State<T>, k: nat, i: nat)
    requires Inv(s, k) && Enabled(s, ConsumerCopy(i))
    ensures Inv(Next(s, ConsumerCopy(i)), k)
  {
    SlotOfCounter(s.taken, i, |s.buf|);
    CopyIsRight(s.consumer, s.buf, s.readIndex, s.accepted, s.taken, i);
  }

  lemma {:induction false} ConsumedPrefix<T>(a: seq<Reply<T>>, b: seq<Reply<T>>)
    requires a <= b
    ensures forall n :: 0 <= n <= |a| ==> Consumed(a, n) == Consumed(b, n)
  {
    if a != [] {
      var a' := a[..|a| - 1];
      ConsumedPrefix(a', a);
      ConsumedPrefix(a', b);
    }
  }

  lemma AddReply<T>(replies: seq<Reply<T>>, accepted: seq<T>, taken: nat, r: Reply<T>)
    requires RepliesInv(replies, accepted, taken) && Faithful(r, accepted) && r.at == taken
    ensures RepliesInv(replies + [r], accepted, if r.kind == Peek then taken else taken + r.count)
  {
    ConsumedPrefix(replies, replies + [r]);
    var rs := replies + [r];
    forall j | 0 <= j < |rs|
      ensures RightReply(rs, j, accepted)
    {
      if j < |replies| {
        assert RightReply(replies, j, accepted);
      }
    }
  }

  lemma MoreTaken<T>(p: Producer<T>, buf: seq<T>, w: nat, accepted: seq<T>, taken: nat, taken': nat)
    requires Stored(buf, accepted, taken) && ProducerInv(p, buf, w, |accepted|, taken)
    requires taken <= taken' <= |accepted|
    ensures Stored(buf, accepted, taken') && ProducerInv(p, buf, w, |accepted|, taken')
  {
  }

  /** The values a finished copy returns. */
  lemma ReplyIsFaithful<T>(c: Consumer<T>, capacity: nat, r: nat, accepted: seq<T>, taken: nat, reply: Reply<T>)
    requires capacity > 0 && c.CCopying? && ConsumerInv(c, capacity, r, accepted, taken)
    requires reply.at == taken && reply.count == c.toRead && reply.kind == c.kind
    requires c.kind == Skip ==> reply.values == []
    requires c.kind != Skip ==> |reply.values| == c.toRead
    requires c.kind != Skip ==> forall i :: 0 <= i < c.toRead ==> i in c.got && reply.values[i] == c.got[i]
    ensures Faithful(reply, accepted)
  {
    if c.kind != Skip {
      assert reply.values == accepted[taken..taken + c.toRead];
    }
  }

  lemma FinishIndices<T>(s: State<T>, k: nat)
    requires Indices(s, k) && Enabled(s, FinishRead)
    requires s.consumer.readIdx == s.readIndex && s.consumer.toRead <= |s.buf|
    ensures Indices(Next(s, FinishRead), k)
  {
    if s.consumer.kind != Peek {
      AdvanceHome(s.taken, s.consumer.toRead, k);
    }
  }

  lemma FinishReadInv<T>(s: State<T>, k: nat)
    requires Inv(s, k) && Enabled(s, FinishRead)
    ensures Inv(Next(s, FinishRead), k)
  {
    var c := s.consumer;
    var t := Next(s, FinishRead);
    FinishIndices(s, k);
    ReplyIsFaithful(c, |s.buf|, s.readIndex, s.accepted, s.taken, t.replies[|s.replies|]);
    AddReply(s.replies, s.accepted, s.taken, t.replies[|s.replies|]);
    MoreTaken(s.producer, s.buf, s.writeIndex, s.accepted, s.taken, t.taken);
  }

  lemma NextInv<T>(s: State<T>, k: nat, a: Action<T>)
    requires Inv(s, k) && Enabled(s, a)
    ensures Inv(Next(s, a), k)
  {
    match a
    case ProducerCopy(i) => ProducerCopyInv(s, k, i);
    case PublishWrite => PublishWriteInv(s, k);
    case ConsumerCopy(i) => ConsumerCopyInv(s, k, i);
    case FinishRead => FinishReadInv(s, k);
    case BeginWrite(_) => BeginInv(s, k, a);
    case BeginRead(_, _) => BeginInv(s, k, a);
    case ProducerLoadRead => ProducerLoadInv(s, k);
    case ConsumerLoadRead => ConsumerLoadInv(s, k);
  }

  // ---------------------------------------------------------------------------------------------
  // Whole runs
  // ---------------------------------------------------------------------------------------------

  /** The actions can be taken one after another from s and end in t. */
  ghost predicate Reaches<T>(s: State<T>, actions: seq<Action<T>>, t: State<T>)
    decreases |actions|
  {
    if actions == [] then s == t
    else Enabled(s, actions[0]) && Reaches(Next(s, actions[0]), actions[1..], t)
  }

  lemma {:induction false} RunInv<T>(s: State<T>, k: nat, actions: seq<Action<T>>, t: State<T>)
    requires Inv(s, k) && Reaches(s, actions, t)
    ensures Inv(t, k)
    decreases |actions|
  {
    if actions != [] {
      NextInv(s, k, actions[0]);
      RunInv(Next(s, actions[0]), k, actions[1..], t);
    }
  }

  /** All elements handed out by the reads among the replies, in order. */
  function ValuesRead<T>(replies: seq<Reply<T>>): seq<T> {
    if replies == [] then []
    else
      var last := replies[|replies| - 1];
      ValuesRead(replies[..|replies| - 1]) + (if last.kind == Read then last.values else [])
  }

  lemma {:induction false} ReadsTile<T>(replies: seq<Reply<T>>, accepted: seq<T>)
    requires forall j :: 0 <= j < |replies| ==> RightReply(replies, j, accepted)
    requires forall j :: 0 <= j < |replies| ==> replies[j].kind != Skip
    ensures Consumed(replies, |replies|) <= |accepted|
    ensures ValuesRead(replies) == accepted[..Consumed(replies, |replies|)]
    decreases |replies|
  {
    if replies != [] {
      var n := |replies| - 1;
      var before := replies[..n];
      ConsumedPrefix(before, replies);
      forall j | 0 <= j < n
        ensures RightReply(before, j, accepted)
      {
        assert RightReply(replies, j, accepted);
      }
      assert RightReply(replies, n, accepted);
      ReadsTile(before, accepted);
      var c := Consumed(replies, n);
      var last := replies[n];
      assert accepted[..c + last.count] == accepted[..c] + accepted[c..c + last.count];
    }
  }

  /** SAFETY.  Whatever the interleaving: every Read and Peek returned exactly the accepted elements at
      the consumer's position, and a consumer that never skips has read a prefix of what was accepted. */
  lemma ReadsAreAPrefix<T>(s: State<T>, k: nat, actions: seq<Action<T>>, t: State<T>)
    requires Init(s, k) && Reaches(s, actions, t)
    ensures forall j :: 0 <= j < |t.replies| ==> RightReply(t.replies, j, t.accepted)
    ensures t.taken <= |t.accepted| <= t.taken + Pow2(k) - 1
    ensures (forall j :: 0 <= j < |t.replies| ==> t.replies[j].kind != Skip) ==>
      ValuesRead(t.replies) == t.accepted[..t.taken]
  {
    InitInv(s, k);
    RunInv(s, k, actions, t);
    if forall j :: 0 <= j < |t.replies| ==> t.replies[j].kind != Skip {
      ReadsTile(t.replies, t.accepted);
    }
  }

  /** NO SHARED SLOT.  In every reachable state no copy the producer still has to make, or has made
      without publishing, is to a slot that the consumer has copied from or may still copy from. */
  lemma NoSharedSlot<T>(s: State<T>, k: nat, actions: seq<Action<T>>, t: State<T>, i: nat, j: nat)
    requires Init(s, k) && Reaches(s, actions, t)
    requires t.producer.PCopying? && i < t.producer.toWrite
    requires t.consumer.CCopying? && j < t.consumer.toRead
    ensures t.producer.writeIdx < |t.buf| && t.consumer.readIdx < |t.buf| && i < |t.buf| && j < |t.buf|
    ensures ProducerSlot(t, i) != ConsumerSlot(t, j)
  {
    InitInv(s, k);
    RunInv(s, k, actions, t);
    SlotOfCounter(|t.accepted|, i, |t.buf|);
    SlotOfCounter(t.taken, j, |t.buf|);
    DistinctSlots(t.taken + j, |t.accepted| + i, |t.buf|);
  }

  /** The indices stand for counters at most a capacity less one apart. */
  ghost predicate Counting<T>(s: State<T>, k: nat) {
    Indices(s, k) && s.taken <= |s.accepted| < s.taken + Pow2(k)
  }

  lemma InvCounts<T>(s: State<T>, k: nat)
    requires Inv(s, k)
    ensures Counting(s, k) && (s.producer.PSeenWrite? ==> s.producer.w == s.writeIndex)
  {
  }

  lemma ReachedCounts<T>(start: State<T>, k: nat, actions: seq<Action<T>>, s: State<T>)
    requires Init(start, k) && Reaches(start, actions, s)
    ensures Counting(s, k) && (s.producer.PSeenWrite? ==> s.producer.w == s.writeIndex)
  {
    InitInv(start, k);
    RunInv(start, k, actions, s);
    InvCounts(s, k);
  }

  lemma StoredIs<T>(s: State<T>, k: nat)
    requires Counting(s, k)
    ensures Distance(s.writeIndex, s.readIndex, |s.buf| - 1) == |s.accepted| - s.taken
  {
    DistanceOfCounters(|s.accepted|, s.taken, k);
  }

  lemma WriteSettles<T>(s: State<T>, k: nat)
    requires Counting(s, k) && s.producer.PSeenWrite? && s.producer.w == s.writeIndex
    requires Enabled(s, ProducerLoadRead)
    ensures
      var n := Min(|s.producer.data|, Pow2(k) - 1 - (|s.accepted| - s.taken));
      var p := Next(s, ProducerLoadRead).producer;
      if n == 0 then p == PIdle else p.PCopying? && p.toWrite == n
  {
    StoredIs(s, k);
  }

  lemma ReadSettles<T>(s: State<T>, k: nat, kind: Kind, frames: nat)
    requires Counting(s, k) && Enabled(s, BeginRead(kind, frames))
    ensures
      var n := Min(frames, |s.accepted| - s.taken);
      var c := Next(Next(s, BeginRead(kind, frames)), ConsumerLoadRead).consumer;
      if n == 0 then c == CIdle else c.CCopying? && c.toRead == n
  {
    StoredIs(s, k);
  }

  /** TIGHT COUNTS.  The count a Write settles on is all its data, or all the room there was when it loaded
      the read index. */
  lemma WriteCountIsTight<T>(s: State<T>, k: nat, actions: seq<Action<T>>, t: State<T>)
    requires Init(s, k) && Reaches(s, actions, t)
    requires t.producer.PSeenWrite? && Enabled(t, ProducerLoadRead)
    ensures
      var n := Min(|t.producer.data|, Pow2(k) - 1 - (|t.accepted| - t.taken));
      var p := Next(t, ProducerLoadRead).producer;
      if n == 0 then p == PIdle else p.PCopying? && p.toWrite == n
  {
    ReachedCounts(s, k, actions, t);
    WriteSettles(t, k);
  }

  /** The count a Read settles on is its request, or all that was published when it loaded the write
      index. */
  lemma ReadCountIsTight<T>(s: State<T>, k: nat, actions: seq<Action<T>>, t: State<T>, kind: Kind, frames: nat)
    requires Init(s, k) && Reaches(s, actions, t)
    requires Enabled(t, BeginRead(kind, frames))
    ensures
      var n := Min(frames, |t.accepted| - t.taken);
      var c := Next(Next(t, BeginRead(kind, frames)), ConsumerLoadRead).consumer;
      if n == 0 then c == CIdle else c.CCopying? && c.toRead == n
  {
    ReachedCounts(s, k, actions, t);
    ReadSettles(t, k, kind, frames);
  }

  // ---------------------------------------------------------------------------------------------
  // Which atomic calls the two threads amount to
  // ---------------------------------------------------------------------------------------------

  /** The elements in the ring, with those of a Write counted from the moment it settles on its length. */
  function Queue<T>(s: State<T>): seq<T> {
    var p := s.producer;
    s.accepted[Min(s.taken, |s.accepted|)..] + (if p.PCopying? then p.data[..Min(p.toWrite, |p.data|)] else [])
  }

  ghost predicate Sized<T>(s: State<T>, k: nat) {
    && |s.buf| == Pow2(k)
    && s.taken <= |s.accepted|
    && (s.producer.PCopying? ==> s.producer.toWrite <= |s.producer.data|)
    && |Queue(s)| <= Pow2(k) - 1
  }

  /** A call of the consumer as one that asked for the count it got. */
  function Got<T>(kind: Kind, count: nat): Fifo.Call<T> {
    match kind
    case Read => Fifo.Read(count)
    case Peek => Fifo.Peek(count)
    case Skip => Fifo.Skip(count)
  }

  /** The call that takes effect with an action, if any: a Write when it loads the read index, a call of the
      consumer when it finishes - at once, if it finds nothing. */
  function CallOf<T>(s: State<T>, a: Action<T>): seq<Fifo.Call<T>>
    requires Enabled(s, a)
  {
    match a
    case ProducerLoadRead => [Fifo.Write(s.producer.data)]
    case ConsumerLoadRead => if Next(s, a).consumer.CIdle? then [Got(s.consumer.kind, 0)] else []
    case FinishRead => [Got(s.consumer.kind, s.consumer.toRead)]
    case _ => []
  }

  /** What that call returns to its thread. */
  function AnswerOf<T>(s: State<T>, a: Action<T>): (r: seq<Fifo.Reply<T>>)
    requires Enabled(s, a)
    ensures |r| == |CallOf(s, a)|
  {
    match a
    case ProducerLoadRead =>
      var p := Next(s, a).producer;
      [Fifo.Reply(if p.PCopying? then p.toWrite else 0, [])]
    case ConsumerLoadRead => if Next(s, a).consumer.CIdle? then [Fifo.Reply(0, [])] else []
    case FinishRead =>
      var reply := Next(s, a).replies[|s.replies|];
      [Fifo.Reply(reply.count, reply.values)]
    case _ => []
  }

  /** The action changes the queue, and answers its thread, as its atomic call does; if it has none, it
      does neither. */
  ghost predicate ActsAs<T>(s: State<T>, k: nat, a: Action<T>, zero: T)
    requires Sized(s, k) && Enabled(s, a)
  {
    if CallOf(s, a) == [] then Queue(Next(s, a)) == Queue(s)
    else (Queue(Next(s, a)), AnswerOf(s, a)[0]) == Fifo.Step(Queue(s), Pow2(k) - 1, zero, CallOf(s, a)[0])
  }

  lemma WriteTakesEffect<T>(s: State<T>, k: nat, zero: T)
    requires Counting(s, k) && Sized(s, k) && Enabled(s, ProducerLoadRead) && s.producer.w == s.writeIndex
    ensures ActsAs(s, k, ProducerLoadRead, zero)
  {
    var q, data := Queue(s), s.producer.data;
    assert q == s.accepted[s.taken..];
    WriteSettles(s, k);
    var n := Min(|data|, Pow2(k) - 1 - |q|);
    assert n == 0 ==> q + data[..n] == q;
  }

  lemma NothingToRead<T>(s: State<T>, k: nat, zero: T)
    requires Sized(s, k) && Enabled(s, ConsumerLoadRead)
    ensures ActsAs(s, k, ConsumerLoadRead, zero)
  {
    assert Queue(s)[..0] == [];
  }

  lemma TakeFrom<T>(accepted: seq<T>, later: seq<T>, taken: nat, n: nat)
    requires taken + n <= |accepted|
    ensures (accepted[taken..] + later)[..n] == accepted[taken..taken + n]
    ensures (accepted[taken..] + later)[n..] == accepted[taken + n..] + later
  {
  }

  lemma ReadTakesEffect<T>(s: State<T>, k: nat, zero: T)
    requires Sized(s, k) && Enabled(s, FinishRead) && s.taken + s.consumer.toRead <= |s.accepted|
    requires Faithful(Next(s, FinishRead).replies[|s.replies|], s.accepted)
    ensures ActsAs(s, k, FinishRead, zero)
  {
    var p := s.producer;
    TakeFrom(s.accepted, if p.PCopying? then p.data[..p.toWrite] else [], s.taken, s.consumer.toRead);
  }

  lemma PublishIsSilent<T>(s: State<T>, k: nat, zero: T)
    requires Sized(s, k) && Enabled(s, PublishWrite)
    ensures ActsAs(s, k, PublishWrite, zero)
  {
    var added := s.producer.data[..s.producer.toWrite];
    assert (s.accepted + added)[s.taken..] == s.accepted[s.taken..] + added;
  }

  lemma EachStepIsAtomic<T>(s: State<T>, k: nat, a: Action<T>, zero: T)
    requires Inv(s, k) && Enabled(s, a)
    ensures Sized(s, k) && ActsAs(s, k, a, zero)
  {
    match a
    case ProducerLoadRead => WriteTakesEffect(s, k, zero);
    case PublishWrite => PublishIsSilent(s, k, zero);
    case ConsumerLoadRead => NothingToRead(s, k, zero);
    case FinishRead =>
      ReplyIsFaithful(s.consumer, |s.buf|, s.readIndex, s.accepted, s.taken, Next(s, a).replies[|s.replies|]);
      ReadTakesEffect(s, k, zero);
    case _ =>
  }

  /** The atomic calls of a run, in the order they take effect, and their answers. */
  ghost function CallsOf<T>(s: State<T>, actions: seq<Action<T>>, t: State<T>): seq<Fifo.Call<T>>
    requires Reaches(s, actions, t)
    decreases |actions|
  {
    if actions == [] then [] else CallOf(s, actions[0]) + CallsOf(Next(s, actions[0]), actions[1..], t)
  }

  ghost function AnswersOf<T>(s: State<T>, actions: seq<Action<T>>, t: State<T>): (r: seq<Fifo.Reply<T>>)
    requires Reaches(s, actions, t)
    ensures |r| == |CallsOf(s, actions, t)|
    decreases |actions|
  {
    if actions == [] then [] else AnswerOf(s, actions[0]) + AnswersOf(Next(s, actions[0]), actions[1..], t)
  }

  lemma RunOfEffect<T>(s: State<T>, k: nat, a: Action<T>, zero: T)
    requires Sized(s, k) && Enabled(s, a) && ActsAs(s, k, a, zero)
    ensures (Queue(Next(s, a)), AnswerOf(s, a)) == Fifo.Run(Queue(s), Pow2(k) - 1, zero, CallOf(s, a))
  {
    if CallOf(s, a) != [] {
      assert CallOf(s, a) == [CallOf(s, a)[0]] && AnswerOf(s, a) == [AnswerOf(s, a)[0]];
      Fifo.RunOne(Queue(s), Pow2(k) - 1, zero, CallOf(s, a)[0]);
    }
  }

  /** The answers are those of the atomic calls. */
  ghost predicate Atomic<T>(q: seq<T>, q': seq<T>, k: nat, zero: T,
                            calls: seq<Fifo.Call<T>>, answers: seq<Fifo.Reply<T>>) {
    |q| <= Pow2(k) - 1 && (q', answers) == Fifo.Run(q, Pow2(k) - 1, zero, calls)
  }

  lemma AtomicJoin<T>(q: seq<T>, q1: seq<T>, q2: seq<T>, k: nat, zero: T, a: seq<Fifo.Call<T>>, ra: seq<Fifo.Reply<T>>,
                      b: seq<Fifo.Call<T>>, rb: seq<Fifo.Reply<T>>)
    requires Atomic(q, q1, k, zero, a, ra) && Atomic(q1, q2, k, zero, b, rb)
    ensures Atomic(q, q2, k, zero, a + b, ra + rb)
  {
    Fifo.RunAppend(q, Pow2(k) - 1, zero, a, b);
  }

  lemma StepRuns<T>(s: State<T>, k: nat, a: Action<T>, zero: T)
    requires Inv(s, k) && Enabled(s, a)
    ensures Inv(Next(s, a), k)
    ensures Atomic(Queue(s), Queue(Next(s, a)), k, zero, CallOf(s, a), AnswerOf(s, a))
  {
    EachStepIsAtomic(s, k, a, zero);
    RunOfEffect(s, k, a, zero);
    NextInv(s, k, a);
  }

  lemma AtomicNothing<T>(s: State<T>, k: nat, zero: T)
    requires Inv(s, k)
    ensures Atomic(Queue(s), Queue(s), k, zero, [], [])
  {
  }

  lemma {:induction false} RunIsAtomic<T>(s: State<T>, k: nat, actions: seq<Action<T>>, t: State<T>, zero: T)
    requires Inv(s, k) && Reaches(s, actions, t)
    ensures Atomic(Queue(s), Queue(t), k, zero, CallsOf(s, actions, t), AnswersOf(s, actions, t))
    decreases |actions|
  {
    if actions == [] {
      AtomicNothing(s, k, zero);
    } else {
      var a, rest := actions[0], actions[1..];
      var s' := Next(s, a);
      StepRuns(s, k, a, zero);
      RunIsAtomic(s', k, rest, t, zero);
      AtomicJoin(Queue(s), Queue(s'), Queue(t), k, zero, CallOf(s, a), AnswerOf(s, a),
                 CallsOf(s', rest, t), AnswersOf(s', rest, t));
    }
  }

  lemma OneDelivers<T>(s: State<T>, a: Action<T>)
    requires Enabled(s, a)
    ensures ValuesRead(Next(s, a).replies) == ValuesRead(s.replies) + Fifo.Delivered(CallOf(s, a), AnswerOf(s, a))
  {
    if a.FinishRead? {
      var r := Next(s, a).replies[|s.replies|];
      assert (s.replies + [r])[..|s.replies|] == s.replies;
    }
  }

  lemma DeliverJoin<T>(before: seq<T>, a: seq<Fifo.Call<T>>, ra: seq<Fifo.Reply<T>>,
                       b: seq<Fifo.Call<T>>, rb: seq<Fifo.Reply<T>>)
    requires |a| == |ra| && |b| == |rb|
    ensures before + Fifo.Delivered(a + b, ra + rb) == (before + Fifo.Delivered(a, ra)) + Fifo.Delivered(b, rb)
  {
    Fifo.DeliveredAppend(a, ra, b, rb);
    Fifo.Together(before, Fifo.Delivered(a, ra), Fifo.Delivered(b, rb));
  }

  lemma {:induction false} RunDelivers<T>(s: State<T>, actions: seq<Action<T>>, t: State<T>)
    requires Reaches(s, actions, t)
    ensures ValuesRead(t.replies) ==
      ValuesRead(s.replies) + Fifo.Delivered(CallsOf(s, actions, t), AnswersOf(s, actions, t))
    decreases |actions|
  {
    if actions == [] {
      assert ValuesRead(s.replies) + [] == ValuesRead(s.replies);
    } else {
      var a, rest := actions[0], actions[1..];
      OneDelivers(s, a);
      RunDelivers(Next(s, a), rest, t);
      DeliverJoin(ValuesRead(s.replies), CallOf(s, a), AnswerOf(s, a),
                  CallsOf(Next(s, a), rest, t), AnswersOf(Next(s, a), rest, t));
    }
  }

  lemma AtomicFromStart<T>(q: seq<T>, q': seq<T>, k: nat, zero: T,
                           calls: seq<Fifo.Call<T>>, answers: seq<Fifo.Reply<T>>)
    requires Atomic(q, q', k, zero, calls, answers) && q == []
    ensures Fifo.Run([], Pow2(k) - 1, zero, calls).1 == answers
  {
  }

  lemma FromNothing<T>(before: seq<T>, values: seq<T>)
    requires before == []
    ensures before + values == values
  {
  }

  /** LINEARISATION.  Whatever the interleaving, the two threads get the answers of a bounded FIFO that runs
      one atomic call for each of theirs, at a moment within it: every Write as it was made, and every Read,
      Peek and Skip as if it had asked for the count it got. */
  lemma Linearises<T>(s: State<T>, k: nat, actions: seq<Action<T>>, t: State<T>, zero: T)
    requires Init(s, k) && Reaches(s, actions, t)
    ensures var calls := CallsOf(s, actions, t);
      && Fifo.Run([], Pow2(k) - 1, zero, calls).1 == AnswersOf(s, actions, t)
      && ValuesRead(t.replies) == Fifo.Delivered(calls, AnswersOf(s, actions, t))
  {
    InitInv(s, k);
    RunIsAtomic(s, k, actions, t, zero);
    RunDelivers(s, actions, t);
    AtomicFromStart(Queue(s), Queue(t), k, zero, CallsOf(s, actions, t), AnswersOf(s, actions, t));
    FromNothing(ValuesRead(s.replies), Fifo.Delivered(CallsOf(s, actions, t), AnswersOf(s, actions, t)));
  }

  /** A Write that has settled on its length, and then a Read that has settled on its own. */
  function Settling<T>(s: State<T>, data: seq<T>): State<T>
    requires s.producer.PIdle? && s.readIndex < |s.buf| && s.writeIndex < |s.buf|
  {
    Next(Next(s, BeginWrite(data)), ProducerLoadRead)
  }

  function Overlap<T>(s: State<T>, data: seq<T>, frames: nat): State<T>
    requires s.producer.PIdle? && s.consumer.CIdle? && s.readIndex < |s.buf| && s.writeIndex < |s.buf|
  {
    Next(Next(Settling(s, data), BeginRead(Read, frames)), ConsumerLoadRead)
  }

  /** The counts the two calls have settled on. */
  function Counts<T>(s: State<T>): (nat, nat) {
    (if s.producer.PCopying? then s.producer.toWrite else 0, if s.consumer.CCopying? then s.consumer.toRead else 0)
  }

  /** The counts of the two calls made one after the other, in either order. */
  function WriteFirst(stored: nat, room: nat, data: nat, frames: nat): (nat, nat) {
    (Min(data, room), Min(frames, stored + Min(data, room)))
  }

  function ReadFirst(stored: nat, room: nat, data: nat, frames: nat): (nat, nat) {
    (Min(data, room + Min(frames, stored)), Min(frames, stored))
  }

  lemma SettlingCounts<T>(s: State<T>, k: nat, data: seq<T>)
    requires Counting(s, k) && s.producer.PIdle? && s.consumer.CIdle?
    ensures var s', n := Settling(s, data), Min(|data|, Pow2(k) - 1 - (|s.accepted| - s.taken));
      && Counting(s', k) && s'.accepted == s.accepted && s'.taken == s.taken && s'.consumer.CIdle?
      && if n == 0 then s'.producer == PIdle else s'.producer.PCopying? && s'.producer.toWrite == n
  {
    WriteSettles(Next(s, BeginWrite(data)), k);
  }

  lemma OverlapCounts<T>(s: State<T>, k: nat, data: seq<T>, frames: nat)
    requires Counting(s, k) && s.producer.PIdle? && s.consumer.CIdle?
    ensures var stored := |s.accepted| - s.taken;
      Counts(Overlap(s, data, frames)) == (Min(|data|, Pow2(k) - 1 - stored), Min(frames, stored))
  {
    SettlingCounts(s, k, data);
    ReadSettles(Settling(s, data), k, Read, frames);
  }

  lemma CountsIff(stored: nat, room: nat, data: nat, frames: nat)
    ensures var counts := (Min(data, room), Min(frames, stored));
      counts == WriteFirst(stored, room, data, frames) || counts == ReadFirst(stored, room, data, frames) <==>
      frames <= stored || data <= room || stored == 0 || room == 0
  {
  }

  /** WHY A READ IS TAKEN AT ITS COUNT.  The counts of an overlapping Write and Read are those of one atomic
      order exactly if one of the two could have been served in full, or the ring is empty or full. */
  lemma OverlapIsAtomicIff<T>(start: State<T>, k: nat, actions: seq<Action<T>>, s: State<T>, data: seq<T>, frames: nat)
    requires Init(start, k) && Reaches(start, actions, s) && s.producer.PIdle? && s.consumer.CIdle?
    ensures s.readIndex < |s.buf| && s.writeIndex < |s.buf| && s.taken <= |s.accepted| < s.taken + Pow2(k)
    ensures var stored := |s.accepted| - s.taken;
      var room := Pow2(k) - 1 - stored;
      var counts := Counts(Overlap(s, data, frames));
      counts == WriteFirst(stored, room, |data|, frames) || counts == ReadFirst(stored, room, |data|, frames) <==>
      frames <= stored || |data| <= room || stored == 0 || room == 0
  {
    ReachedCounts(start, k, actions, s);
    OverlapCounts(s, k, data, frames);
    var stored := |s.accepted| - s.taken;
    CountsIff(stored, Pow2(k) - 1 - stored, |data|, frames);
  }

  lemma {:induction false} OneMoreAction<T>(s: State<T>, actions: seq<Action<T>>, t: State<T>, a: Action<T>)
    returns (more: seq<Action<T>>, t': State<T>)
    requires Reaches(s, actions, t) && Enabled(t, a)
    ensures more == actions + [a] && t' == Next(t, a) && Reaches(s, more, t')
    decreases |actions|
  {
    more, t' := actions + [a], Next(t, a);
    if actions == [] {
      assert more[1..] == [];
    } else {
      var rest, _ := OneMoreAction(Next(s, actions[0]), actions[1..], t, a);
      assert more[0] == actions[0] && more[1..] == rest;
    }
  }

  /** A Write of two elements into an empty ring, up to its publication. */
  lemma TwoStored<T>(start: State<T>, k: nat, x: T, y: T) returns (actions: seq<Action<T>>, s: State<T>)
    requires Init(start, k) && k >= 2
    ensures Reaches(start, actions, s) && s.producer.PIdle? && s.consumer.CIdle?
    ensures |s.accepted| == 2 && s.taken == 0
  {
    assert Pow2(k) == 2 * (2 * Pow2(k - 2));
    InitInv(start, k);
    actions, s := OneMoreAction(start, [], start, BeginWrite([x, y]));
    WriteSettles(s, k);
    actions, s := OneMoreAction(start, actions, s, ProducerLoadRead);
    actions, s := OneMoreAction(start, actions, s, ProducerCopy(0));
    actions, s := OneMoreAction(start, actions, s, ProducerCopy(1));
    actions, s := OneMoreAction(start, actions, s, PublishWrite);
  }

  /** For instance: with two of the three usable places of a ring of four taken, a Write of two and a Read of
      three that overlap return 1 and 2; one after the other they return 1 and 3, or 2 and 2. */
  lemma OverlapMissesBothOrders<T>(start: State<T>, x: T, y: T) returns (actions: seq<Action<T>>, s: State<T>)
    requires Init(start, 2)
    ensures Reaches(start, actions, s) && s.producer.PIdle? && s.consumer.CIdle?
    ensures s.readIndex < |s.buf| && s.writeIndex < |s.buf|
    ensures Counts(Overlap(s, [x, y], 3)) == (1, 2)
    ensures WriteFirst(2, 1, 2, 3) == (1, 3) && ReadFirst(2, 1, 2, 3) == (2, 2)
  {
    actions, s := TwoStored(start, 2, x, y);
    ReachedCounts(start, 2, actions, s);
    OverlapCounts(s, 2, [x, y], 3);
    assert Pow2(2) == 2 * Pow2(1) == 4;
  }
}
