/** A bounded FIFO as a value: what a ring promises to its users, without indices or wrapping. */
module Fifo {
  import opened Words

  /** The calls a user can make, with their arguments. */
  datatype Call<T> =
    | Write(data: seq<T>)
    | WriteSilence(frames: nat)
    | Read(frames: nat)
    | Peek(frames: nat)
    | Skip(frames: nat)
    | Reset

  datatype Reply<T> = Reply(count: nat, values: seq<T>)

  function Repeat<T>(x: T, n: nat): seq<T> {
    seq(n, _ => x)
  }

  /** Queue contents and reply after one call, for a queue that holds at most `limit` elements. */
  function Step<T>(q: seq<T>, limit: nat, zero: T, call: Call<T>): (r: (seq<T>, Reply<T>))
    requires |q| <= limit
    ensures |r.0| <= limit
  {
    match call
    case Write(data) =>
      var n := Min(|data|, limit - |q|);
      (q + data[..n], Reply(n, []))
    case WriteSilence(frames) =>
      var n := Min(frames, limit - |q|);
      (q + Repeat(zero, n), Reply(n, []))
    case Read(frames) =>
      var n := Min(frames, |q|);
      (q[n..], Reply(n, q[..n]))
    case Peek(frames) =>
      var n := Min(frames, |q|);
      (q, Reply(n, q[..n]))
    case Skip(frames) =>
      var n := Min(frames, |q|);
      (q[n..], Reply(n, []))
    case Reset =>
      ([], Reply(0, []))
  }

  /** Read hands out the oldest elements and leaves the rest, and gives less than it is asked for only by
      emptying the queue; Peek shows what Read would hand out, and Skip drops it. */
  lemma ReadIsTight<T>(q: seq<T>, limit: nat, zero: T, frames: nat)
    requires |q| <= limit
    ensures var (rest, reply) := Step(q, limit, zero, Read(frames));
      && reply.values + rest == q && |reply.values| == reply.count <= frames
      && (reply.count == frames || rest == [])
      && Step(q, limit, zero, Peek(frames)) == (q, reply)
      && Step(q, limit, zero, Skip(frames)) == (rest, Reply(reply.count, []))
  {
  }

  /** Write appends the beginning of its data, and takes less than all only by filling the queue; silence is
      written like so many zero elements. */
  lemma WriteIsTight<T>(q: seq<T>, limit: nat, zero: T, data: seq<T>, frames: nat)
    requires |q| <= limit
    ensures var (after, reply) := Step(q, limit, zero, Write(data));
      && reply.count <= |data| && reply.values == [] && after == q + data[..reply.count]
      && (reply.count == |data| || |after| == limit)
    ensures Step(q, limit, zero, WriteSilence(frames)) ==
      Step(q, limit, zero, Write(seq(frames, _ => zero)))
  {
    var n := Min(frames, limit - |q|);
    assert Repeat(zero, n) == seq(frames, _ => zero)[..n];
  }

  /** Queue contents and all replies after a script of calls. */
  function Run<T>(q: seq<T>, limit: nat, zero: T, calls: seq<Call<T>>): (r: (seq<T>, seq<Reply<T>>))
    requires |q| <= limit
    ensures |r.0| <= limit && |r.1| == |calls|
    decreases |calls|
  {
    if calls == [] then (q, [])
    else
      var before := Run(q, limit, zero, calls[..|calls| - 1]);
      var last := Step(before.0, limit, zero, calls[|calls| - 1]);
      (last.0, before.1 + [last.1])
  }

  /** The elements a call stored, judging by its arguments and its reply. */
  function In<T>(call: Call<T>, reply: Reply<T>, zero: T): seq<T> {
    match call
    case Write(data) => data[..Min(reply.count, |data|)]
    case WriteSilence(_) => Repeat(zero, reply.count)
    case _ => []
  }

  /** The elements a call handed out and removed. */
  function Out<T>(call: Call<T>, reply: Reply<T>): seq<T> {
    if call.Read? then reply.values else []
  }

  function Accepted<T>(calls: seq<Call<T>>, replies: seq<Reply<T>>, zero: T): seq<T>
    requires |calls| == |replies|
    decreases |calls|
  {
    if calls == [] then []
    else
      var k := |calls| - 1;
      Accepted(calls[..k], replies[..k], zero) + In(calls[k], replies[k], zero)
  }

  function Delivered<T>(calls: seq<Call<T>>, replies: seq<Reply<T>>): seq<T>
    requires |calls| == |replies|
    decreases |calls|
  {
    if calls == [] then []
    else
      var k := |calls| - 1;
      Delivered(calls[..k], replies[..k]) + Out(calls[k], replies[k])
  }

  ghost predicate NoDiscard<T>(calls: seq<Call<T>>) {
    forall i :: 0 <= i < |calls| ==> !calls[i].Skip? && !calls[i].Reset?
  }

  lemma StepConserves<T>(q: seq<T>, limit: nat, zero: T, call: Call<T>)
    requires |q| <= limit && !call.Skip? && !call.Reset?
    ensures var r := Step(q, limit, zero, call);
      q + In(call, r.1, zero) == Out(call, r.1) + r.0
  {
  }

  lemma Regroup<T>(q: seq<T>, a: seq<T>, i: seq<T>, d: seq<T>, o: seq<T>, mid: seq<T>, end: seq<T>)
    requires q + a == d + mid && mid + i == o + end
    ensures q + (a + i) == (d + o) + end
  {
    assert q + (a + i) == (q + a) + i;
    assert (d + mid) + i == d + (mid + i);
    assert d + (o + end) == (d + o) + end;
  }

  /** Nothing is lost, repeated, invented or reordered: over any script without Skip and Reset, what
      was stored at the start followed by what was accepted is what was delivered followed by what is
      still stored. */
  lemma {:induction false} Conservation<T>(q: seq<T>, limit: nat, zero: T, calls: seq<Call<T>>)
    requires |q| <= limit && NoDiscard(calls)
    ensures
      var r := Run(q, limit, zero, calls);
      q + Accepted(calls, r.1, zero) == Delivered(calls, r.1) + r.0
    decreases |calls|
  {
    if calls == [] {
    } else {
      var k := |calls| - 1;
      Conservation(q, limit, zero, calls[..k]);
      var before := Run(q, limit, zero, calls[..k]);
      var r := Run(q, limit, zero, calls);
      assert r.1[..k] == before.1;
      StepConserves(before.0, limit, zero, calls[k]);
      Regroup(q, Accepted(calls[..k], before.1, zero), In(calls[k], r.1[k], zero),
              Delivered(calls[..k], before.1), Out(calls[k], r.1[k]), before.0, r.0);
    }
  }

  lemma LastApart<X>(a: seq<X>, b: seq<X>)
    requires b != []
    ensures b == b[..|b| - 1] + [b[|b| - 1]] && a + b == (a + b[..|b| - 1]) + [b[|b| - 1]]
  {
  }

  lemma Together<X>(a: seq<X>, b: seq<X>, c: seq<X>)
    ensures (a + b) + c == a + (b + c)
  {
  }

  /** A script with one more call. */
  lemma RunMore<T>(q: seq<T>, limit: nat, zero: T, calls: seq<Call<T>>, call: Call<T>)
    requires |q| <= limit
    ensures
      var before := Run(q, limit, zero, calls);
      var last := Step(before.0, limit, zero, call);
      Run(q, limit, zero, calls + [call]) == (last.0, before.1 + [last.1])
  {
    var all := calls + [call];
    assert all[..|calls|] == calls && all[|calls|] == call;
  }

  lemma RunOne<T>(q: seq<T>, limit: nat, zero: T, call: Call<T>)
    requires |q| <= limit
    ensures Run(q, limit, zero, [call]) == (Step(q, limit, zero, call).0, [Step(q, limit, zero, call).1])
  {
    var before := Run(q, limit, zero, []);
    var last := Step(before.0, limit, zero, call);
    RunMore(q, limit, zero, [], call);
    assert [] + [call] == [call];
    assert before.1 + [last.1] == [last.1];
  }

  /** A script in two parts. */
  lemma {:induction false} RunAppend<T>(q: seq<T>, limit: nat, zero: T, a: seq<Call<T>>, b: seq<Call<T>>)
    requires |q| <= limit
    ensures
      var first := Run(q, limit, zero, a);
      var second := Run(first.0, limit, zero, b);
      Run(q, limit, zero, a + b) == (second.0, first.1 + second.1)
    decreases |b|
  {
    var first := Run(q, limit, zero, a);
    if b == [] {
      assert a + b == a && first.1 + [] == first.1;
    } else {
      var n := |b| - 1;
      RunAppend(q, limit, zero, a, b[..n]);
      LastApart(a, b);
      RunMore(first.0, limit, zero, b[..n], b[n]);
      RunMore(q, limit, zero, a + b[..n], b[n]);
      var before := Run(first.0, limit, zero, b[..n]);
      Together(first.1, before.1, [Step(before.0, limit, zero, b[n]).1]);
    }
  }

  lemma DeliveredMore<T>(calls: seq<Call<T>>, replies: seq<Reply<T>>, call: Call<T>, reply: Reply<T>)
    requires |calls| == |replies|
    ensures Delivered(calls + [call], replies + [reply]) == Delivered(calls, replies) + Out(call, reply)
  {
    assert (calls + [call])[..|calls|] == calls && (replies + [reply])[..|calls|] == replies;
  }

  lemma {:induction false} DeliveredAppend<T>(a: seq<Call<T>>, ra: seq<Reply<T>>, b: seq<Call<T>>, rb: seq<Reply<T>>)
    requires |a| == |ra| && |b| == |rb|
    ensures Delivered(a + b, ra + rb) == Delivered(a, ra) + Delivered(b, rb)
    decreases |b|
  {
    if b == [] {
      assert a + b == a && ra + rb == ra;
    } else {
      var n := |b| - 1;
      DeliveredAppend(a, ra, b[..n], rb[..n]);
      LastApart(a, b);
      LastApart(ra, rb);
      DeliveredMore(a + b[..n], ra + rb[..n], b[n], rb[n]);
      Together(Delivered(a, ra), Delivered(b[..n], rb[..n]), Out(b[n], rb[n]));
    }
  }
}

/** The single-producer single-consumer ring as one thread at a time sees it: an array and two
    wrapped indices that implement Fifo. */
module RingBuffer {
  import opened Words
  import opened RingIndex
  import Fifo

  /** The n elements that start at index r, across the wrap point. */
  function Window<T>(b: seq<T>, r: nat, n: nat): (s: seq<T>)
    requires r < |b| && n <= |b|
    ensures |s| == n
  {
    seq(n, i requires 0 <= i < n => b[Slot(r, i, |b|)])
  }

  /** std::memcpy between two arrays. */
  method CopyInto<T>(src: array<T>, from: nat, dst: array<T>, to: nat, n: nat)
    requires src != dst
    requires from + n <= src.Length && to + n <= dst.Length
    modifies dst
    ensures forall j :: 0 <= j < dst.Length ==>
      dst[j] == if to <= j < to + n then src[from + j - to] else old(dst[j])
  {
    for i := 0 to n
      invariant forall j :: 0 <= j < dst.Length ==>
        dst[j] == if to <= j < to + i then src[from + j - to] else old(dst[j])
    {
      dst[to + i] := src[from + i];
    }
  }

  /** std::memset of whole elements. */
  method Fill<T>(dst: array<T>, to: nat, n: nat, x: T)
    requires to + n <= dst.Length
    modifies dst
    ensures forall j :: 0 <= j < dst.Length ==> dst[j] == if to <= j < to + n then x else old(dst[j])
  {
    for i := 0 to n
      invariant forall j :: 0 <= j < dst.Length ==> dst[j] == if to <= j < to + i then x else old(dst[j])
    {
      dst[to + i] := x;
    }
  }

  /** Two chunk copies touch exactly the slots of the new elements. */
  lemma StoredAround<T>(was: seq<T>, now: seq<T>, w: nat, added: seq<T>)
    requires |was| == |now| && w < |was| && |added| < |was|
    requires forall j :: 0 <= j < |was| ==>
      now[j] == if w <= j < w + |added| then added[j - w]
                else if j < w + |added| - |was| then added[j + |was| - w]
                else was[j]
    ensures forall i :: 0 <= i < |added| ==> now[Slot(w, i, |was|)] == added[i]
    ensures forall i :: |added| <= i < |was| ==> now[Slot(w, i, |was|)] == was[Slot(w, i, |was|)]
  {
  }

  lemma WindowGrows<T>(was: seq<T>, now: seq<T>, r: nat, w: nat, d: nat, added: seq<T>)
    requires |was| == |now| && r < |was| && w < |was| && d + |added| < |was|
    requires w == Slot(r, d, |was|)
    requires forall i :: 0 <= i < |added| ==> now[Slot(w, i, |was|)] == added[i]
    requires forall i :: |added| <= i < |was| ==> now[Slot(w, i, |was|)] == was[Slot(w, i, |was|)]
    ensures Window(now, r, d + |added|) == Window(was, r, d) + added
  {
    var cap := |was|;
    forall i | 0 <= i < d
      ensures now[Slot(r, i, cap)] == was[Slot(r, i, cap)]
    {
      assert Slot(r, i, cap) == Slot(w, cap - d + i, cap);
    }
    forall i | d <= i < d + |added|
      ensures now[Slot(r, i, cap)] == added[i - d]
    {
      assert Slot(r, i, cap) == Slot(w, i - d, cap);
    }
  }

  /** Storing new elements behind the old ones and moving the write index appends them. */
  lemma Appended<T>(was: seq<T>, now: seq<T>, k: nat, r: nat, w: nat, added: seq<T>)
    requires k <= 63 && |was| == |now| == Pow2(k) && r < Pow2(k) && w < Pow2(k)
    requires Distance(w, r, Pow2(k) - 1) + |added| <= Pow2(k) - 1
    requires forall i :: 0 <= i < |added| ==> now[Slot(w, i, Pow2(k))] == added[i]
    requires forall i :: |added| <= i < Pow2(k) ==> now[Slot(w, i, Pow2(k))] == was[Slot(w, i, Pow2(k))]
    ensures var w' := BitAnd((w + |added|) % TWO64, Pow2(k) - 1);
      && w' < Pow2(k)
      && Distance(w', r, Pow2(k) - 1) == Distance(w, r, Pow2(k) - 1) + |added|
      && Window(now, r, Distance(w', r, Pow2(k) - 1)) == Window(was, r, Distance(w, r, Pow2(k) - 1)) + added
  {
    var cap := Pow2(k);
    var w' := Slot(w, |added|, cap);
    DistanceIs(w, r, k);
    AdvanceIs(w, |added|, k);
    DistanceIs(w', r, k);
    WindowGrows(was, now, r, w, Distance(w, r, cap - 1), added);
  }

  /** Moving the read index forward by n drops the first n elements. */
  lemma Dropped<T>(b: seq<T>, k: nat, r: nat, w: nat, n: nat)
    requires k <= 63 && |b| == Pow2(k) && r < Pow2(k) && w < Pow2(k)
    requires n <= Distance(w, r, Pow2(k) - 1)
    ensures var r' := BitAnd((r + n) % TWO64, Pow2(k) - 1);
      && r' < Pow2(k)
      && Distance(w, r, Pow2(k) - 1) < Pow2(k)
      && Distance(w, r', Pow2(k) - 1) == Distance(w, r, Pow2(k) - 1) - n
      && Window(b, r', Distance(w, r', Pow2(k) - 1)) == Window(b, r, Distance(w, r, Pow2(k) - 1))[n..]
  {
    var cap := Pow2(k);
    DistanceIs(w, r, k);
    var r' := Slot(r, n, cap);
    AdvanceIs(r, n, k);
    DistanceIs(w, r', k);
    forall i | 0 <= i < Distance(w, r', cap - 1)
      ensures Slot(r', i, cap) == Slot(r, n + i, cap)
    {
    }
  }

  lemma NothingStored<T>(b: seq<T>, k: nat)
    requires k <= 63 && |b| == Pow2(k)
    ensures Distance(0, 0, Pow2(k) - 1) == 0 && Window(b, 0, 0) == []
  {
    DistanceIs(0, 0, k);
  }

  class RingBuffer<T(0)> {
    const capacity: nat
    const mask: nat
    const buffer: array<T>
    const zero: T  // the element whose bytes are all 0
    ghost const log: nat
    var readIndex: nat
    var writeIndex: nat

    ghost predicate Valid()
      reads this
    {
      && log <= 63
      && capacity == Pow2(log) == buffer.Length
      && mask == capacity - 1
      && readIndex < capacity
      && writeIndex < capacity
    }

    ghost function Contents(): (q: seq<T>)
      requires Valid()
      reads this, buffer
      ensures |q| <= capacity - 1
    {
      DistanceIs(writeIndex, readIndex, log);
      Window(buffer[..], readIndex, Distance(writeIndex, readIndex, mask))
    }

    /** For a request above 2^63 the capacity wraps to 0: a ring that is not usable. */
    constructor (size: U64, zero: T)
      ensures fresh(buffer) && this.zero == zero
      ensures Valid() <==> size <= Pow2(63)
      ensures size <= Pow2(63) ==> IsLeastPowerOfTwo(size, capacity, log) && Contents() == []
      ensures size > Pow2(63) ==> capacity == 0 == buffer.Length && mask == TWO64 - 1
    {
      ghost var k;
      var c;
      c, k := NextPowerOfTwo(size);
      capacity := c;
      mask := (c - 1) % TWO64;
      log := k;
      var b := new T[c](_ => zero);
      buffer := b;
      this.zero := zero;
      readIndex := 0;
      writeIndex := 0;
      new;
      if size <= Pow2(63) {
        DivModUnique(capacity - 1, TWO64, 0, capacity - 1);
        NothingStored(buffer[..], k);
      }
    }

    method ReadAvailable() returns (n: nat)
      requires Valid()
      ensures n == |Contents()|
    {
      n := Distance(writeIndex, readIndex, mask);
    }

    method WriteAvailable() returns (n: nat)
      requires Valid()
      ensures n + |Contents()| == capacity - 1
    {
      DistanceIs(writeIndex, readIndex, log);
      n := capacity - 1 - Distance(writeIndex, readIndex, mask);
    }

    /** The copying part of Write. */
    method CopyIn(data: array<T>, n: nat)
      requires Valid() && data != buffer && n < capacity && n <= data.Length
      modifies buffer
      ensures forall i :: 0 <= i < n ==> buffer[..][Slot(writeIndex, i, capacity)] == data[i]
      ensures forall i :: n <= i < capacity ==>
        buffer[..][Slot(writeIndex, i, capacity)] == old(buffer[..])[Slot(writeIndex, i, capacity)]
    {
      var firstChunk := Min(n, capacity - writeIndex);
      var secondChunk := n - firstChunk;
      CopyInto(data, 0, buffer, writeIndex, firstChunk);
      if secondChunk > 0 {
        CopyInto(data, firstChunk, buffer, 0, secondChunk);
      }
      StoredAround(old(buffer[..]), buffer[..], writeIndex, data[..n]);
    }

    method Write(data: array<T>, frames: nat) returns (written: nat)
      requires Valid() && data != buffer && frames <= data.Length
      modifies this`writeIndex, buffer
      ensures Valid()
      ensures (Contents(), Fifo.Reply(written, [])) ==
        Fifo.Step(old(Contents()), capacity - 1, zero, Fifo.Write(old(data[..frames])))
    {
      var available := WriteAvailable();
      var toWrite := Min(frames, available);
      if toWrite == 0 {
        assert Contents() == old(Contents()) + data[..frames][..0];
        return 0;
      }
      var writeIdx := writeIndex;
      CopyIn(data, toWrite);
      writeIndex := BitAnd((writeIdx + toWrite) % TWO64, mask);
      written := toWrite;
      ghost var added := data[..toWrite];
      assert added == data[..frames][..toWrite];
      Appended(old(buffer[..]), buffer[..], log, readIndex, writeIdx, added);
    }

    /** The filling part of WriteSilence. */
    method FillIn(n: nat)
      requires Valid() && n < capacity
      modifies buffer
      ensures forall i :: 0 <= i < n ==> buffer[..][Slot(writeIndex, i, capacity)] == zero
      ensures forall i :: n <= i < capacity ==>
        buffer[..][Slot(writeIndex, i, capacity)] == old(buffer[..])[Slot(writeIndex, i, capacity)]
    {
      var firstChunk := Min(n, capacity - writeIndex);
      var secondChunk := n - firstChunk;
      Fill(buffer, writeIndex, firstChunk, zero);
      if secondChunk > 0 {
        Fill(buffer, 0, secondChunk, zero);
      }
      StoredAround(old(buffer[..]), buffer[..], writeIndex, Fifo.Repeat(zero, n));
    }

    method WriteSilence(frames: nat) returns (written: nat)
      requires Valid()
      modifies this`writeIndex, buffer
      ensures Valid()
      ensures (Contents(), Fifo.Reply(written, [])) ==
        Fifo.Step(old(Contents()), capacity - 1, zero, Fifo.WriteSilence(frames))
    {
      var available := WriteAvailable();
      var toWrite := Min(frames, available);
      if toWrite == 0 {
        assert Contents() == old(Contents()) + Fifo.Repeat(zero, 0);
        return 0;
      }
      var writeIdx := writeIndex;
      FillIn(toWrite);
      writeIndex := BitAnd((writeIdx + toWrite) % TWO64, mask);
      written := toWrite;
      Appended(old(buffer[..]), buffer[..], log, readIndex, writeIdx, Fifo.Repeat(zero, toWrite));
    }

    /** The copying part that Read and Peek share. */
    method CopyOut(data: array<T>, readIdx: nat, n: nat)
      requires Valid() && data != buffer && readIdx == readIndex
      requires n <= |Contents()| && n <= data.Length
      modifies data
      ensures data[..n] == Contents()[..n] && data[n..] == old(data[n..])
    {
      var firstChunk := Min(n, capacity - readIdx);
      var secondChunk := n - firstChunk;
      CopyInto(buffer, readIdx, data, 0, firstChunk);
      if secondChunk > 0 {
        CopyInto(buffer, 0, data, firstChunk, secondChunk);
      }
    }

    method Read(data: array<T>, frames: nat) returns (count: nat)
      requires Valid() && data != buffer && frames <= data.Length
      modifies this`readIndex, data
      ensures Valid() && count <= frames
      ensures (Contents(), Fifo.Reply(count, data[..count])) ==
        Fifo.Step(old(Contents()), capacity - 1, zero, Fifo.Read(frames))
      ensures data[count..] == old(data[count..])
    {
      var available := ReadAvailable();
      var toRead := Min(frames, available);
      if toRead == 0 {
        return 0;
      }
      var readIdx := readIndex;
      CopyOut(data, readIdx, toRead);
      readIndex := BitAnd((readIdx + toRead) % TWO64, mask);
      Dropped(buffer[..], log, readIdx, writeIndex, toRead);
      count := toRead;
    }

    method Peek(data: array<T>, frames: nat) returns (count: nat)
      requires Valid() && data != buffer && frames <= data.Length
      modifies data
      ensures Valid() && count <= frames
      ensures (Contents(), Fifo.Reply(count, data[..count])) ==
        Fifo.Step(old(Contents()), capacity - 1, zero, Fifo.Peek(frames))
      ensures data[count..] == old(data[count..])
    {
      var available := ReadAvailable();
      var toPeek := Min(frames, available);
      if toPeek == 0 {
        return 0;
      }
      CopyOut(data, readIndex, toPeek);
      count := toPeek;
    }

    method Skip(frames: nat) returns (count: nat)
      requires Valid()
      modifies this`readIndex
      ensures Valid()
      ensures (Contents(), Fifo.Reply(count, [])) ==
        Fifo.Step(old(Contents()), capacity - 1, zero, Fifo.Skip(frames))
    {
      var available := ReadAvailable();
      var toSkip := Min(frames, available);
      if toSkip == 0 {
        return 0;
      }
      var readIdx := readIndex;
      readIndex := BitAnd((readIdx + toSkip) % TWO64, mask);
      Dropped(buffer[..], log, readIdx, writeIndex, toSkip);
      count := toSkip;
    }

    method Reset()
      requires Valid()
      modifies this, buffer
      ensures Valid() && Contents() == []
      ensures forall i :: 0 <= i < capacity ==> buffer[i] == zero
    {
      readIndex := 0;
      writeIndex := 0;
      Fill(buffer, 0, capacity, zero);
      NothingStored(buffer[..], log);
    }
  }

  method DriveOne<T(0)>(ring: RingBuffer<T>, call: Fifo.Call<T>) returns (reply: Fifo.Reply<T>)
    requires ring.Valid()
    modifies ring, ring.buffer
    ensures ring.Valid()
    ensures (ring.Contents(), reply) == Fifo.Step(old(ring.Contents()), ring.capacity - 1, ring.zero, call)
  {
    var count := 0;
    match call
    case Write(data) =>
      var d := new T[|data|](i requires 0 <= i < |data| => data[i]);
      assert d[..|data|] == data;
      count := ring.Write(d, |data|);
      reply := Fifo.Reply(count, []);
    case WriteSilence(frames) =>
      count := ring.WriteSilence(frames);
      reply := Fifo.Reply(count, []);
    case Read(frames) =>
      var d := new T[frames];
      count := ring.Read(d, frames);
      reply := Fifo.Reply(count, d[..count]);
    case Peek(frames) =>
      var d := new T[frames];
      count := ring.Peek(d, frames);
      reply := Fifo.Reply(count, d[..count]);
    case Skip(frames) =>
      count := ring.Skip(frames);
      reply := Fifo.Reply(count, []);
    case Reset =>
      ring.Reset();
      reply := Fifo.Reply(0, []);
  }

  /** Any script of calls on a real ring gets exactly the replies of the bounded FIFO. */
  method Drive<T(0)>(ring: RingBuffer<T>, calls: seq<Fifo.Call<T>>) returns (replies: seq<Fifo.Reply<T>>)
    requires ring.Valid()
    modifies ring, ring.buffer
    ensures ring.Valid()
    ensures (ring.Contents(), replies) ==
      Fifo.Run(old(ring.Contents()), ring.capacity - 1, ring.zero, calls)
  {
    replies := [];
    for i := 0 to |calls|
      invariant ring.Valid()
      invariant (ring.Contents(), replies) ==
        Fifo.Run(old(ring.Contents()), ring.capacity - 1, ring.zero, calls[..i])
    {
      assert calls[..i + 1][..i] == calls[..i];
      var reply := DriveOne(ring, calls[i]);
      replies := replies + [reply];
    }
    assert calls[..|calls|] == calls;
  }
}
