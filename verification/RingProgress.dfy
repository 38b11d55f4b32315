/** Progress of the ring's two threads: neither ever waits for the other. */
module RingProgress {
  import opened Words
  import opened RingIndex
  import opened RingProtocol

  /** The actions of the producer's thread; all others are the consumer's. */
  predicate Produces<T>(a: Action<T>) {
    a.BeginWrite? || a.ProducerLoadRead? || a.ProducerCopy? || a.PublishWrite?
  }

  /** An element that a copy still has to move. */
  lemma Remaining(n: nat, done: set<nat>) returns (i: nat)
    requires exists j: nat :: j < n && j !in done
    ensures i < n && i !in done
  {
    i :| i < n && i !in done;
  }

  /** NO BLOCKING.  Wherever the other thread is, a thread inside a call has a next step of its own. */
  lemma ProducerCanMove<T>(start: State<T>, k: nat, actions: seq<Action<T>>, s: State<T>) returns (a: Action<T>)
    requires Init(start, k) && Reaches(start, actions, s) && !s.producer.PIdle?
    ensures Enabled(s, a) && Produces(a) && !a.BeginWrite?
  {
    InitInv(start, k);
    RunInv(start, k, actions, s);
    match s.producer
    case PSeenWrite(_, _) => a := ProducerLoadRead;
    case PCopying(_, toWrite, _, done) =>
      if forall i :: 0 <= i < toWrite ==> i in done {
        a := PublishWrite;
      } else {
        var i := Remaining(toWrite, done);
        a := ProducerCopy(i);
      }
  }

  lemma ConsumerCanMove<T>(start: State<T>, k: nat, actions: seq<Action<T>>, s: State<T>) returns (a: Action<T>)
    requires Init(start, k) && Reaches(start, actions, s) && !s.consumer.CIdle?
    ensures Enabled(s, a) && !Produces(a) && !a.BeginRead?
  {
    InitInv(start, k);
    RunInv(start, k, actions, s);
    match s.consumer
    case CSeenWrite(_, _, _) => a := ConsumerLoadRead;
    case CCopying(kind, toRead, _, got) =>
      if kind == Skip || forall i :: 0 <= i < toRead ==> i in got {
        a := FinishRead;
      } else {
        var i := Remaining(toRead, got.Keys);
        a := ConsumerCopy(i);
      }
  }

  /** The numbers below n. */
  function Below(n: nat): (b: set<nat>)
    ensures |b| == n
    ensures forall i :: i in b <==> 0 <= i < n
  {
    if n == 0 then {} else Below(n - 1) + {n - 1}
  }

  lemma SubsetSize(a: set<nat>, b: set<nat>)
    requires a <= b
    ensures |a| <= |b|
  {
    assert b == a + (b - a);
  }

  /** How many steps of its own a thread still needs to finish its call, at most. */
  function ProducerWork<T>(p: Producer<T>): int {
    match p
    case PIdle => 0
    case PSeenWrite(data, _) => |data| + 2
    case PCopying(_, toWrite, _, done) => toWrite - |done| + 1
  }

  function ConsumerWork<T>(c: Consumer<T>): int {
    match c
    case CIdle => 0
    case CSeenWrite(_, frames, _) => frames + 2
    case CCopying(_, toRead, _, got) => toRead - |got| + 1
  }

  /** No copy of an element is made that the call does not need. */
  ghost predicate InBounds<T>(s: State<T>) {
    && (s.producer.PCopying? ==> forall i :: i in s.producer.done ==> i < s.producer.toWrite)
    && (s.consumer.CCopying? ==> forall i :: i in s.consumer.got ==> i < s.consumer.toRead)
  }

  lemma WorkIsLeft<T>(s: State<T>)
    requires InBounds(s)
    ensures if s.producer.PIdle? then ProducerWork(s.producer) == 0 else ProducerWork(s.producer) > 0
    ensures if s.consumer.CIdle? then ConsumerWork(s.consumer) == 0 else ConsumerWork(s.consumer) > 0
  {
    if s.producer.PCopying? {
      SubsetSize(s.producer.done, Below(s.producer.toWrite));
    }
    if s.consumer.CCopying? {
      SubsetSize(s.consumer.got.Keys, Below(s.consumer.toRead));
    }
  }

  lemma InvInBounds<T>(s: State<T>, k: nat)
    requires Inv(s, k)
    ensures InBounds(s)
  {
  }

  lemma ProducerStepWorks<T>(s: State<T>, a: Action<T>)
    requires Enabled(s, a) && Produces(a) && !a.BeginWrite? && InBounds(s)
    ensures ProducerWork(Next(s, a).producer) < ProducerWork(s.producer)
    ensures Next(s, a).consumer == s.consumer
  {
    WorkIsLeft(s);
  }

  lemma ConsumerStepWorks<T>(s: State<T>, a: Action<T>)
    requires Enabled(s, a) && !Produces(a) && !a.BeginRead? && InBounds(s)
    ensures ConsumerWork(Next(s, a).consumer) < ConsumerWork(s.consumer)
    ensures Next(s, a).producer == s.producer
  {
    WorkIsLeft(s);
    if a.ConsumerCopy? {
      var got := s.consumer.got;
      assert got[a.i := s.buf[ConsumerSlot(s, a.i)]].Keys == got.Keys + {a.i};
    }
  }

  lemma BeginsLeaveTheOther<T>(s: State<T>, a: Action<T>)
    requires Enabled(s, a) && (a.BeginWrite? || a.BeginRead?)
    ensures a.BeginWrite? ==> Next(s, a).consumer == s.consumer && ProducerWork(Next(s, a).producer) == |a.data| + 2
    ensures a.BeginRead? ==> Next(s, a).producer == s.producer && ConsumerWork(Next(s, a).consumer) == a.frames + 2
  {
  }

  /** The steps of one thread among some actions. */
  function StepsOf<T>(actions: seq<Action<T>>, producer: bool): nat {
    if actions == [] then 0
    else (if Produces(actions[0]) == producer then 1 else 0) + StepsOf(actions[1..], producer)
  }

  predicate NoNewCall<T>(actions: seq<Action<T>>, producer: bool) {
    forall i :: 0 <= i < |actions| ==> if producer then !actions[i].BeginWrite? else !actions[i].BeginRead?
  }

  function Work<T>(s: State<T>, producer: bool): int {
    if producer then ProducerWork(s.producer) else ConsumerWork(s.consumer)
  }

  lemma OneStep<T>(s: State<T>, a: Action<T>, producer: bool)
    requires Enabled(s, a) && InBounds(s) && (if producer then !a.BeginWrite? else !a.BeginRead?)
    ensures Work(Next(s, a), producer) + (if Produces(a) == producer then 1 else 0) <= Work(s, producer)
  {
    if a.BeginWrite? || a.BeginRead? {
      BeginsLeaveTheOther(s, a);
    } else if Produces(a) {
      ProducerStepWorks(s, a);
    } else {
      ConsumerStepWorks(s, a);
    }
  }

  lemma {:induction false} StepsAreBounded<T>(s: State<T>, k: nat, actions: seq<Action<T>>, t: State<T>, producer: bool)
    requires Inv(s, k) && Reaches(s, actions, t) && NoNewCall(actions, producer)
    ensures StepsOf(actions, producer) + Work(t, producer) <= Work(s, producer)
    ensures Work(t, producer) >= 0
    decreases |actions|
  {
    InvInBounds(s, k);
    WorkIsLeft(s);
    if actions != [] {
      var a, rest := actions[0], actions[1..];
      NextInv(s, k, a);
      OneStep(s, a, producer);
      assert forall i :: 0 <= i < |rest| ==> rest[i] == actions[i + 1];
      StepsAreBounded(Next(s, a), k, rest, t, producer);
    }
  }

  /** WAIT-FREEDOM.  From any reachable state on, however often the other thread moves and whatever it does, a
      Write takes at most two steps more than it has elements, and a Read, Peek or Skip at most two more than
      it was asked for; with NO BLOCKING above, it therefore returns. */
  lemma CallsAreShort<T>(start: State<T>, k: nat, before: seq<Action<T>>, s: State<T>, call: Action<T>,
                         actions: seq<Action<T>>, t: State<T>)
    requires Init(start, k) && Reaches(start, before, s)
    requires (call.BeginWrite? || call.BeginRead?) && Enabled(s, call)
    requires Reaches(Next(s, call), actions, t) && NoNewCall(actions, call.BeginWrite?)
    ensures StepsOf(actions, call.BeginWrite?) <= (if call.BeginWrite? then |call.data| else call.frames) + 2
  {
    InitInv(start, k);
    RunInv(start, k, before, s);
    NextInv(s, k, call);
    BeginsLeaveTheOther(s, call);
    StepsAreBounded(Next(s, call), k, actions, t, call.BeginWrite?);
  }
}
