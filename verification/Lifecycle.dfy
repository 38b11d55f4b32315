/** Starting and stopping: the device over the network engine over the PTP master. */
module Lifecycle {
  import opened Words

  /** How far the PTP master gets when it is started. */
  datatype Outcome = Succeeds | NoInterface | NoEventSocket | NoGeneralSocket | EventBindFails | GeneralBindFails

  datatype Status = NoError | UnspecifiedError

  // ---------------------------------------------------------------------------------------------
  // The three objects
  // ---------------------------------------------------------------------------------------------

  class PTPClient {
    var running: bool
    var masterRunning: bool
    var locked: bool
    var eventSocketOpen: bool
    var generalSocketOpen: bool
    var callbackSet: bool

    /** Everything is on, or everything is off and closed. */
    ghost predicate Consistent()
      reads this
    {
      running == masterRunning == locked == eventSocketOpen == generalSocketOpen
    }

    constructor ()
      ensures Consistent() && !masterRunning && !callbackSet
    {
      running, masterRunning, locked := false, false, false;
      eventSocketOpen, generalSocketOpen, callbackSet := false, false, false;
    }

    method SetStatusCallback()
      modifies `callbackSet
      ensures callbackSet
    {
      callbackSet := true;
    }

    method CloseSockets()
      modifies `eventSocketOpen, `generalSocketOpen
      ensures !eventSocketOpen && !generalSocketOpen
    {
      eventSocketOpen, generalSocketOpen := false, false;
    }

    /** `notified` says that the status callback was called, with `locked` true. */
    method StartMaster(outcome: Outcome) returns (ok: bool, notified: bool)
      requires Consistent()
      modifies this
      ensures Consistent() && callbackSet == old(callbackSet)
      ensures ok == masterRunning == (old(masterRunning) || outcome == Succeeds)
      ensures notified == (ok && !old(masterRunning) && callbackSet)
    {
      if masterRunning {
        return true, false;
      }
      if outcome == NoInterface {
        return false, false;
      }
      eventSocketOpen := outcome != NoEventSocket;
      if !eventSocketOpen {
        return false, false;
      }
      generalSocketOpen := outcome != NoGeneralSocket;
      if !generalSocketOpen {
        CloseSockets();
        return false, false;
      }
      if outcome == EventBindFails {
        CloseSockets();
        return false, false;
      }
      if outcome == GeneralBindFails {
        CloseSockets();
        return false, false;
      }
      running, masterRunning, locked := true, true, true;
      return true, callbackSet;
    }

    method Stop()
      requires Consistent()
      modifies this
      ensures Consistent() && !masterRunning && callbackSet == old(callbackSet)
    {
      if !masterRunning {
        return;
      }
      masterRunning, running := false, false;
      CloseSockets();
      locked := false;
    }
  }

  class NetworkEngine {
    var running: bool
    const ptp: PTPClient

    ghost predicate Consistent()
      reads this, ptp
    {
      ptp.Consistent() && running == ptp.masterRunning
    }

    constructor ()
      ensures Consistent() && !running && fresh(ptp) && !ptp.callbackSet
    {
      running := false;
      ptp := new PTPClient();
    }

    method SetCallbacks()
      requires Consistent()
      modifies ptp
      ensures Consistent() && ptp.callbackSet && ptp.masterRunning == old(ptp.masterRunning)
    {
      ptp.SetStatusCallback();
    }

    method Start(outcome: Outcome) returns (ok: bool, notified: bool)
      requires Consistent()
      modifies this, ptp
      ensures Consistent() && ptp.callbackSet == old(ptp.callbackSet)
      ensures ok == running == (old(running) || outcome == Succeeds)
      ensures notified == (ok && !old(running) && ptp.callbackSet)
    {
      if running {
        return true, false;
      }
      ok, notified := ptp.StartMaster(outcome);
      if !ok {
        return;
      }
      running := true;
    }

    method Stop()
      requires Consistent()
      modifies this, ptp
      ensures Consistent() && !running && ptp.callbackSet == old(ptp.callbackSet)
    {
      if !running {
        return;
      }
      running := false;
      ptp.Stop();
    }
  }

  // ---------------------------------------------------------------------------------------------
  // The device as a value
  // ---------------------------------------------------------------------------------------------

  /** std::vector::erase of the first element found. */
  function Erase(clients: seq<U32>, id: U32): seq<U32> {
    if clients == [] then []
    else if clients[0] == id then clients[1..]
    else [clients[0]] + Erase(clients[1..], id)
  }

  lemma {:induction false} EraseAt(clients: seq<U32>, id: U32, it: nat)
    requires it <= |clients| && id !in clients[..it] && (it < |clients| ==> clients[it] == id)
    ensures Erase(clients, id) == if it < |clients| then clients[..it] + clients[it + 1..] else clients
    decreases it
  {
    if it > 0 {
      var rest := clients[1..];
      assert clients == [clients[0]] + rest && clients[..it] == [clients[0]] + rest[..it - 1];
      EraseAt(rest, id, it - 1);
    }
  }

  ghost predicate Distinct(c: seq<U32>) {
    forall i, j :: 0 <= i < j < |c| ==> c[i] != c[j]
  }

  lemma {:induction false} EraseKeepsDistinct(c: seq<U32>, id: U32)
    requires Distinct(c)
    ensures Distinct(Erase(c, id))
    ensures forall x :: x in Erase(c, id) <==> x in c && x != id
  {
    if c != [] {
      var rest := c[1..];
      assert c == [c[0]] + rest && Distinct(rest);
      assert c[0] !in rest;
      EraseKeepsDistinct(rest, id);
      var e := Erase(c, id);
      if c[0] != id {
        forall i, j | 0 <= i < j < |e|
          ensures e[i] != e[j]
        {
          if i == 0 {
            assert e[j] in Erase(rest, id);
          }
        }
      }
    }
  }

  /** The device's own view, and whether its engine knows it. */
  datatype DeviceState = DeviceState(clients: seq<U32>, isRunning: bool, seed: U64, ptpLocked: bool, callbacks: bool)

  const NEW := DeviceState([], false, 1, false, false)
  const READY := NEW.(callbacks := true)

  datatype Call = IOStart(id: U32, outcome: Outcome) | IOStop(id: U32)

  /** A start that turns the engine on moves the timestamp seed in the lock callback, if there is one, and
      again afterwards. */
  function Step(d: DeviceState, call: Call): (DeviceState, Status) {
    match call
    case IOStart(id, outcome) =>
      if id in d.clients then (d, NoError)
      else if d.isRunning then (d.(clients := d.clients + [id]), NoError)
      else if outcome != Succeeds then (d, UnspecifiedError)
      else
        (DeviceState(d.clients + [id], true, (d.seed + (if d.callbacks then 2 else 1)) % TWO64,
                     d.callbacks || d.ptpLocked, d.callbacks), NoError)
    case IOStop(id) =>
      var clients := Erase(d.clients, id);
      (d.(clients := clients, isRunning := d.isRunning && clients != []), NoError)
  }

  /** A new engine, which does not know the device; the list of clients is kept. */
  function Torn(d: DeviceState): DeviceState {
    d.(isRunning := false, callbacks := false)
  }

  /** Running exactly while some client is active, and no client twice. */
  ghost predicate Sound(d: DeviceState) {
    && d.isRunning == (d.clients != [])
    && Distinct(d.clients)
  }

  /** The device after the first n calls. */
  function RunFrom(d: DeviceState, calls: seq<Call>, n: nat): DeviceState
    requires n <= |calls|
  {
    if n == 0 then d else Step(RunFrom(d, calls, n - 1), calls[n - 1]).0
  }

  function Reply(d: DeviceState, calls: seq<Call>, n: nat): Status
    requires n < |calls|
  {
    Step(RunFrom(d, calls, n), calls[n]).1
  }

  /** How often the engine was turned on. */
  function Starts(d: DeviceState, calls: seq<Call>, n: nat): nat
    requires n <= |calls|
  {
    if n == 0 then 0
    else
      var turnedOn := !RunFrom(d, calls, n - 1).isRunning && RunFrom(d, calls, n).isRunning;
      Starts(d, calls, n - 1) + (if turnedOn then 1 else 0)
  }

  // ---------------------------------------------------------------------------------------------
  // The device as an object
  // ---------------------------------------------------------------------------------------------

  class Device {
    var engine: NetworkEngine
    var activeClients: seq<U32>
    var isRunning: bool
    var ptpLocked: bool
    var zeroTimestampHostTime: U64
    var zeroTimestampSampleTime: U64
    var zeroTimestampSeed: U64

    ghost function Abs(): DeviceState
      reads this, engine, engine.ptp
    {
      DeviceState(activeClients, isRunning, zeroTimestampSeed, ptpLocked, engine.ptp.callbackSet)
    }

    /** The engine and the PTP master are on exactly when the device is. */
    ghost predicate Nested()
      reads this, engine, engine.ptp
    {
      engine.Consistent() && isRunning == engine.running
    }

    constructor ()
      ensures Nested() && Abs() == NEW && fresh(engine) && fresh(engine.ptp)
    {
      engine := new NetworkEngine();
      activeClients, isRunning, ptpLocked := [], false, false;
      zeroTimestampHostTime, zeroTimestampSampleTime, zeroTimestampSeed := 0, 0, 1;
    }

    /** Replaces the engine - the old one is stopped as it is destroyed - and sets its callbacks.  A device
        that was running still believes it is. */
    method Initialize()
      requires Nested()
      modifies this`engine, engine, engine.ptp
      ensures fresh(engine) && fresh(engine.ptp) && !old(engine).running
      ensures Abs() == old(Abs()).(callbacks := true)
      ensures Nested() <==> !old(isRunning)
    {
      engine.Stop();
      engine := new NetworkEngine();
      engine.SetCallbacks();
    }

    method UpdateZeroTimeStamp(hostTime: U64)
      modifies `zeroTimestampHostTime, `zeroTimestampSampleTime, `zeroTimestampSeed
      ensures zeroTimestampHostTime == hostTime && zeroTimestampSampleTime == 0
      ensures zeroTimestampSeed == (old(zeroTimestampSeed) + 1) % TWO64
    {
      zeroTimestampHostTime := hostTime;
      zeroTimestampSampleTime := 0;
      zeroTimestampSeed := (zeroTimestampSeed + 1) % TWO64;
    }

    method HandlePTPStatusChange(locked: bool, hostTime: U64)
      modifies this
      ensures ptpLocked == locked && engine == old(engine)
      ensures activeClients == old(activeClients) && isRunning == old(isRunning)
      ensures zeroTimestampSeed == if locked then (old(zeroTimestampSeed) + 1) % TWO64 else old(zeroTimestampSeed)
    {
      ptpLocked := locked;
      if locked {
        UpdateZeroTimeStamp(hostTime);
      }
    }

    method StartIO(id: U32, outcome: Outcome, hostTime: U64) returns (status: Status)
      requires Nested()
      modifies this, engine, engine.ptp
      ensures Nested() && engine == old(engine)
      ensures (Abs(), status) == Step(old(Abs()), IOStart(id, outcome))
    {
      if id in activeClients {
        return NoError;
      }
      if !isRunning {
        var ok, notified := engine.Start(outcome);
        if notified {
          HandlePTPStatusChange(true, hostTime);
        }
        if !ok {
          return UnspecifiedError;
        }
        isRunning := true;
        ModStep(old(zeroTimestampSeed) + 1, 1, TWO64);
        UpdateZeroTimeStamp(hostTime);
      }
      activeClients := activeClients + [id];
      return NoError;
    }

    /** std::find: the place of a client, or the end. */
    method FindClient(id: U32) returns (it: nat)
      ensures it <= |activeClients| && id !in activeClients[..it]
      ensures it < |activeClients| ==> activeClients[it] == id
      ensures Erase(activeClients, id) ==
        if it < |activeClients| then activeClients[..it] + activeClients[it + 1..] else activeClients
    {
      it := 0;
      while it < |activeClients| && activeClients[it] != id
        invariant it <= |activeClients| && id !in activeClients[..it]
      {
        assert activeClients[..it + 1] == activeClients[..it] + [activeClients[it]];
        it := it + 1;
      }
      EraseAt(activeClients, id, it);
    }

    method StopIO(id: U32) returns (status: Status)
      requires Nested()
      modifies this, engine, engine.ptp
      ensures Nested() && engine == old(engine)
      ensures (Abs(), status) == Step(old(Abs()), IOStop(id))
    {
      var it := FindClient(id);
      if it < |activeClients| {
        activeClients := activeClients[..it] + activeClients[it + 1..];
      }
      if activeClients == [] && isRunning {
        engine.Stop();
        isRunning := false;
      }
      return NoError;
    }

    /** Stops the engine and replaces it by one without callbacks, but keeps the list of clients. */
    method Teardown()
      requires Nested()
      modifies this, engine, engine.ptp
      ensures Nested() && fresh(engine) && fresh(engine.ptp)
      ensures Abs() == Torn(old(Abs()))
    {
      if isRunning {
        engine.Stop();
        isRunning := false;
      }
      engine := new NetworkEngine();
    }
  }

  // ---------------------------------------------------------------------------------------------
  // Runs of an initialised device
  // ---------------------------------------------------------------------------------------------

  ghost predicate Accounted(d: DeviceState, starts: nat) {
    Sound(d) && d.seed == (1 + 2 * starts) % TWO64 && d.ptpLocked == (starts > 0) && d.callbacks
  }

  lemma StepAccounted(d: DeviceState, starts: nat, call: Call)
    requires Accounted(d, starts)
    ensures var d' := Step(d, call).0;
      Accounted(d', if !d.isRunning && d'.isRunning then starts + 1 else starts)
  {
    if call.IOStop? {
      EraseKeepsDistinct(d.clients, call.id);
    }
    ModStep(1 + 2 * starts, 2, TWO64);
  }

  /** SOUNDNESS OF EVERY RUN.  No client is listed twice, and the device runs exactly while some client is
      active; every restart moves the timestamp seed by two, and the device believes PTP to be locked from
      the first start on. */
  lemma {:induction false} RunSound(calls: seq<Call>, n: nat)
    requires n <= |calls|
    ensures Accounted(RunFrom(READY, calls, n), Starts(READY, calls, n))
    decreases n
  {
    if n > 0 {
      RunSound(calls, n - 1);
      StepAccounted(RunFrom(READY, calls, n - 1), Starts(READY, calls, n - 1), calls[n - 1]);
    }
  }

  /** Any run of calls on a real device: it ends in the state, and gets the replies, of the same calls on the
      value, and on a device just initialised the PTP master, and the engine with it, is then on and locked
      exactly if some client is active. */
  method Drive(device: Device, calls: seq<Call>, hostTimes: seq<U64>) returns (replies: seq<Status>)
    requires device.Nested() && |hostTimes| == |calls|
    modifies device, device.engine, device.engine.ptp
    ensures device.Nested() && device.engine == old(device.engine)
    ensures device.Abs() == RunFrom(old(device.Abs()), calls, |calls|)
    ensures |replies| == |calls| && forall i :: 0 <= i < |calls| ==> replies[i] == Reply(old(device.Abs()), calls, i)
    ensures old(device.Abs()) == READY ==>
      var ptp := device.engine.ptp;
      device.engine.running == ptp.masterRunning == ptp.locked == (device.activeClients != [])
  {
    replies := [];
    for n := 0 to |calls|
      invariant device.Nested() && device.engine == old(device.engine)
      invariant device.Abs() == RunFrom(old(device.Abs()), calls, n)
      invariant |replies| == n && forall i :: 0 <= i < n ==> replies[i] == Reply(old(device.Abs()), calls, i)
    {
      var status;
      match calls[n]
      case IOStart(id, outcome) =>
        status := device.StartIO(id, outcome, hostTimes[n]);
        replies := replies + [status];
      case IOStop(id) =>
        status := device.StopIO(id);
        replies := replies + [status];
    }
    RunSound(calls, |calls|);
  }

  lemma SeedCounts(d: DeviceState, starts: nat)
    requires Accounted(d, starts) && 1 + 2 * starts < TWO64
    ensures d.seed == 1 + 2 * starts
  {
    DivModUnique(1 + 2 * starts, TWO64, 0, 1 + 2 * starts);
  }

  /** Among fewer than 2^63 - 1 starts, a later run of the engine always shows a larger seed. */
  lemma SeedsIncrease(calls: seq<Call>, m: nat, n: nat)
    requires m <= n <= |calls|
    requires Starts(READY, calls, m) < Starts(READY, calls, n) && 1 + 2 * Starts(READY, calls, n) < TWO64
    ensures RunFrom(READY, calls, m).seed < RunFrom(READY, calls, n).seed
  {
    RunSound(calls, m);
    RunSound(calls, n);
    SeedCounts(RunFrom(READY, calls, m), Starts(READY, calls, m));
    SeedCounts(RunFrom(READY, calls, n), Starts(READY, calls, n));
  }

  /** The last call of client c among the first n was a StartIO that succeeded. */
  predicate LastStarted(calls: seq<Call>, n: nat, c: U32)
    requires n <= |calls|
  {
    if n == 0 then false
    else if calls[n - 1].id != c then LastStarted(calls, n - 1, c)
    else calls[n - 1].IOStart? && Reply(READY, calls, n - 1) == NoError
  }

  /** A client is active exactly if its own last call was a successful StartIO, whatever others did. */
  lemma {:induction false} ActiveIffLastStarted(calls: seq<Call>, n: nat, c: U32)
    requires n <= |calls|
    ensures c in RunFrom(READY, calls, n).clients <==> LastStarted(calls, n, c)
    decreases n
  {
    if n > 0 {
      ActiveIffLastStarted(calls, n - 1, c);
      RunSound(calls, n - 1);
      var d := RunFrom(READY, calls, n - 1);
      match calls[n - 1]
      case IOStop(id) => EraseKeepsDistinct(d.clients, id);
      case IOStart(_, _) =>
    }
  }

  /** A call fails exactly if it is a StartIO made while no client is active and the PTP master does not come up;
      a failed call changes nothing. */
  lemma FailsIff(calls: seq<Call>, n: nat)
    requires n < |calls|
    ensures Reply(READY, calls, n) == UnspecifiedError <==>
      calls[n].IOStart? && calls[n].outcome != Succeeds && RunFrom(READY, calls, n).clients == []
    ensures Reply(READY, calls, n) == UnspecifiedError ==>
      RunFrom(READY, calls, n + 1) == RunFrom(READY, calls, n)
  {
    RunSound(calls, n);
  }

  lemma {:induction false} RunningWasStarted(calls: seq<Call>, n: nat)
    requires n <= |calls|
    ensures RunFrom(READY, calls, n).isRunning ==> Starts(READY, calls, n) > 0
    decreases n
  {
    if n > 0 {
      RunningWasStarted(calls, n - 1);
    }
  }

  /** The device's lock flag agrees with the PTP master (locked while running) exactly if the device is
      running or was never started: no callback tells it that the master has stopped. */
  lemma LockFlagIsStale(calls: seq<Call>, n: nat)
    requires n <= |calls|
    ensures var d := RunFrom(READY, calls, n);
      d.ptpLocked == d.isRunning <==> d.isRunning || Starts(READY, calls, n) == 0
  {
    RunSound(calls, n);
    RunningWasStarted(calls, n);
  }

  /** For instance: after one client's start and stop, the flag says locked and nothing runs. */
  lemma LockFlagStaysSet(id: U32)
    ensures var d := RunFrom(READY, [IOStart(id, Succeeds), IOStop(id)], 2);
      d.ptpLocked && !d.isRunning
  {
    var calls := [IOStart(id, Succeeds), IOStop(id)];
    assert RunFrom(READY, calls, 0) == READY;
    var d := RunFrom(READY, calls, 1);
    assert d == Step(READY, calls[0]).0 && d.clients == [id];
    assert RunFrom(READY, calls, 2) == Step(d, calls[1]).0;
  }

  // ---------------------------------------------------------------------------------------------
  // Runs after a Teardown
  // ---------------------------------------------------------------------------------------------

  /** What a torn-down device still keeps: no client twice, and never running without one. */
  ghost predicate Listed(d: DeviceState) {
    Distinct(d.clients) && (d.isRunning ==> d.clients != [])
  }

  /** The call starts the engine for a client that is not listed, or takes the last client off the list. */
  predicate Repairs(d: DeviceState, call: Call) {
    match call
    case IOStart(id, outcome) => id !in d.clients && outcome == Succeeds
    case IOStop(id) => d.clients == [id]
  }

  lemma ErasesAllIff(c: seq<U32>, id: U32)
    ensures Erase(c, id) == [] <==> c == [] || c == [id]
  {
    if c != [] {
      assert c == [c[0]] + c[1..];
    }
  }

  lemma RepairIff(d: DeviceState, call: Call)
    requires Listed(d)
    ensures Listed(Step(d, call).0)
    ensures Sound(Step(d, call).0) <==> Sound(d) || Repairs(d, call)
  {
    if call.IOStop? {
      EraseKeepsDistinct(d.clients, call.id);
      ErasesAllIff(d.clients, call.id);
    }
  }

  predicate RepairedAt(d: DeviceState, calls: seq<Call>, i: nat)
    requires i < |calls|
  {
    Repairs(RunFrom(d, calls, i), calls[i])
  }

  /** AFTER A TEARDOWN.  The clients that were active are still listed, and as long as the list is neither
      emptied nor joined by a client whose start succeeds, the device is not sound: the listed clients' starts
      succeed with nothing running.  From the first such call on, it is sound again. */
  lemma {:induction false} TornRun(d: DeviceState, calls: seq<Call>, n: nat)
    requires Sound(d) && n <= |calls|
    ensures Listed(RunFrom(Torn(d), calls, n))
    ensures Sound(RunFrom(Torn(d), calls, n)) <==>
      d.clients == [] || exists i :: 0 <= i < n && RepairedAt(Torn(d), calls, i)
    decreases n
  {
    if n > 0 {
      TornRun(d, calls, n - 1);
      RepairIff(RunFrom(Torn(d), calls, n - 1), calls[n - 1]);
      assert RepairedAt(Torn(d), calls, n - 1) == Repairs(RunFrom(Torn(d), calls, n - 1), calls[n - 1]);
    }
  }

  /** After a Teardown a start whose PTP master comes up brings the engine up exactly if the client was not
      active before; one that was is told that it succeeded. */
  lemma TeardownBlocksIff(d: DeviceState, id: U32)
    requires Sound(d)
    ensures var (d', status) := Step(Torn(d), IOStart(id, Succeeds));
      status == NoError && (d'.isRunning <==> id !in d.clients)
  {
  }

  lemma StepWithoutCallbacks(d: DeviceState, call: Call)
    requires !d.callbacks
    ensures var d' := Step(d, call).0;
      && d'.seed == (if !d.isRunning && d'.isRunning then (d.seed + 1) % TWO64 else d.seed)
      && d'.ptpLocked == d.ptpLocked && !d'.callbacks
  {
  }

  /** Nobody tells a torn-down device about PTP: each start moves its seed by one only, and its lock flag
      stays what it was. */
  lemma {:induction false} TornSeed(d: DeviceState, calls: seq<Call>, n: nat)
    requires n <= |calls|
    ensures var t := RunFrom(Torn(d), calls, n);
      t.seed == (d.seed + Starts(Torn(d), calls, n)) % TWO64 && t.ptpLocked == d.ptpLocked && !t.callbacks
    decreases n
  {
    if n == 0 {
      DivModUnique(d.seed, TWO64, 0, d.seed);
    } else {
      TornSeed(d, calls, n - 1);
      StepWithoutCallbacks(RunFrom(Torn(d), calls, n - 1), calls[n - 1]);
      ModStep(d.seed + Starts(Torn(d), calls, n - 1), 1, TWO64);
    }
  }
}
