/** The hub's communication status of each managed device. */
module HubLiveness {
  import opened Wrappers
  import opened Time
  import opened Messages
  import opened Text

  datatype CommunicationStatus = InitialWait | Online | Offline

  datatype DeviceState = DeviceState(status: CommunicationStatus, initialWaitStartedAt: nat, lastSeenAt: Option<nat>)

  datatype StateUpdateError = EmptyDeviceId

  type Devices = map<DeviceId, DeviceState>

  function Reference(s: DeviceState): nat {
    if s.lastSeenAt.Some? then s.lastSeenAt.value else s.initialWaitStartedAt
  }

  function Marked(s: DeviceState, now: nat, timeout: nat): DeviceState {
    if Elapsed(now, Reference(s)) >= timeout then s.(status := Offline) else s
  }

  function MarkAll(devices: Devices, now: nat, timeout: nat): Devices {
    map d | d in devices :: Marked(devices[d], now, timeout)
  }

  function Observed(devices: Devices, m: UdpMessage, now: nat): Devices {
    if IsBlank(m.deviceId) || m.Ack? || m.deviceId !in devices then devices
    else devices[m.deviceId := devices[m.deviceId].(status := Online, lastSeenAt := Some(now))]
  }

  function InitialDevices(enabled: set<DeviceId>, startedAt: nat): Devices {
    map d | d in enabled :: DeviceState(InitialWait, startedAt, None)
  }

  class CommunicationStateManager {
    var devices: Devices
    const offlineTimeout: nat

    constructor (enabled: set<DeviceId>, startedAt: nat, offlineTimeout: nat)
      ensures devices == InitialDevices(enabled, startedAt) && this.offlineTimeout == offlineTimeout
    {
      devices, this.offlineTimeout := map d | d in enabled :: DeviceState(InitialWait, startedAt, None), offlineTimeout;
    }

    method ObserveMessage(m: UdpMessage, now: nat) returns (updated: Result<bool, StateUpdateError>)
      modifies this
      ensures devices == Observed(old(devices), m, now)
      ensures updated == if IsBlank(m.deviceId) then Err(EmptyDeviceId)
                         else Ok(!m.Ack? && m.deviceId in old(devices))
    {
      if IsBlank(m.deviceId) {
        return Err(EmptyDeviceId);
      }
      if m.Ack? {
        return Ok(false);
      }
      if m.deviceId !in devices {
        return Ok(false);
      }
      var state := devices[m.deviceId];
      devices := devices[m.deviceId := state.(status := Online, lastSeenAt := Some(now))];
      return Ok(true);
    }

    method MarkOffline(now: nat)
      modifies this
      ensures devices == MarkAll(old(devices), now, offlineTimeout)
    {
      var pending := devices.Keys;
      while pending != {}
        invariant pending <= devices.Keys == old(devices).Keys
        invariant forall d :: d in devices ==>
          devices[d] == if d in pending then old(devices)[d] else Marked(old(devices)[d], now, offlineTimeout)
        decreases pending
      {
        var d :| d in pending;
        var state := devices[d];
        var reference := if state.lastSeenAt.Some? then state.lastSeenAt.value else state.initialWaitStartedAt;
        if Elapsed(now, reference) >= offlineTimeout {
          devices := devices[d := state.(status := Offline)];
        }
        pending := pending - {d};
      }
    }
  }

  // ---- Runs -------------------------------------------------------------------------

  datatype Op = Observe(message: UdpMessage, now: nat) | Mark(now: nat)

  function Perform(devices: Devices, op: Op, timeout: nat): Devices {
    match op
    case Observe(m, now) => Observed(devices, m, now)
    case Mark(now) => MarkAll(devices, now, timeout)
  }

  function After(enabled: set<DeviceId>, startedAt: nat, timeout: nat, ops: seq<Op>): Devices {
    if ops == [] then InitialDevices(enabled, startedAt)
    else Perform(After(enabled, startedAt, timeout, ops[..|ops| - 1]), ops[|ops| - 1], timeout)
  }

  predicate Hears(op: Op, d: DeviceId) {
    op.Observe? && !IsBlank(d) && !op.message.Ack? && op.message.deviceId == d
  }

  /** When the device was last heard. */
  function LastHeard(ops: seq<Op>, d: DeviceId): Option<nat> {
    if ops == [] then None
    else if Hears(ops[|ops| - 1], d) then Some(ops[|ops| - 1].now)
    else LastHeard(ops[..|ops| - 1], d)
  }

  function SilentSince(ops: seq<Op>, d: DeviceId, startedAt: nat): nat {
    match LastHeard(ops, d) case Some(at) => at case None => startedAt
  }

  /** At operation i the timeout was found exceeded, and the device was not heard afterwards. */
  ghost predicate TimedOutAt(ops: seq<Op>, d: DeviceId, startedAt: nat, timeout: nat, i: nat) {
    && i < |ops| && ops[i].Mark?
    && Elapsed(ops[i].now, SilentSince(ops[..i], d, startedAt)) >= timeout
    && forall j :: i < j < |ops| ==> !Hears(ops[j], d)
  }

  ghost predicate TimedOut(ops: seq<Op>, d: DeviceId, startedAt: nat, timeout: nat) {
    exists i: nat :: TimedOutAt(ops, d, startedAt, timeout, i)
  }

  lemma TimedOutSnoc(ops: seq<Op>, op: Op, d: DeviceId, startedAt: nat, timeout: nat)
    ensures TimedOut(ops + [op], d, startedAt, timeout) <==>
      !Hears(op, d) && (TimedOut(ops, d, startedAt, timeout)
                        || (op.Mark? && Elapsed(op.now, SilentSince(ops, d, startedAt)) >= timeout))
  {
    var all := ops + [op];
    assert all[..|ops|] == ops;
    forall i: nat | i < |ops|
      ensures TimedOutAt(all, d, startedAt, timeout, i) <==> TimedOutAt(ops, d, startedAt, timeout, i) && !Hears(op, d)
    {
      assert all[..i] == ops[..i];
      assert all[|ops|] == op;
      assert forall j :: i < j < |ops| ==> all[j] == ops[j];
    }
    if !Hears(op, d) && TimedOut(ops, d, startedAt, timeout) {
      var i: nat :| TimedOutAt(ops, d, startedAt, timeout, i);
      assert TimedOutAt(all, d, startedAt, timeout, i);
    }
    if op.Mark? && Elapsed(op.now, SilentSince(ops, d, startedAt)) >= timeout {
      assert TimedOutAt(all, d, startedAt, timeout, |ops|);
    }
  }

  /**
  Whatever the clock does: the managed devices never change, and a device is Offline
  exactly when some check since it was last heard found the timeout exceeded.
  */
  lemma {:induction false} StatusExplained(enabled: set<DeviceId>, startedAt: nat, timeout: nat, ops: seq<Op>,
      d: DeviceId)
    requires d in enabled
    ensures var devices := After(enabled, startedAt, timeout, ops);
      && devices.Keys == enabled
      && devices[d].initialWaitStartedAt == startedAt
      && devices[d].lastSeenAt == LastHeard(ops, d)
      && devices[d].status ==
           if TimedOut(ops, d, startedAt, timeout) then Offline
           else if LastHeard(ops, d).Some? then Online else InitialWait
  {
    if ops != [] {
      var init, op := ops[..|ops| - 1], ops[|ops| - 1];
      StatusExplained(enabled, startedAt, timeout, init, d);
      TimedOutSnoc(init, op, d, startedAt, timeout);
      assert ops == init + [op];
    }
  }

  ghost predicate Monotone(startedAt: nat, ops: seq<Op>) {
    forall i, j :: 0 <= i <= j < |ops| ==> startedAt <= ops[i].now <= ops[j].now
  }

  lemma {:induction false} HeardBefore(ops: seq<Op>, d: DeviceId, i: nat)
    requires i <= |ops| && forall j :: i <= j < |ops| ==> !Hears(ops[j], d)
    ensures LastHeard(ops, d) == LastHeard(ops[..i], d)
  {
    if i == |ops| {
      assert ops[..i] == ops;
    } else {
      var init := ops[..|ops| - 1];
      HeardBefore(init, d, i);
      assert init[..i] == ops[..i];
    }
  }

  /** On a non-decreasing clock, a check leaves every device in the status its silence alone decides. */
  lemma StatusAfterCheck(enabled: set<DeviceId>, startedAt: nat, timeout: nat, ops: seq<Op>, now: nat, d: DeviceId)
    requires d in enabled && Monotone(startedAt, ops + [Mark(now)])
    ensures var devices := After(enabled, startedAt, timeout, ops + [Mark(now)]);
      && devices.Keys == enabled
      && devices[d].status ==
           if Elapsed(now, SilentSince(ops, d, startedAt)) >= timeout then Offline
           else if LastHeard(ops, d).Some? then Online else InitialWait
  {
    var all := ops + [Mark(now)];
    StatusExplained(enabled, startedAt, timeout, all, d);
    TimedOutSnoc(ops, Mark(now), d, startedAt, timeout);
    assert all[..|ops|] == ops;
    if TimedOut(ops, d, startedAt, timeout) {
      var i: nat :| TimedOutAt(ops, d, startedAt, timeout, i);
      HeardBefore(ops, d, i);
      assert all[i] == ops[i] && all[|ops|] == Mark(now);
    }
  }

  /** A device whose silence never reaches the timeout at a check is never Offline. */
  lemma NeverOffline(enabled: set<DeviceId>, startedAt: nat, timeout: nat, ops: seq<Op>, d: DeviceId)
    requires d in enabled
    requires forall i :: 0 <= i < |ops| && ops[i].Mark? ==>
      Elapsed(ops[i].now, SilentSince(ops[..i], d, startedAt)) < timeout
    ensures After(enabled, startedAt, timeout, ops).Keys == enabled
    ensures After(enabled, startedAt, timeout, ops)[d].status != Offline
  {
    StatusExplained(enabled, startedAt, timeout, ops, d);
  }
}
