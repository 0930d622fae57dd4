/**
 The lock-held regions of the pairing plugin: the pairing state of each device,
 the pending-request timers and the generation counter that guards them.
 */
module Pairing {

  type DeviceId = string

  datatype PairingState = Unknown | PairRequested | PairRequestedByPeer | Paired | Unpaired

  predicate Pending(s: PairingState) {
    s.PairRequested? || s.PairRequestedByPeer?
  }

  /** A callback handed to the runtime clock. Stopping it may come too late, so it may run whenever. */
  datatype Timer = Timer(dev: DeviceId, expected: PairingState, generation: nat)

  /** What the plugin's mutex guards, together with the devices' states. */
  datatype Core = Core(
    states: map<DeviceId, PairingState>,
    pendingTimers: map<DeviceId, Timer>,
    pendingGeneration: map<DeviceId, nat>,
    nextGeneration: nat,
    scheduled: set<Timer>)

  function Cancelled(c: Core, id: DeviceId): Core {
    c.(pendingTimers := c.pendingTimers - {id}, pendingGeneration := c.pendingGeneration - {id})
  }

  /** A fresh timer for device `id` in the pending state `expected`. */
  function Scheduled(c: Core, id: DeviceId, expected: PairingState): Core {
    var g := c.nextGeneration + 1;
    var t := Timer(id, expected, g);
    c.(pendingTimers := c.pendingTimers[id := t], pendingGeneration := c.pendingGeneration[id := g],
       nextGeneration := g, scheduled := c.scheduled + {t})
  }

  /** Device `id` enters `next`: its old timer is dead, and a pending state gets a fresh one. */
  function Entered(c: Core, id: DeviceId, next: PairingState): Core {
    var c' := Cancelled(c, id).(states := c.states[id := next]);
    if Pending(next) then Scheduled(c', id, next) else c'
  }

  function Changed(c: Core, id: DeviceId, next: PairingState): Core
    requires id in c.states
  {
    if c.states[id] == next then c else Entered(c, id, next)
  }

  function ChangedFrom(c: Core, id: DeviceId, expected: PairingState, next: PairingState): Core
    requires id in c.states
  {
    if c.states[id] == expected then Entered(c, id, next) else c
  }

  /** The timer's callback runs. */
  function Expired(c: Core, t: Timer): Core {
    if t.dev !in c.pendingGeneration || c.pendingGeneration[t.dev] != t.generation then c
    else if t.dev in c.states && c.states[t.dev] == t.expected then
      Cancelled(c, t.dev).(states := c.states[t.dev := Unpaired])
    else Cancelled(c, t.dev)
  }

  function PendingToPaired(c: Core, id: DeviceId): Core
    requires id in c.states
  {
    if Pending(c.states[id]) then Cancelled(c, id).(states := c.states[id := Paired]) else c
  }

  function Stopped(c: Core, id: DeviceId, expected: PairingState): Core
    requires id in c.states
  {
    if c.states[id] == expected then Cancelled(c, id) else c
  }

  // ---------- Whole handlers, when nothing interferes ----------

  const PROTOCOL_VERSION: int := 8
  const ALLOWED_TIMESTAMP_DIFF: int := 1800

  /** Whether a request's timestamp is acceptable; older peers may omit it. */
  predicate ValidRequestTimestamp(timestamp: int, peerVersion: int, now: int) {
    if timestamp <= 0 then peerVersion < PROTOCOL_VERSION
    else -ALLOWED_TIMESTAMP_DIFF <= now - timestamp <= ALLOWED_TIMESTAMP_DIFF
  }

  /** A peer's pair packet: `valid` tells whether its timestamp is acceptable. */
  function PairHandled(c: Core, id: DeviceId, never: bool, valid: bool): Core
    requires id in c.states
  {
    match c.states[id]
    case PairRequested => PendingToPaired(c, id)
    case PairRequestedByPeer => c
    case state => if (state != Unknown && never) || !valid then c else Changed(c, id, PairRequestedByPeer)
  }

  function UnpairHandled(c: Core, id: DeviceId): Core
    requires id in c.states
  {
    if Pending(c.states[id]) || c.states[id] == Paired then Changed(c, id, Unpaired) else c
  }

  function PairingAccepted(c: Core, id: DeviceId, sendOk: bool): Core
    requires id in c.states
  {
    var state := c.states[id];
    if !Pending(state) then c
    else if sendOk then PendingToPaired(Cancelled(c, id), id)
    else Entered(c, id, Unpaired)
  }

  function PairingRequested(c: Core, id: DeviceId, sendOk: bool): Core
    requires id in c.states
  {
    match c.states[id]
    case Paired => c
    case PairRequestedByPeer => PairingAccepted(c, id, sendOk)
    case _ => if sendOk then Changed(c, id, PairRequested) else c
  }

  lemma EnteredOnce(c: Core, id: DeviceId, next: PairingState)
    ensures Entered(c.(states := c.states[id := next]), id, next) == Entered(c, id, next)
  {
    assert c.states[id := next][id := next] == c.states[id := next];
  }

  /** The entries a state change leaves: none for the device, or those of a fresh timer for a pending state. */
  lemma EnteredExactly(c: Core, id: DeviceId, next: PairingState)
    ensures Entered(c, id, next)
            == if next == PairRequested || next == PairRequestedByPeer then
                 var g, t := c.nextGeneration + 1, Timer(id, next, c.nextGeneration + 1);
                 Core(c.states[id := next], c.pendingTimers[id := t], c.pendingGeneration[id := g], g,
                      c.scheduled + {t})
               else
                 Core(c.states[id := next], c.pendingTimers - {id}, c.pendingGeneration - {id}, c.nextGeneration,
                      c.scheduled)
  {
    var g := c.nextGeneration + 1;
    assert (c.pendingTimers - {id})[id := Timer(id, next, g)] == c.pendingTimers[id := Timer(id, next, g)];
    assert (c.pendingGeneration - {id})[id := g] == c.pendingGeneration[id := g];
  }

  /** An acceptance completes our request, an acceptable new request becomes pending, and nothing else changes. */
  lemma PairHandledExactly(c: Core, id: DeviceId, never: bool, timestamp: int, peerVersion: int, now: int)
    requires id in c.states
    ensures PairHandled(c, id, never, ValidRequestTimestamp(timestamp, peerVersion, now)) ==
              if c.states[id] == PairRequested then
                c.(states := c.states[id := Paired],
                   pendingTimers := c.pendingTimers - {id}, pendingGeneration := c.pendingGeneration - {id})
              else if c.states[id] == PairRequestedByPeer || (never && c.states[id] != Unknown)
                      || (timestamp <= 0 && peerVersion >= 8)
                      || (timestamp > 0 && !(timestamp - 1800 <= now <= timestamp + 1800))
              then c
              else
                var g, t := c.nextGeneration + 1, Timer(id, PairRequestedByPeer, c.nextGeneration + 1);
                c.(states := c.states[id := PairRequestedByPeer],
                   pendingTimers := c.pendingTimers[id := t], pendingGeneration := c.pendingGeneration[id := g],
                   nextGeneration := g, scheduled := c.scheduled + {t})
  {
    EnteredExactly(c, id, PairRequestedByPeer);
  }

  lemma UnpairHandledExactly(c: Core, id: DeviceId)
    requires id in c.states
    ensures UnpairHandled(c, id) ==
              if c.states[id] == PairRequested || c.states[id] == PairRequestedByPeer || c.states[id] == Paired then
                c.(states := c.states[id := Unpaired],
                   pendingTimers := c.pendingTimers - {id}, pendingGeneration := c.pendingGeneration - {id})
              else c
  {
  }

  lemma DroppedExactly(c: Core, id: DeviceId)
    requires id in c.states
    ensures Changed(c, id, Unpaired) ==
              if c.states[id] == Unpaired then c
              else
                c.(states := c.states[id := Unpaired],
                   pendingTimers := c.pendingTimers - {id}, pendingGeneration := c.pendingGeneration - {id})
  {
  }

  lemma PairingAcceptedExactly(c: Core, id: DeviceId, sendOk: bool)
    requires id in c.states
    ensures PairingAccepted(c, id, sendOk) ==
              if c.states[id] == PairRequested || c.states[id] == PairRequestedByPeer then
                c.(states := c.states[id := if sendOk then Paired else Unpaired],
                   pendingTimers := c.pendingTimers - {id}, pendingGeneration := c.pendingGeneration - {id})
              else c
  {
    assert (c.pendingTimers - {id}) - {id} == c.pendingTimers - {id};
    assert (c.pendingGeneration - {id}) - {id} == c.pendingGeneration - {id};
  }

  lemma PairingRequestedExactly(c: Core, id: DeviceId, sendOk: bool)
    requires id in c.states
    ensures PairingRequested(c, id, sendOk) ==
              if c.states[id] == PairRequestedByPeer then
                c.(states := c.states[id := if sendOk then Paired else Unpaired],
                   pendingTimers := c.pendingTimers - {id}, pendingGeneration := c.pendingGeneration - {id})
              else if c.states[id] == Paired || c.states[id] == PairRequested || !sendOk then c
              else
                var g, t := c.nextGeneration + 1, Timer(id, PairRequested, c.nextGeneration + 1);
                c.(states := c.states[id := PairRequested],
                   pendingTimers := c.pendingTimers[id := t], pendingGeneration := c.pendingGeneration[id := g],
                   nextGeneration := g, scheduled := c.scheduled + {t})
  {
    EnteredExactly(c, id, PairRequested);
    PairingAcceptedExactly(c, id, sendOk);
  }

  // ---------- The objects ----------

  class Device {
    var state: PairingState
    /** The buffered wake-up of a parked reconnect loop. */
    var reconnectWake: bool

    constructor ()
      ensures state == Unpaired && !reconnectWake
    {
      state, reconnectWake := Unpaired, false;
    }

    method PokeReconnect()
      modifies this`reconnectWake
      ensures reconnectWake
    {
      if !reconnectWake { reconnectWake := true; }
    }

    method SetState(s: PairingState)
      modifies this
      ensures state == s && reconnectWake == (old(reconnectWake) || s == Unpaired)
    {
      state := s;
      if s == Unpaired { PokeReconnect(); }
    }

    method TransitionState(expected: PairingState, next: PairingState) returns (ok: bool)
      modifies this
      ensures ok <==> old(state) == expected
      ensures state == (if ok then next else old(state))
      ensures reconnectWake == (old(reconnectWake) || (ok && next == Unpaired))
    {
      if state != expected { return false; }
      state := next;
      if next == Unpaired { PokeReconnect(); }
      return true;
    }
  }

  class PairPlugin {
    const devices: map<DeviceId, Device>
    var pendingTimers: map<DeviceId, Timer>
    var pendingGeneration: map<DeviceId, nat>
    var nextGeneration: nat
    var scheduled: set<Timer>

    ghost predicate Valid() {
      forall a, b | a in devices && b in devices :: devices[a] == devices[b] ==> a == b
    }

    ghost function States(): map<DeviceId, PairingState>
      reads this, devices.Values
    {
      map id | id in devices :: devices[id].state
    }

    ghost function Snapshot(): Core
      reads this, devices.Values
    {
      Core(States(), pendingTimers, pendingGeneration, nextGeneration, scheduled)
    }

    constructor (devices: map<DeviceId, Device>)
      requires forall a, b | a in devices && b in devices :: devices[a] == devices[b] ==> a == b
      ensures Valid() && this.devices == devices
      ensures pendingTimers == map[] && pendingGeneration == map[] && nextGeneration == 0 && scheduled == {}
    {
      this.devices := devices;
      pendingTimers, pendingGeneration, nextGeneration, scheduled := map[], map[], 0, {};
    }

    method CancelPendingTimerLocked(id: DeviceId)
      modifies this`pendingTimers, this`pendingGeneration
      ensures Snapshot() == Cancelled(old(Snapshot()), id)
      ensures pendingTimers == old(pendingTimers) - {id} && pendingGeneration == old(pendingGeneration) - {id}
    {
      pendingTimers := pendingTimers - {id};
      pendingGeneration := pendingGeneration - {id};
    }

    method UpdatePendingTimerLocked(id: DeviceId, next: PairingState)
      requires id in devices && devices[id].state == next
      modifies this
      ensures Snapshot() == Entered(old(Snapshot()), id, next)
      ensures next == PairRequested || next == PairRequestedByPeer ==>
                var g, t := old(nextGeneration) + 1, Timer(id, next, old(nextGeneration) + 1);
                && pendingTimers == old(pendingTimers)[id := t] && pendingGeneration == old(pendingGeneration)[id := g]
                && nextGeneration == g && scheduled == old(scheduled) + {t}
      ensures next != PairRequested && next != PairRequestedByPeer ==>
                pendingTimers == old(pendingTimers) - {id} && pendingGeneration == old(pendingGeneration) - {id}
                && nextGeneration == old(nextGeneration) && scheduled == old(scheduled)
    {
      EnteredExactly(Snapshot(), id, next);
      CancelPendingTimerLocked(id);
      if next == PairRequested || next == PairRequestedByPeer {
        SchedulePendingTimerLocked(id, next);
      }
      assert States() == old(States())[id := next];
    }

    method SchedulePendingTimerLocked(id: DeviceId, expected: PairingState)
      modifies this
      ensures Snapshot() == Scheduled(old(Snapshot()), id, expected)
      ensures var g, t := old(nextGeneration) + 1, Timer(id, expected, old(nextGeneration) + 1);
              && pendingTimers == old(pendingTimers)[id := t] && pendingGeneration == old(pendingGeneration)[id := g]
              && nextGeneration == g && scheduled == old(scheduled) + {t}
    {
      nextGeneration := nextGeneration + 1;
      var generation := nextGeneration;
      pendingGeneration := pendingGeneration[id := generation];
      var t := Timer(id, expected, generation);
      scheduled := scheduled + {t};
      pendingTimers := pendingTimers[id := t];
    }

    /**
     States are changed under the plugin's mutex only, so the compare-and-set
     of the retry loop succeeds at once.
     */
    method ChangeState(id: DeviceId, next: PairingState) returns (previous: PairingState)
      requires Valid() && id in devices
      modifies this, devices[id]
      ensures previous == old(devices[id].state)
      ensures Snapshot() == Changed(old(Snapshot()), id, next)
      ensures devices[id].state == next
      ensures previous == next ==> pendingTimers == old(pendingTimers) && pendingGeneration == old(pendingGeneration)
      ensures previous != next && (next == PairRequested || next == PairRequestedByPeer) ==>
                var g, t := old(nextGeneration) + 1, Timer(id, next, old(nextGeneration) + 1);
                && pendingTimers == old(pendingTimers)[id := t] && pendingGeneration == old(pendingGeneration)[id := g]
                && nextGeneration == g && scheduled == old(scheduled) + {t}
      ensures previous != next && next != PairRequested && next != PairRequestedByPeer ==>
                pendingTimers == old(pendingTimers) - {id} && pendingGeneration == old(pendingGeneration) - {id}
      ensures previous == next || (next != PairRequested && next != PairRequestedByPeer) ==>
                nextGeneration == old(nextGeneration) && scheduled == old(scheduled)
    {
      hide Entered;
      EnteredOnce(Snapshot(), id, next);
      var dev := devices[id];
      previous := dev.state;
      if previous == next { return; }
      var ok := dev.TransitionState(previous, next);
      assert States() == old(States())[id := next];
      UpdatePendingTimerLocked(id, next);
    }

    method ChangeStateFrom(id: DeviceId, expected: PairingState, next: PairingState) returns (changed: bool)
      requires Valid() && id in devices
      modifies this, devices[id]
      ensures changed <==> old(devices[id].state) == expected
      ensures Snapshot() == ChangedFrom(old(Snapshot()), id, expected, next)
      ensures devices[id].state == (if changed then next else old(devices[id].state))
      ensures !changed ==> pendingTimers == old(pendingTimers) && pendingGeneration == old(pendingGeneration)
      ensures changed && (next == PairRequested || next == PairRequestedByPeer) ==>
                var g, t := old(nextGeneration) + 1, Timer(id, next, old(nextGeneration) + 1);
                && pendingTimers == old(pendingTimers)[id := t] && pendingGeneration == old(pendingGeneration)[id := g]
                && nextGeneration == g && scheduled == old(scheduled) + {t}
      ensures changed && next != PairRequested && next != PairRequestedByPeer ==>
                pendingTimers == old(pendingTimers) - {id} && pendingGeneration == old(pendingGeneration) - {id}
      ensures !changed || (next != PairRequested && next != PairRequestedByPeer) ==>
                nextGeneration == old(nextGeneration) && scheduled == old(scheduled)
    {
      hide Entered;
      EnteredOnce(Snapshot(), id, next);
      changed := devices[id].TransitionState(expected, next);
      if !changed {
        assert States() == old(States());
        return;
      }
      assert States() == old(States())[id := next];
      UpdatePendingTimerLocked(id, next);
    }

    method ExpirePending(t: Timer) returns (expired: bool)
      requires Valid()
      modifies this, devices.Values
      ensures Snapshot() == Expired(old(Snapshot()), t)
      ensures expired <==> t.dev in devices && old(devices[t.dev].state) == t.expected
                           && t.dev in old(pendingGeneration) && old(pendingGeneration)[t.dev] == t.generation
      ensures expired ==> devices[t.dev].state == Unpaired
      ensures forall d | d in devices && !(expired && d == t.dev) :: devices[d].state == old(devices[d].state)
      ensures if t.dev in old(pendingGeneration) && old(pendingGeneration)[t.dev] == t.generation
              then pendingTimers == old(pendingTimers) - {t.dev}
                   && pendingGeneration == old(pendingGeneration) - {t.dev}
              else pendingTimers == old(pendingTimers) && pendingGeneration == old(pendingGeneration)
      ensures nextGeneration == old(nextGeneration) && scheduled == old(scheduled)
    {
      expired := false;
      if t.dev !in pendingGeneration || pendingGeneration[t.dev] != t.generation { return; }
      if t.dev in devices {
        expired := devices[t.dev].TransitionState(t.expected, Unpaired);
      }
      CancelPendingTimerLocked(t.dev);
      if expired {
        assert States() == old(States())[t.dev := Unpaired];
      } else {
        assert States() == old(States());
      }
    }

    method TransitionPendingToPaired(id: DeviceId) returns (done: bool)
      requires Valid() && id in devices
      modifies this, devices[id]
      ensures done <==> old(devices[id].state) == PairRequested
                        || old(devices[id].state) == PairRequestedByPeer
      ensures Snapshot() == PendingToPaired(old(Snapshot()), id)
      ensures devices[id].state == (if done then Paired else old(devices[id].state))
      ensures if done
              then pendingTimers == old(pendingTimers) - {id} && pendingGeneration == old(pendingGeneration) - {id}
              else pendingTimers == old(pendingTimers) && pendingGeneration == old(pendingGeneration)
      ensures nextGeneration == old(nextGeneration) && scheduled == old(scheduled)
    {
      var previous := devices[id].state;
      if previous != PairRequested && previous != PairRequestedByPeer { return false; }
      done := devices[id].TransitionState(previous, Paired);
      CancelPendingTimerLocked(id);
      assert States() == old(States())[id := Paired];
    }

    /** `never` is the configuration that refuses all requests. */
    method HandlePairRequest(id: DeviceId, never: bool, timestamp: int, peerVersion: int, now: int)
      returns (rejected: bool)
      requires Valid() && id in devices
      modifies this, devices[id]
      ensures Snapshot() == PairHandled(old(Snapshot()), id, never, ValidRequestTimestamp(timestamp, peerVersion, now))
      ensures rejected <==> old(devices[id].state) != PairRequested && old(devices[id].state) != PairRequestedByPeer
                            && ((never && old(devices[id].state) != Unknown)
                                || (timestamp <= 0 && peerVersion >= 8)
                                || (timestamp > 0 && !(-1800 <= now - timestamp <= 1800)))
      ensures rejected || old(devices[id].state) == PairRequestedByPeer ==>
                && devices[id].state == old(devices[id].state)
                && pendingTimers == old(pendingTimers) && pendingGeneration == old(pendingGeneration)
      ensures old(devices[id].state) == PairRequested ==>
                && devices[id].state == Paired
                && pendingTimers == old(pendingTimers) - {id} && pendingGeneration == old(pendingGeneration) - {id}
      ensures !rejected && old(devices[id].state) != PairRequested
              && old(devices[id].state) != PairRequestedByPeer ==>
                var g, t := old(nextGeneration) + 1, Timer(id, PairRequestedByPeer, old(nextGeneration) + 1);
                && devices[id].state == PairRequestedByPeer
                && pendingTimers == old(pendingTimers)[id := t] && pendingGeneration == old(pendingGeneration)[id := g]
                && nextGeneration == g && scheduled == old(scheduled) + {t}
      ensures rejected || old(devices[id].state) == PairRequested
              || old(devices[id].state) == PairRequestedByPeer ==>
                nextGeneration == old(nextGeneration) && scheduled == old(scheduled)
    {
      hide Changed;
      hide PendingToPaired;
      var state := devices[id].state;
      match state
      case PairRequested =>
        var _ := PairingDone(id);
        return false;
      case PairRequestedByPeer =>
        return false;
      case _ =>
        if state != Unknown && never { return true; }
        var valid := ValidateRequestTimestamp(timestamp, peerVersion, now);
        if !valid { return true; }
        var _ := ChangeState(id, PairRequestedByPeer);
        return false;
    }

    method ValidateRequestTimestamp(timestamp: int, peerVersion: int, now: int) returns (valid: bool)
      ensures valid <==> ValidRequestTimestamp(timestamp, peerVersion, now)
      ensures valid <==> if timestamp <= 0 then peerVersion < 8 else timestamp - 1800 <= now <= timestamp + 1800
    {
      if timestamp <= 0 && peerVersion >= PROTOCOL_VERSION { return false; }
      if timestamp <= 0 { return true; }
      var diff := now - timestamp;
      if diff < -ALLOWED_TIMESTAMP_DIFF || diff > ALLOWED_TIMESTAMP_DIFF { return false; }
      return true;
    }

    method HandleUnpairRequest(id: DeviceId)
      requires Valid() && id in devices
      modifies this, devices[id]
      ensures Snapshot() == UnpairHandled(old(Snapshot()), id)
      ensures var before := old(devices[id].state);
              if before == PairRequested || before == PairRequestedByPeer || before == Paired then
                && devices[id].state == Unpaired
                && pendingTimers == old(pendingTimers) - {id} && pendingGeneration == old(pendingGeneration) - {id}
              else
                && devices[id].state == before
                && pendingTimers == old(pendingTimers) && pendingGeneration == old(pendingGeneration)
      ensures nextGeneration == old(nextGeneration) && scheduled == old(scheduled)
    {
      hide Changed;
      match devices[id].state
      case PairRequested => var _ := ChangeState(id, Unpaired);
      case PairRequestedByPeer => var _ := ChangeState(id, Unpaired);
      case Paired => var _ := ChangeState(id, Unpaired);
      case _ =>
    }

    method PairingDone(id: DeviceId) returns (done: bool)
      requires Valid() && id in devices
      modifies this, devices[id]
      ensures done <==> old(devices[id].state) == PairRequested
                        || old(devices[id].state) == PairRequestedByPeer
      ensures Snapshot() == PendingToPaired(old(Snapshot()), id)
      ensures devices[id].state == (if done then Paired else old(devices[id].state))
      ensures if done
              then pendingTimers == old(pendingTimers) - {id} && pendingGeneration == old(pendingGeneration) - {id}
              else pendingTimers == old(pendingTimers) && pendingGeneration == old(pendingGeneration)
      ensures nextGeneration == old(nextGeneration) && scheduled == old(scheduled)
    {
      done := TransitionPendingToPaired(id);
    }

    /** `sendOk` tells whether the acceptance could be sent. */
    method AcceptPairing(id: DeviceId, sendOk: bool) returns (ok: bool)
      requires Valid() && id in devices
      modifies this, devices[id]
      ensures Snapshot() == PairingAccepted(old(Snapshot()), id, sendOk)
      ensures var before := old(devices[id].state);
              if before == PairRequested || before == PairRequestedByPeer then
                && ok == sendOk && devices[id].state == (if sendOk then Paired else Unpaired)
                && pendingTimers == old(pendingTimers) - {id} && pendingGeneration == old(pendingGeneration) - {id}
              else
                && !ok && devices[id].state == before
                && pendingTimers == old(pendingTimers) && pendingGeneration == old(pendingGeneration)
      ensures nextGeneration == old(nextGeneration) && scheduled == old(scheduled)
    {
      var state := devices[id].state;
      if state != PairRequestedByPeer && state != PairRequested { return false; }
      var stopped := StopPendingTimeout(id, state);
      if !sendOk {
        var _ := ChangeStateFrom(id, state, Unpaired);
        return false;
      }
      ok := PairingDone(id);
    }

    method RequestPairing(id: DeviceId, sendOk: bool) returns (ok: bool)
      requires Valid() && id in devices
      modifies this, devices[id]
      ensures Snapshot() == PairingRequested(old(Snapshot()), id, sendOk)
      ensures ok <==> old(devices[id].state) == Paired || sendOk
      ensures old(devices[id].state) == PairRequestedByPeer ==>
                && devices[id].state == (if sendOk then Paired else Unpaired)
                && pendingTimers == old(pendingTimers) - {id} && pendingGeneration == old(pendingGeneration) - {id}
                && nextGeneration == old(nextGeneration) && scheduled == old(scheduled)
      ensures sendOk && (old(devices[id].state) == Unknown || old(devices[id].state) == Unpaired) ==>
                var g, t := old(nextGeneration) + 1, Timer(id, PairRequested, old(nextGeneration) + 1);
                && devices[id].state == PairRequested
                && pendingTimers == old(pendingTimers)[id := t] && pendingGeneration == old(pendingGeneration)[id := g]
                && nextGeneration == g && scheduled == old(scheduled) + {t}
      ensures old(devices[id].state) == Paired || old(devices[id].state) == PairRequested
              || (old(devices[id].state) != PairRequestedByPeer && !sendOk) ==>
                && devices[id].state == old(devices[id].state)
                && pendingTimers == old(pendingTimers) && pendingGeneration == old(pendingGeneration)
                && nextGeneration == old(nextGeneration) && scheduled == old(scheduled)
    {
      hide Changed;
      hide PairingAccepted;
      if devices[id].state == Paired { return true; }
      if devices[id].state == PairRequestedByPeer {
        ok := AcceptPairing(id, sendOk);
        return;
      }
      if !sendOk { return false; }
      var _ := ChangeState(id, PairRequested);
      return true;
    }

    /** Rejecting and unpairing alike; the packet to the peer is best effort. */
    method Drop(id: DeviceId)
      requires Valid() && id in devices
      modifies this, devices[id]
      ensures Snapshot() == Changed(old(Snapshot()), id, Unpaired)
      ensures devices[id].state == Unpaired
      ensures if old(devices[id].state) == Unpaired
              then pendingTimers == old(pendingTimers) && pendingGeneration == old(pendingGeneration)
              else pendingTimers == old(pendingTimers) - {id} && pendingGeneration == old(pendingGeneration) - {id}
      ensures nextGeneration == old(nextGeneration) && scheduled == old(scheduled)
    {
      var _ := ChangeState(id, Unpaired);
    }

    method StopPendingTimeout(id: DeviceId, expected: PairingState) returns (stopped: bool)
      requires Valid() && id in devices
      modifies this`pendingTimers, this`pendingGeneration
      ensures stopped <==> devices[id].state == expected
      ensures Snapshot() == Stopped(old(Snapshot()), id, expected)
      ensures if stopped
              then pendingTimers == old(pendingTimers) - {id} && pendingGeneration == old(pendingGeneration) - {id}
              else pendingTimers == old(pendingTimers) && pendingGeneration == old(pendingGeneration)
    {
      if devices[id].state != expected { return false; }
      CancelPendingTimerLocked(id);
      return true;
    }
  }

  // ---------- How long a request may stay pending ----------

  const SECOND: int := 1_000_000_000
  const MAX_DURATION: int := 0x7fff_ffff_ffff_ffff
  const DEFAULT_PENDING_PAIR_TIMEOUT: int := 30 * SECOND

  /** How long Android waits for us, in each direction. */
  function AndroidWait(s: PairingState): int
    requires Pending(s)
  {
    if s.PairRequested? then 30 * SECOND else 25 * SECOND
  }

  method PendingTimeout(timeoutSecs: int, state: PairingState) returns (delay: int)
    requires state == PairRequested || state == PairRequestedByPeer
    ensures 0 < delay <= MAX_DURATION
    ensures var wait := if state == PairRequested then 30_000_000_000 else 25_000_000_000;
            delay == if timeoutSecs <= 0 then 30_000_000_000
                     else if timeoutSecs * 1_000_000_000 > wait then wait else timeoutSecs * 1_000_000_000
    ensures timeoutSecs > 0 ==> delay <= AndroidWait(state)
    ensures timeoutSecs > 0 && timeoutSecs * SECOND <= AndroidWait(state) ==> delay == timeoutSecs * SECOND
    ensures timeoutSecs > 0 && timeoutSecs * SECOND > AndroidWait(state) ==> delay == AndroidWait(state)
    // An unset timeout skips the cap, so an incoming request may outlive the peer's.
    ensures delay <= AndroidWait(state) <==> timeoutSecs > 0 || state.PairRequested?
  {
    var seconds := timeoutSecs;
    if seconds <= 0 { return DEFAULT_PENDING_PAIR_TIMEOUT; }
    var maxSeconds := MAX_DURATION / SECOND;
    if seconds > maxSeconds { seconds := maxSeconds; }
    delay := seconds * SECOND;
    if state == PairRequested && delay > 30 * SECOND { return 30 * SECOND; }
    if state == PairRequestedByPeer && delay > 25 * SECOND { return 25 * SECOND; }
  }
}
