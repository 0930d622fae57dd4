/**
 Runs of the pairing plugin: peer packets, local actions, timers and callbacks
 interleave between any two lock-held regions.
 */
module PairingRuns {
  import opened Pairing

  /** A goroutine between two of its lock-held regions. */
  datatype Task =
    | StartIncoming(id: DeviceId)                      // a peer's request is about to be recorded
    | Confirm(id: DeviceId)                            // a peer's acceptance is about to complete
    | Drop(id: DeviceId)                               // an unpair or rejection is about to take effect
    | AcceptStart(id: DeviceId)
    | AcceptStop(id: DeviceId, state: PairingState)
    | AcceptSend(id: DeviceId, state: PairingState)    // the timer is stopped, the packet not yet sent
    | AcceptFailed(id: DeviceId, state: PairingState)
    | AcceptFinish(id: DeviceId, state: PairingState)
    | RequestRecheck(id: DeviceId)
    | RequestSend(id: DeviceId)
    | RequestEnter(id: DeviceId)

  datatype Calls = Calls(paired: nat, unpaired: nat)

  /**
   `touches` counts, per device, the state changes and the timers stopped by an
   accept; `stamps` records that count when a generation was scheduled. `owed`
   and `made` count lifecycle callbacks due and done.
   */
  datatype World = World(
    core: Core,
    tasks: map<nat, Task>, nextTask: nat,
    touches: map<DeviceId, nat>, stamps: map<nat, nat>,
    owed: map<DeviceId, Calls>, made: map<DeviceId, Calls>)

  datatype Step =
    | PeerPair(id: DeviceId, timestamp: int, peerVersion: int, now: int)
    | PeerUnpair(id: DeviceId)
    | LocalAccept(id: DeviceId)
    | LocalRequest(id: DeviceId)
    | LocalDrop(id: DeviceId)                          // reject or unpair
    | Fire(t: Timer)
    | Advance(k: nat, sendOk: bool)
    | CallPaired(id: DeviceId)
    | CallUnpaired(id: DeviceId)

  function Owe(c: Calls, previous: PairingState, next: PairingState): Calls {
    if previous == Paired && next != Paired then c.(unpaired := c.unpaired + 1)
    else if previous != Paired && next == Paired then c.(paired := c.paired + 1)
    else c
  }

  ghost predicate Known(w: World, id: DeviceId) {
    id in w.core.states && id in w.touches && id in w.owed && id in w.made
  }

  /** Device `id` is touched: the core becomes `core'`. */
  ghost function Commit(w: World, id: DeviceId, core': Core): World
    requires Known(w, id) && id in core'.states
  {
    var n := w.touches[id] + 1;
    w.(core := core', touches := w.touches[id := n],
       stamps := if core'.nextGeneration > w.core.nextGeneration then w.stamps[core'.nextGeneration := n] else w.stamps,
       owed := w.owed[id := Owe(w.owed[id], w.core.states[id], core'.states[id])])
  }

  ghost function Change(w: World, id: DeviceId, next: PairingState): World
    requires Known(w, id)
  {
    if w.core.states[id] == next then w else Commit(w, id, Changed(w.core, id, next))
  }

  ghost function Complete(w: World, id: DeviceId): World
    requires Known(w, id)
  {
    if Pending(w.core.states[id]) then Commit(w, id, PendingToPaired(w.core, id)) else w
  }

  ghost function Spawn(w: World, t: Task): World {
    w.(tasks := w.tasks[w.nextTask := t], nextTask := w.nextTask + 1)
  }

  ghost function Resume(w: World, k: nat, t: Task): World {
    w.(tasks := w.tasks[k := t])
  }

  ghost function Finish(w: World, k: nat): World {
    w.(tasks := w.tasks - {k})
  }

  /** Task `k` runs to its next lock-free point. */
  ghost function Advanced(w: World, k: nat, sendOk: bool): World
    requires k in w.tasks && Known(w, w.tasks[k].id)
  {
    var id := w.tasks[k].id;
    var state := w.core.states[id];
    match w.tasks[k]
    case StartIncoming(_) => Finish(Change(w, id, PairRequestedByPeer), k)
    case Confirm(_) => Finish(Complete(w, id), k)
    case Drop(_) => Finish(Change(w, id, Unpaired), k)
    case AcceptStart(_) => if Pending(state) then Resume(w, k, AcceptStop(id, state)) else Finish(w, k)
    case AcceptStop(_, s) =>
      if state == s then Resume(Commit(w, id, Stopped(w.core, id, s)), k, AcceptSend(id, s)) else Finish(w, k)
    case AcceptSend(_, s) => Resume(w, k, if sendOk then AcceptFinish(id, s) else AcceptFailed(id, s))
    case AcceptFailed(_, s) =>
      Finish(if state == s then Commit(w, id, ChangedFrom(w.core, id, s, Unpaired)) else w, k)
    case AcceptFinish(_, _) => Finish(Complete(w, id), k)
    case RequestRecheck(_) =>
      Resume(w, k, if state == PairRequestedByPeer then AcceptStart(id) else RequestSend(id))
    case RequestSend(_) => if sendOk then Resume(w, k, RequestEnter(id)) else Finish(w, k)
    case RequestEnter(_) => Finish(Change(w, id, PairRequested), k)
  }

  /** A peer's pair packet is handled up to its first lock-held region. */
  ghost function Received(w: World, never: bool, p: Step): World
    requires p.PeerPair? && Known(w, p.id)
  {
    match w.core.states[p.id]
    case PairRequested => Spawn(w, Confirm(p.id))
    case PairRequestedByPeer => w
    case state =>
      if state != Unknown && never then w
      else if !ValidRequestTimestamp(p.timestamp, p.peerVersion, p.now) then w
      else Spawn(w, StartIncoming(p.id))
  }

  /** One step of the system; a step that is not enabled changes nothing. */
  ghost function Next(w: World, never: bool, p: Step): World {
    match p
    case PeerPair(id, _, _, _) => if Known(w, id) then Received(w, never, p) else w
    case PeerUnpair(id) =>
      if Known(w, id) && (Pending(w.core.states[id]) || w.core.states[id] == Paired) then Spawn(w, Drop(id)) else w
    case LocalAccept(id) => if Known(w, id) then Spawn(w, AcceptStart(id)) else w
    case LocalRequest(id) => if Known(w, id) && w.core.states[id] != Paired then Spawn(w, RequestRecheck(id)) else w
    case LocalDrop(id) => if Known(w, id) then Spawn(w, Drop(id)) else w
    case Fire(t) =>
      if t in w.core.scheduled && Known(w, t.dev) && Expired(w.core, t) != w.core
      then Commit(w, t.dev, Expired(w.core, t)) else w
    case Advance(k, sendOk) => if k in w.tasks && Known(w, w.tasks[k].id) then Advanced(w, k, sendOk) else w
    case CallPaired(id) =>
      if Known(w, id) && w.owed[id].paired > 0 then
        w.(owed := w.owed[id := w.owed[id].(paired := w.owed[id].paired - 1)],
           made := w.made[id := w.made[id].(paired := w.made[id].paired + 1)])
      else w
    case CallUnpaired(id) =>
      if Known(w, id) && w.owed[id].unpaired > 0 then
        w.(owed := w.owed[id := w.owed[id].(unpaired := w.owed[id].unpaired - 1)],
           made := w.made[id := w.made[id].(unpaired := w.made[id].unpaired + 1)])
      else w
  }

  ghost function Run(w: World, never: bool, steps: seq<Step>): World
    decreases |steps|
  {
    if steps == [] then w else Next(Run(w, never, steps[..|steps| - 1]), never, steps[|steps| - 1])
  }

  /** The daemon has just loaded its registry: requests do not survive a restart. */
  ghost predicate Start(w: World) {
    && w.tasks == map[] && w.stamps == map[]
    && w.core.pendingTimers == map[] && w.core.pendingGeneration == map[] && w.core.scheduled == {}
    && w.touches.Keys == w.owed.Keys == w.made.Keys == w.core.states.Keys
    && (forall id | id in w.core.states :: !Pending(w.core.states[id]))
    && (forall id | id in w.owed :: w.owed[id] == Calls(0, 0) && w.made[id] == Calls(0, 0))
  }

  // ---------- The invariant ----------

  ghost predicate Live(c: Core, t: Timer) {
    t.dev in c.pendingGeneration && c.pendingGeneration[t.dev] == t.generation
  }

  /** A live generation belongs to the device's present pending state. */
  ghost predicate TimersOk(c: Core) {
    && c.pendingTimers.Keys == c.pendingGeneration.Keys
    && (forall id | id in c.pendingGeneration ::
          && id in c.states && Pending(c.states[id])
          && c.pendingTimers[id] == Timer(id, c.states[id], c.pendingGeneration[id])
          && c.pendingTimers[id] in c.scheduled)
    && (forall t | t in c.scheduled :: t.dev in c.states && t.generation <= c.nextGeneration)
    && (forall t, u | t in c.scheduled && u in c.scheduled :: t.generation == u.generation ==> t == u)
  }

  /** An accept works on the pending state it read. */
  predicate PendingTask(t: Task) {
    t.AcceptStop? || t.AcceptSend? || t.AcceptFailed? || t.AcceptFinish? ==> Pending(t.state)
  }

  ghost predicate Shaped(w: World) {
    && w.touches.Keys == w.owed.Keys == w.made.Keys == w.core.states.Keys
    && (forall k | k in w.tasks :: k < w.nextTask && w.tasks[k].id in w.core.states && PendingTask(w.tasks[k]))
  }

  /** A timer is live exactly while its device is untouched since it was scheduled. */
  ghost predicate StampsOk(w: World) {
    forall t | t in w.core.scheduled ::
      && t.dev in w.touches && t.generation in w.stamps && w.stamps[t.generation] <= w.touches[t.dev]
      && (Live(w.core, t) <==> w.stamps[t.generation] == w.touches[t.dev])
  }

  predicate Covers(t: Task, id: DeviceId, s: PairingState) {
    (t.AcceptSend? || t.AcceptFailed? || t.AcceptFinish?) && t.id == id && t.state == s
  }

  /** A pending device without a live timer has an accept in flight. */
  ghost predicate Guarded(w: World, id: DeviceId)
    requires id in w.core.states
  {
    Pending(w.core.states[id]) && id !in w.core.pendingGeneration ==>
      exists k :: k in w.tasks && Covers(w.tasks[k], id, w.core.states[id])
  }

  ghost predicate Inv(w: World) {
    && Shaped(w) && TimersOk(w.core) && StampsOk(w)
    && forall id | id in w.core.states :: Guarded(w, id)
  }

  lemma EnteredShape(c: Core, id: DeviceId, next: PairingState)
    requires id in c.states
    ensures Entered(c, id, next).states == c.states[id := next]
    ensures Entered(c, id, next).pendingGeneration.Keys
            == if Pending(next) then c.pendingGeneration.Keys + {id} else c.pendingGeneration.Keys - {id}
  {
  }

  lemma ScheduledTimersOk(c: Core, id: DeviceId, next: PairingState)
    requires TimersOk(c) && id in c.states && c.states[id] == next && Pending(next)
    ensures TimersOk(Scheduled(c, id, next))
  {
    var c' := Scheduled(c, id, next);
    assert forall t | t in c.scheduled :: t.generation <= c.nextGeneration;
    forall t, u | t in c'.scheduled && u in c'.scheduled && t.generation == u.generation ensures t == u {
    }
    forall d | d in c'.pendingGeneration
      ensures d in c'.pendingTimers && c'.pendingTimers[d] in c'.scheduled
    {
      if d != id { assert c.pendingTimers[d] in c.scheduled; }
    }
  }

  lemma EnteredTimersOk(c: Core, id: DeviceId, next: PairingState)
    requires TimersOk(c) && id in c.states
    ensures TimersOk(Entered(c, id, next))
  {
    var c1 := Cancelled(c, id).(states := c.states[id := next]);
    assert TimersOk(c1);
    if Pending(next) {
      hide TimersOk;
      ScheduledTimersOk(c1, id, next);
    }
  }

  lemma EnteredLive(c: Core, id: DeviceId, next: PairingState, t: Timer)
    ensures t.dev != id ==> (Live(Entered(c, id, next), t) <==> Live(c, t))
    ensures t.dev == id ==> (Live(Entered(c, id, next), t) <==> Pending(next) && t.generation == c.nextGeneration + 1)
    ensures t in Entered(c, id, next).scheduled && t !in c.scheduled ==>
              Pending(next) && t == Timer(id, next, c.nextGeneration + 1)
    ensures Entered(c, id, next).nextGeneration == if Pending(next) then c.nextGeneration + 1 else c.nextGeneration
  {
  }

  lemma EnteredStampsOk(w: World, id: DeviceId, next: PairingState)
    requires Known(w, id) && TimersOk(w.core) && StampsOk(w)
    ensures StampsOk(Commit(w, id, Entered(w.core, id, next)))
  {
    var c, w' := w.core, Commit(w, id, Entered(w.core, id, next));
    assert forall t | t in c.scheduled :: t.generation <= c.nextGeneration;
    hide TimersOk;
    forall t | t in w'.core.scheduled
      ensures && t.dev in w'.touches && t.generation in w'.stamps && w'.stamps[t.generation] <= w'.touches[t.dev]
              && (Live(w'.core, t) <==> w'.stamps[t.generation] == w'.touches[t.dev])
    {
      EnteredLive(c, id, next, t);
      hide Entered;
      hide Live;
      if t in c.scheduled {
        assert w.stamps[t.generation] <= w.touches[t.dev];
      }
    }
  }

  lemma CommitShaped(w: World, id: DeviceId, core': Core)
    requires Shaped(w) && id in w.core.states && core'.states.Keys == w.core.states.Keys
    ensures Known(w, id) && Shaped(Commit(w, id, core'))
  {
  }

  lemma EnterKeeps(w: World, id: DeviceId, next: PairingState)
    requires Inv(w) && id in w.core.states
    ensures Known(w, id) && Inv(Commit(w, id, Entered(w.core, id, next)))
  {
    EnteredShape(w.core, id, next);
    CommitShaped(w, id, Entered(w.core, id, next));
    EnteredTimersOk(w.core, id, next);
    EnteredStampsOk(w, id, next);
    assert w.nextTask !in w.tasks;
    hide TimersOk;
    hide StampsOk;
    hide Shaped;
    hide Entered;
    hide Guarded;
    hide Known;
    hide Owe;
    var w' := Commit(w, id, Entered(w.core, id, next));
    forall d | d in w'.core.states ensures Guarded(w', d) {
      EnterGuards(w, w', id, next, d);
    }
  }

  lemma EnterGuards(w: World, w': World, id: DeviceId, next: PairingState, d: DeviceId)
    requires id in w.core.states && d in w.core.states && Guarded(w, d)
    requires w.nextTask !in w.tasks && w'.tasks == w.tasks && w'.core == Entered(w.core, id, next)
    ensures Guarded(w', d)
  {
    EnteredShape(w.core, id, next);
    hide Entered;
    if d == id {
      assert w'.core.states[id] == next;
    } else {
      StillGuarded(w, w', d, w.nextTask);
    }
  }

  lemma StoppedTimersOk(w: World, id: DeviceId)
    requires Known(w, id) && TimersOk(w.core) && StampsOk(w)
    ensures TimersOk(Cancelled(w.core, id)) && StampsOk(Commit(w, id, Cancelled(w.core, id)))
  {
    var w' := Commit(w, id, Cancelled(w.core, id));
    forall t | t in w'.core.scheduled
      ensures Live(w'.core, t) <==> w'.stamps[t.generation] == w'.touches[t.dev]
    {
      assert w.stamps[t.generation] <= w.touches[t.dev];
      assert t.dev != id ==> (Live(w'.core, t) <==> Live(w.core, t));
    }
  }

  lemma StopKeeps(w: World, id: DeviceId, k: nat)
    requires Inv(w) && k in w.tasks && id in w.core.states && w.tasks[k] == AcceptStop(id, w.core.states[id])
    ensures Inv(Resume(Commit(w, id, Cancelled(w.core, id)), k, AcceptSend(id, w.core.states[id])))
  {
    StoppedTimersOk(w, id);
    CommitShaped(w, id, Cancelled(w.core, id));
    var w1 := Commit(w, id, Cancelled(w.core, id));
    var w' := Resume(w1, k, AcceptSend(id, w.core.states[id]));
    StampsOfCore(w1, w');
    assert Shaped(w');
    hide TimersOk;
    hide StampsOk;
    hide Shaped;
    hide Guarded;
    forall d | d in w'.core.states ensures Guarded(w', d) {
      StopGuards(w, w', id, k, d);
    }
  }

  lemma StopGuards(w: World, w': World, id: DeviceId, k: nat, d: DeviceId)
    requires id in w.core.states && d in w.core.states && Guarded(w, d)
    requires k in w.tasks && w.tasks[k] == AcceptStop(id, w.core.states[id])
    requires w'.core == Cancelled(w.core, id) && w'.tasks == w.tasks[k := AcceptSend(id, w.core.states[id])]
    ensures Guarded(w', d)
  {
    if d == id {
      assert Covers(w'.tasks[k], id, w.core.states[id]);
    } else {
      StillGuarded(w, w', d, k);
    }
  }

  /** The stamps say nothing about tasks and callbacks. */
  lemma StampsOfCore(w: World, w': World)
    requires StampsOk(w) && w'.core == w.core && w'.stamps == w.stamps && w'.touches == w.touches
    ensures StampsOk(w')
  {
  }

  /** Replacing or removing a task that does not cover `d` leaves `d` guarded. */
  lemma StillGuarded(w: World, w': World, d: DeviceId, k: nat)
    requires d in w.core.states && Guarded(w, d)
    requires d in w'.core.states && w'.core.states[d] == w.core.states[d]
    requires d in w.core.pendingGeneration ==> d in w'.core.pendingGeneration
    requires k in w.tasks ==> !Covers(w.tasks[k], d, w.core.states[d])
    requires forall j | j in w.tasks && j != k :: j in w'.tasks && w'.tasks[j] == w.tasks[j]
    ensures Guarded(w', d)
  {
    if Pending(w.core.states[d]) && d !in w'.core.pendingGeneration {
      var j :| j in w.tasks && Covers(w.tasks[j], d, w.core.states[d]);
      assert j in w'.tasks && Covers(w'.tasks[j], d, w'.core.states[d]);
    }
  }

  /** A task ends or moves on, the core as it is. */
  lemma TaskMoves(w: World, w': World, k: nat)
    requires Inv(w) && k in w.tasks
    requires w' == Finish(w, k)
             || (k in w'.tasks && w' == Resume(w, k, w'.tasks[k]) && w'.tasks[k].id == w.tasks[k].id
                 && PendingTask(w'.tasks[k]))
    requires var t := w.tasks[k];
             (t.AcceptSend? || t.AcceptFailed? || t.AcceptFinish?) && Pending(w.core.states[t.id])
                 && w.core.states[t.id] == t.state ==>
               t.id in w.core.pendingGeneration || (k in w'.tasks && Covers(w'.tasks[k], t.id, t.state))
    ensures Inv(w')
  {
    StampsOfCore(w, w');
    hide TimersOk;
    hide StampsOk;
    forall d | d in w'.core.states ensures Guarded(w', d) {
      if Covers(w.tasks[k], d, w.core.states[d]) {
      } else {
        StillGuarded(w, w', d, k);
      }
    }
  }

  lemma SpawnKeeps(w: World, t: Task)
    requires Inv(w) && t.id in w.core.states && PendingTask(t)
    ensures Inv(Spawn(w, t))
  {
    StampsOfCore(w, Spawn(w, t));
    hide TimersOk;
    hide StampsOk;
    forall d | d in w.core.states ensures Guarded(Spawn(w, t), d) {
      StillGuarded(w, Spawn(w, t), d, w.nextTask);
    }
  }

  lemma ChangeKeeps(w: World, id: DeviceId, next: PairingState)
    requires Inv(w) && id in w.core.states
    ensures Inv(Change(w, id, next)) && Change(w, id, next).tasks == w.tasks
    ensures Change(w, id, next).core.states == w.core.states[id := next]
  {
    hide TimersOk;
    hide StampsOk;
    EnterKeeps(w, id, next);
    assert w.core.states[id] == next ==> w.core.states == w.core.states[id := next];
  }

  lemma CompleteKeeps(w: World, id: DeviceId)
    requires Inv(w) && id in w.core.states
    ensures Inv(Complete(w, id)) && Complete(w, id).tasks == w.tasks
    ensures Complete(w, id).core.states.Keys == w.core.states.Keys && !Pending(Complete(w, id).core.states[id])
  {
    hide TimersOk;
    hide StampsOk;
    EnterKeeps(w, id, Paired);
  }

  lemma AdvanceKeeps(w: World, k: nat, sendOk: bool)
    requires Inv(w) && k in w.tasks
    ensures Inv(Advanced(w, k, sendOk))
  {
    hide TimersOk;
    hide StampsOk;
    hide Commit;
    hide Guarded;
    var id := w.tasks[k].id;
    match w.tasks[k]
    case StartIncoming(_) =>
      ChangeKeeps(w, id, PairRequestedByPeer);
      TaskMoves(Change(w, id, PairRequestedByPeer), Advanced(w, k, sendOk), k);
    case Drop(_) =>
      ChangeKeeps(w, id, Unpaired);
      TaskMoves(Change(w, id, Unpaired), Advanced(w, k, sendOk), k);
    case RequestEnter(_) =>
      ChangeKeeps(w, id, PairRequested);
      TaskMoves(Change(w, id, PairRequested), Advanced(w, k, sendOk), k);
    case Confirm(_) =>
      CompleteKeeps(w, id);
      TaskMoves(Complete(w, id), Advanced(w, k, sendOk), k);
    case AcceptFinish(_, _) =>
      CompleteKeeps(w, id);
      TaskMoves(Complete(w, id), Advanced(w, k, sendOk), k);
    case AcceptFailed(_, s) =>
      AcceptFailedKeeps(w, k);
    case AcceptStop(_, s) =>
      if w.core.states[id] == s { StopKeeps(w, id, k); } else { TaskMoves(w, Advanced(w, k, sendOk), k); }
    case _ =>
      TaskMoves(w, Advanced(w, k, sendOk), k);
  }

  lemma AcceptFailedKeeps(w: World, k: nat)
    requires Inv(w) && k in w.tasks && w.tasks[k].AcceptFailed?
    ensures Inv(Advanced(w, k, false))
  {
    hide TimersOk;
    hide StampsOk;
    hide Guarded;
    var id, s := w.tasks[k].id, w.tasks[k].state;
    if w.core.states[id] == s {
      EnterKeeps(w, id, Unpaired);
      TaskMoves(Commit(w, id, Entered(w.core, id, Unpaired)), Advanced(w, k, false), k);
    } else {
      TaskMoves(w, Advanced(w, k, false), k);
    }
  }

  lemma ReceivedKeeps(w: World, never: bool, p: Step)
    requires Inv(w) && p.PeerPair? && Known(w, p.id)
    ensures Inv(Received(w, never, p))
  {
    SpawnKeeps(w, Confirm(p.id));
    SpawnKeeps(w, StartIncoming(p.id));
    hide Inv;
  }

  lemma NextKeeps(w: World, never: bool, p: Step)
    requires Inv(w)
    ensures Inv(Next(w, never, p))
  {
    hide Commit;
    hide Advanced;
    hide Received;
    hide TimersOk;
    hide StampsOk;
    hide Guarded;
    match p
    case PeerPair(id, _, _, _) => if Known(w, id) { ReceivedKeeps(w, never, p); }
    case PeerUnpair(id) => if Known(w, id) { SpawnKeeps(w, Drop(id)); }
    case LocalAccept(id) => if Known(w, id) { SpawnKeeps(w, AcceptStart(id)); }
    case LocalRequest(id) => if Known(w, id) { SpawnKeeps(w, RequestRecheck(id)); }
    case LocalDrop(id) => if Known(w, id) { SpawnKeeps(w, Drop(id)); }
    case Fire(t) => if t in w.core.scheduled { FireKeeps(w, t); }
    case Advance(k, sendOk) => if k in w.tasks { AdvanceKeeps(w, k, sendOk); }
    case CallPaired(id) => CallsKeep(w, Next(w, never, p));
    case CallUnpaired(id) => CallsKeep(w, Next(w, never, p));
  }

  lemma CallsKeep(w: World, w': World)
    requires Inv(w) && w'.core == w.core && w'.stamps == w.stamps && w'.touches == w.touches
    requires w'.tasks == w.tasks && w'.nextTask == w.nextTask
    requires w'.owed.Keys == w.owed.Keys && w'.made.Keys == w.made.Keys
    ensures Inv(w')
  {
    StampsOfCore(w, w');
    hide TimersOk;
    hide StampsOk;
    forall d | d in w'.core.states ensures Guarded(w', d) {
      assert Guarded(w, d);
    }
  }

  lemma FireKeeps(w: World, t: Timer)
    requires Inv(w) && t in w.core.scheduled
    ensures Expired(w.core, t) == if Live(w.core, t) then Entered(w.core, t.dev, Unpaired) else w.core
    ensures Live(w.core, t) ==> w.core.states[t.dev] == t.expected && Pending(t.expected)
    ensures Inv(Next(w, false, Fire(t)))
  {
    assert t.dev in w.core.states;
    if Live(w.core, t) {
      assert w.core.pendingTimers[t.dev] == t;
      EnterKeeps(w, t.dev, Unpaired);
    }
  }

  lemma {:induction false} RunKeeps(w: World, never: bool, steps: seq<Step>)
    requires Start(w)
    ensures Inv(Run(w, never, steps))
    decreases |steps|
  {
    if steps != [] {
      RunKeeps(w, never, steps[..|steps| - 1]);
      NextKeeps(Run(w, never, steps[..|steps| - 1]), never, steps[|steps| - 1]);
    }
  }
}
