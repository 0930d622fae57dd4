/** What every run of the pairing plugin guarantees. */
module PairingProperties {
  import opened Pairing
  import opened PairingRuns

  /** Step `p` is an accept stopping the timer of device `id`. */
  ghost predicate StopsTimer(w: World, p: Step, id: DeviceId) {
    id in w.core.states && p.Advance? && p.k in w.tasks && w.tasks[p.k] == AcceptStop(id, w.core.states[id])
  }

  /** Step `p` changes the state of device `id`, or is an accept stopping its timer. */
  ghost predicate Touches(w: World, never: bool, p: Step, id: DeviceId) {
    id in w.core.states && id in Next(w, never, p).core.states
    && (Next(w, never, p).core.states[id] != w.core.states[id] || StopsTimer(w, p, id))
  }

  ghost predicate SameSums(w: World, w': World) {
    && w'.owed.Keys == w.owed.Keys && w'.made.Keys == w.made.Keys
    && (forall d | d in w.owed && d in w.made ::
          && w'.owed[d].paired + w'.made[d].paired == w.owed[d].paired + w.made[d].paired
          && w'.owed[d].unpaired + w'.made[d].unpaired == w.owed[d].unpaired + w.made[d].unpaired)
  }

  /** Nothing the mutex guards changed. */
  ghost predicate Quiet(w: World, w': World) {
    w'.core == w.core && w'.touches == w.touches && w'.stamps == w.stamps && SameSums(w, w')
  }

  /** Device `id` was committed to a new state, or (`stops`) had its timer stopped. */
  ghost predicate Committed(w: World, w': World, id: DeviceId, stops: bool) {
    && Known(w, id) && id in w'.core.states
    && w' == Commit(w, id, w'.core).(tasks := w'.tasks)
    && (if stops then w'.core == Cancelled(w.core, id)
        else w'.core == Entered(w.core, id, w'.core.states[id]) && w'.core.states[id] != w.core.states[id])
  }

  lemma ChangeEffect(w: World, id: DeviceId, next: PairingState, tasks: map<nat, Task>)
    requires Known(w, id) && w.core.states[id] != next
    ensures Committed(w, Change(w, id, next).(tasks := tasks), id, false)
  {
    EnteredShape(w.core, id, next);
    hide Entered;
    hide Owe;
  }

  lemma CompleteEffect(w: World, id: DeviceId, tasks: map<nat, Task>)
    requires Known(w, id) && Pending(w.core.states[id])
    ensures Committed(w, Complete(w, id).(tasks := tasks), id, false)
  {
    hide Owe;
  }

  lemma AdvanceEffect(w: World, k: nat, sendOk: bool) returns (touched: bool)
    requires Shaped(w) && k in w.tasks
    ensures var id, w' := w.tasks[k].id, Advanced(w, k, sendOk);
            var stops := w.tasks[k] == AcceptStop(id, w.core.states[id]);
            if touched then Committed(w, w', id, stops) else Quiet(w, w') && !stops
  {
    hide Committed;
    hide Change;
    hide Complete;
    hide Commit;
    var id, tasks := w.tasks[k].id, Advanced(w, k, sendOk).tasks;
    var state := w.core.states[id];
    touched := true;
    match w.tasks[k]
    case StartIncoming(_) => touched := ChangeMaybe(w, id, PairRequestedByPeer, tasks);
    case Drop(_) => touched := ChangeMaybe(w, id, Unpaired, tasks);
    case RequestEnter(_) => touched := ChangeMaybe(w, id, PairRequested, tasks);
    case Confirm(_) => touched := CompleteMaybe(w, id, tasks);
    case AcceptFinish(_, _) => touched := CompleteMaybe(w, id, tasks);
    case AcceptFailed(_, s) =>
      if state == s { FailEffect(w, id, tasks); } else { touched := false; }
    case AcceptStop(_, s) =>
      if state == s { StopEffect(w, id, tasks); } else { touched := false; }
    case _ => touched := false;
  }

  lemma ChangeMaybe(w: World, id: DeviceId, next: PairingState, tasks: map<nat, Task>) returns (touched: bool)
    requires Known(w, id)
    ensures var w' := Change(w, id, next).(tasks := tasks);
            if touched then Committed(w, w', id, false) else Quiet(w, w')
  {
    touched := w.core.states[id] != next;
    if touched { ChangeEffect(w, id, next, tasks); }
  }

  lemma CompleteMaybe(w: World, id: DeviceId, tasks: map<nat, Task>) returns (touched: bool)
    requires Known(w, id)
    ensures var w' := Complete(w, id).(tasks := tasks);
            if touched then Committed(w, w', id, false) else Quiet(w, w')
  {
    touched := Pending(w.core.states[id]);
    if touched { CompleteEffect(w, id, tasks); }
  }

  lemma FailEffect(w: World, id: DeviceId, tasks: map<nat, Task>)
    requires Known(w, id) && Pending(w.core.states[id])
    ensures Committed(w, Commit(w, id, ChangedFrom(w.core, id, w.core.states[id], Unpaired)).(tasks := tasks),
                      id, false)
  {
    hide Owe;
  }

  lemma StopEffect(w: World, id: DeviceId, tasks: map<nat, Task>)
    requires Known(w, id)
    ensures Committed(w, Commit(w, id, Stopped(w.core, id, w.core.states[id])).(tasks := tasks), id, true)
  {
    hide Owe;
  }

  lemma FireEffect(w: World, t: Timer)
    requires Inv(w) && t in w.core.scheduled
    ensures var w' := Next(w, false, Fire(t));
            if Live(w.core, t) then Committed(w, w', t.dev, false) else w' == w
  {
    FireKeeps(w, t);
    hide Owe;
    if Live(w.core, t) {
      assert Entered(w.core, t.dev, Unpaired).states[t.dev] == Unpaired;
    }
  }

  /** A step commits one change to one device, or leaves the core as it is. */
  lemma StepEffect(w: World, never: bool, p: Step) returns (touched: bool, id: DeviceId)
    requires Inv(w)
    ensures if touched then Committed(w, Next(w, never, p), id, StopsTimer(w, p, id)) else Quiet(w, Next(w, never, p))
    ensures forall d | StopsTimer(w, p, d) :: touched && d == id
  {
    hide Committed;
    hide Commit;
    hide Advanced;
    hide TimersOk;
    hide StampsOk;
    hide Guarded;
    touched, id := false, "";
    match p
    case Fire(t) =>
      if t in w.core.scheduled {
        FireEffect(w, t);
        touched, id := Live(w.core, t), t.dev;
        hide Expired;
      }
    case Advance(k, sendOk) =>
      if k in w.tasks {
        id := w.tasks[k].id;
        touched := AdvanceEffect(w, k, sendOk);
      }
    case _ => OtherEffect(w, never, p);
  }

  lemma OtherEffect(w: World, never: bool, p: Step)
    requires !p.Fire? && !p.Advance?
    ensures Quiet(w, Next(w, never, p))
  {
    hide Quiet;
    match p
    case CallPaired(id) => CallEffect(w, never, p);
    case CallUnpaired(id) => CallEffect(w, never, p);
    case _ => QuietTasks(w, Next(w, never, p));
  }

  lemma QuietTasks(w: World, w': World)
    requires w' == w.(tasks := w'.tasks, nextTask := w'.nextTask)
    ensures Quiet(w, w')
  {
  }

  lemma CallEffect(w: World, never: bool, p: Step)
    requires p.CallPaired? || p.CallUnpaired?
    ensures Quiet(w, Next(w, never, p))
  {
  }

  // ---------- Timers ----------

  ghost function StampOf(w: World, t: Timer): int {
    if t.generation in w.stamps then w.stamps[t.generation] else -1
  }

  ghost function Count(w: World, id: DeviceId): int {
    if id in w.touches then w.touches[id] else 0
  }

  /** From `w` to `w'` timer `t` kept its stamp; its device was touched `hits` times. */
  ghost predicate Aged(w: World, w': World, t: Timer, hits: int) {
    t in w'.core.scheduled && StampOf(w', t) == StampOf(w, t) && Count(w', t.dev) == Count(w, t.dev) + hits
  }

  lemma CommittedAges(w: World, w': World, id: DeviceId, stops: bool, t: Timer)
    requires TimersOk(w.core) && Committed(w, w', id, stops) && t in w.core.scheduled
    ensures Aged(w, w', t, if t.dev == id then 1 else 0)
  {
    assert t.generation <= w.core.nextGeneration;
    EnteredLive(w.core, id, w'.core.states[id], t);
    hide TimersOk;
    hide Owe;
  }

  lemma CommittedStates(w: World, w': World, id: DeviceId, stops: bool)
    requires Committed(w, w', id, stops)
    ensures w'.core.states == w.core.states[id := w'.core.states[id]]
    ensures w'.core.states[id] != w.core.states[id] <==> !stops
  {
    EnteredShape(w.core, id, w'.core.states[id]);
    hide Entered;
    hide Commit;
  }

  /** Scheduled timers keep their stamp, and a device's count only moves when it is touched. */
  lemma StepAges(w: World, never: bool, p: Step, t: Timer)
    requires Inv(w) && t in w.core.scheduled
    ensures Aged(w, Next(w, never, p), t, if Touches(w, never, p, t.dev) then 1 else 0)
  {
    assert t.dev in w.core.states;
    hide Next;
    hide Inv;
    assert TimersOk(w.core) by { InvTimers(w); }
    var touched, id := StepEffect(w, never, p);
    if touched {
      CommittedAges(w, Next(w, never, p), id, StopsTimer(w, p, id), t);
      CommittedStates(w, Next(w, never, p), id, StopsTimer(w, p, id));
      hide Committed;
      hide StopsTimer;
    }
  }

  lemma InvTimers(w: World)
    requires Inv(w)
    ensures TimersOk(w.core) && StampsOk(w) && Shaped(w)
  {
  }

  /** None of the steps from `i` on touches device `id`. */
  ghost predicate Untouched(w0: World, never: bool, steps: seq<Step>, i: nat, id: DeviceId)
  {
    forall j | i <= j < |steps| :: !Touches(Run(w0, never, steps[..j]), never, steps[j], id)
  }

  lemma UntouchedSnoc(w0: World, never: bool, steps: seq<Step>, i: nat, id: DeviceId)
    requires i < |steps|
    ensures var front := steps[..|steps| - 1];
            Untouched(w0, never, steps, i, id) <==>
            Untouched(w0, never, front, i, id) && !Touches(Run(w0, never, front), never, steps[|steps| - 1], id)
  {
    hide Touches;
    hide Run;
    var front := steps[..|steps| - 1];
    assert forall j | i <= j < |front| :: front[..j] == steps[..j] && front[j] == steps[j];
    if Untouched(w0, never, steps, i, id) {
      var j := |steps| - 1;
      assert !Touches(Run(w0, never, steps[..j]), never, steps[j], id);
      forall j | i <= j < |front| ensures !Touches(Run(w0, never, front[..j]), never, front[j], id) {
        assert !Touches(Run(w0, never, steps[..j]), never, steps[j], id);
      }
    }
  }

  lemma {:induction false} AgedOverRun(w0: World, never: bool, steps: seq<Step>, i: nat, t: Timer) returns (hits: nat)
    requires Start(w0) && i <= |steps| && t in Run(w0, never, steps[..i]).core.scheduled
    ensures Aged(Run(w0, never, steps[..i]), Run(w0, never, steps), t, hits)
    ensures hits == 0 <==> Untouched(w0, never, steps, i, t.dev)
    decreases |steps|
  {
    if i == |steps| {
      assert steps[..i] == steps;
      hits := 0;
    } else {
      var front := steps[..|steps| - 1];
      assert front[..i] == steps[..i];
      hits := AgedOverRun(w0, never, front, i, t);
      RunKeeps(w0, never, front);
      StepAges(Run(w0, never, front), never, steps[|steps| - 1], t);
      UntouchedSnoc(w0, never, steps, i, t.dev);
      hide Next;
      hide Touches;
      hide Inv;
      hide StampOf;
      hide Count;
      if Touches(Run(w0, never, front), never, steps[|steps| - 1], t.dev) { hits := hits + 1; }
    }
  }

  /**
   Timer `t` was scheduled by step `i`. After any later steps its callback has an
   effect exactly if none of them touched its device, and the effect is then to
   send the device from the pending state it was scheduled for to Unpaired.
   */
  lemma TimerActsIffUntouched(w0: World, never: bool, steps: seq<Step>, i: nat, t: Timer)
    requires Start(w0) && i < |steps|
    requires t !in Run(w0, never, steps[..i]).core.scheduled && t in Run(w0, never, steps[..i + 1]).core.scheduled
    ensures var c := Run(w0, never, steps).core;
            && (Expired(c, t) != c <==> Untouched(w0, never, steps, i + 1, t.dev))
            && (Expired(c, t) != c ==>
                  t.dev in c.states && c.states[t.dev] == t.expected && Pending(t.expected)
                  && Expired(c, t).states == c.states[t.dev := Unpaired])
  {
    hide Next;
    var w1, w := Run(w0, never, steps[..i + 1]), Run(w0, never, steps);
    var hits := AgedOverRun(w0, never, steps, i + 1, t);
    RunKeeps(w0, never, steps);
    RunKeeps(w0, never, steps[..i]);
    assert steps[..i + 1][..i] == steps[..i];
    NewTimerIsStamped(Run(w0, never, steps[..i]), never, steps[i], t);
    hide Run;
    InvTimers(w);
    hide Inv;
    FireKeeps(w, t);
    assert Live(w.core, t) <==> StampOf(w, t) == Count(w, t.dev);
  }

  /** So firing it then does just that, and clears the device's entries, or does nothing. */
  lemma TimerFires(w0: World, never: bool, steps: seq<Step>, i: nat, t: Timer)
    requires Start(w0) && i < |steps|
    requires t !in Run(w0, never, steps[..i]).core.scheduled && t in Run(w0, never, steps[..i + 1]).core.scheduled
    ensures var c, c' := Run(w0, never, steps).core, Run(w0, never, steps + [Fire(t)]).core;
            if Untouched(w0, never, steps, i + 1, t.dev) then
              && t.dev in c.states && c.states[t.dev] == t.expected
              && c' == c.(states := c.states[t.dev := Unpaired], pendingTimers := c.pendingTimers - {t.dev},
                          pendingGeneration := c.pendingGeneration - {t.dev})
            else c' == c
  {
    assert (steps + [Fire(t)])[..|steps|] == steps;
    var w := Run(w0, never, steps);
    assert Run(w0, never, steps + [Fire(t)]) == Next(w, never, Fire(t));
    StillScheduled(w0, never, steps, i, t);
    hide Run;
    hide Next;
    TimerActsIffUntouched(w0, never, steps, i, t);
    hide Untouched;
    FireExactly(w, never, t);
    hide Expired;
  }

  lemma StillScheduled(w0: World, never: bool, steps: seq<Step>, i: nat, t: Timer)
    requires Start(w0) && i < |steps| && t in Run(w0, never, steps[..i + 1]).core.scheduled
    ensures t in Run(w0, never, steps).core.scheduled && Known(Run(w0, never, steps), t.dev)
  {
    hide Run;
    hide Next;
    var hits := AgedOverRun(w0, never, steps, i + 1, t);
    RunKeeps(w0, never, steps);
    InvTimers(Run(w0, never, steps));
    hide Inv;
    hide StampsOk;
  }

  /** A callback either has no effect or sends its device to Unpaired and clears its entries. */
  lemma FireExactly(w: World, never: bool, t: Timer)
    ensures Next(w, never, Fire(t)).core
            == if t in w.core.scheduled && Known(w, t.dev) then Expired(w.core, t) else w.core
    ensures var c := w.core;
            t.dev in c.states && c.states[t.dev] == t.expected && Expired(c, t) != c ==>
              Expired(c, t) == c.(states := c.states[t.dev := Unpaired], pendingTimers := c.pendingTimers - {t.dev},
                                  pendingGeneration := c.pendingGeneration - {t.dev})
  {
  }

  lemma NewTimerIsStamped(w: World, never: bool, p: Step, t: Timer)
    requires Inv(w) && t !in w.core.scheduled && t in Next(w, never, p).core.scheduled
    ensures StampOf(Next(w, never, p), t) == Count(Next(w, never, p), t.dev) > 0
  {
    hide Next;
    hide Inv;
    var w' := Next(w, never, p);
    var touched, id := StepEffect(w, never, p);
    if touched {
      EnteredLive(w.core, id, w'.core.states[id], t);
      hide Owe;
    }
  }

  /** A pending device has a live timer for just that state, or an accept in flight. */
  lemma PendingIsGuarded(w0: World, never: bool, steps: seq<Step>, id: DeviceId)
    requires Start(w0)
    requires id in Run(w0, never, steps).core.states && Pending(Run(w0, never, steps).core.states[id])
    ensures var w := Run(w0, never, steps);
            (exists t :: t in w.core.scheduled && Live(w.core, t) && t.dev == id && t.expected == w.core.states[id])
            || (exists k :: k in w.tasks && Covers(w.tasks[k], id, w.core.states[id]))
  {
    var w := Run(w0, never, steps);
    RunKeeps(w0, never, steps);
    hide Run;
    assert Guarded(w, id);
    if id in w.core.pendingGeneration {
      assert Live(w.core, w.core.pendingTimers[id]);
    }
  }

  // ---------- Pairing ----------

  /** A device becomes paired only out of a pending state. */
  lemma PairedOnlyFromPending(w: World, never: bool, p: Step, id: DeviceId)
    requires Inv(w) && id in w.core.states
    ensures var w' := Next(w, never, p);
            id in w'.core.states && (w'.core.states[id] == Paired != w.core.states[id] ==>
              && Pending(w.core.states[id]) && p.Advance? && p.k in w.tasks
              && w.tasks[p.k].id == id && (w.tasks[p.k].Confirm? || w.tasks[p.k].AcceptFinish?))
  {
    KnownStays(w, never, p, id);
    hide Guarded;
    hide StampsOk;
    hide Advanced;
    hide Entered;
    match p
    case Fire(t) => FireNeverPairs(w, never, t, id);
    case Advance(k, sendOk) =>
      if k in w.tasks { AdvanceToPaired(w, k, sendOk, id); }
    case _ => OtherEffect(w, never, p);
  }

  lemma FireNeverPairs(w: World, never: bool, t: Timer, id: DeviceId)
    requires Inv(w) && id in w.core.states && id in Next(w, never, Fire(t)).core.states
    ensures Next(w, never, Fire(t)).core.states[id] == Paired ==> w.core.states[id] == Paired
  {
    hide Inv;
    hide Expired;
    hide Entered;
    hide Live;
    hide Next;
    FireExactly(w, never, t);
    if t in w.core.scheduled && Known(w, t.dev) {
      FireKeeps(w, t);
      EnteredShape(w.core, t.dev, Unpaired);
    }
  }

  /** The state device `t.id` is in once task `t` has moved on. */
  function StateAfter(t: Task, s: PairingState): PairingState {
    match t
    case StartIncoming(_) => PairRequestedByPeer
    case Drop(_) => Unpaired
    case RequestEnter(_) => PairRequested
    case Confirm(_) => if Pending(s) then Paired else s
    case AcceptFinish(_, _) => if Pending(s) then Paired else s
    case AcceptFailed(_, expected) => if s == expected then Unpaired else s
    case _ => s
  }

  lemma AdvancedStates(w: World, k: nat, sendOk: bool)
    requires Shaped(w) && k in w.tasks
    ensures var d := w.tasks[k].id;
            Advanced(w, k, sendOk).core.states == w.core.states[d := StateAfter(w.tasks[k], w.core.states[d])]
  {
    var d := w.tasks[k].id;
    EnteredShape(w.core, d, StateAfter(w.tasks[k], w.core.states[d]));
    assert w.core.states == w.core.states[d := w.core.states[d]];
    hide Entered;
    hide Owe;
    hide Shaped;
  }

  lemma AdvanceToPaired(w: World, k: nat, sendOk: bool, id: DeviceId)
    requires Shaped(w) && k in w.tasks && id in w.core.states && id in Advanced(w, k, sendOk).core.states
    ensures Advanced(w, k, sendOk).core.states[id] == Paired != w.core.states[id] ==>
              Pending(w.core.states[id]) && w.tasks[k].id == id && (w.tasks[k].Confirm? || w.tasks[k].AcceptFinish?)
  {
    AdvancedStates(w, k, sendOk);
    hide Advanced;
  }

  /** Every step but a local request or accept for device `id`. */
  predicate Remote(p: Step, id: DeviceId) {
    !(p.LocalAccept? && p.id == id) && !(p.LocalRequest? && p.id == id)
  }

  predicate Consenting(t: Task) {
    !t.StartIncoming? && !t.Drop?
  }

  /** Device `id` is neither paired nor asked for, and no local consent is under way. */
  ghost predicate Innocent(w: World, id: DeviceId) {
    && id in w.core.states && w.core.states[id] != Paired && w.core.states[id] != PairRequested
    && (forall k | k in w.tasks && w.tasks[k].id == id :: !Consenting(w.tasks[k]))
  }

  lemma StepStaysInnocent(w: World, never: bool, p: Step, id: DeviceId)
    requires Inv(w) && Innocent(w, id) && Remote(p, id)
    ensures Innocent(Next(w, never, p), id)
  {
    hide Guarded;
    hide StampsOk;
    hide Advanced;
    hide Commit;
    hide Expired;
    match p
    case Fire(t) =>
      FireStaysInnocent(w, never, t, id);
    case Advance(k, sendOk) =>
      if k in w.tasks { AdvanceStaysInnocent(w, k, sendOk, id); }
    case _ =>
  }

  lemma FireStaysInnocent(w: World, never: bool, t: Timer, id: DeviceId)
    requires Inv(w) && Innocent(w, id)
    ensures Innocent(Next(w, never, Fire(t)), id)
  {
    hide Guarded;
    hide StampsOk;
    if t in w.core.scheduled {
      FireKeeps(w, t);
      EnteredShape(w.core, t.dev, Unpaired);
      hide Entered;
    }
  }

  lemma AdvanceStaysInnocent(w: World, k: nat, sendOk: bool, id: DeviceId)
    requires Shaped(w) && k in w.tasks && Innocent(w, id)
    ensures Innocent(Advanced(w, k, sendOk), id)
  {
    AdvancedStates(w, k, sendOk);
    AdvancedTasks(w, k, sendOk);
    hide Advanced;
    hide Shaped;
  }

  lemma AdvancedTasks(w: World, k: nat, sendOk: bool)
    requires Shaped(w) && k in w.tasks
    ensures forall j | j in Advanced(w, k, sendOk).tasks ::
              && j in w.tasks
              && (Advanced(w, k, sendOk).tasks[j] == w.tasks[j]
                  || (Advanced(w, k, sendOk).tasks[j].id == w.tasks[j].id && Consenting(w.tasks[j])))
  {
    var id, s := w.tasks[k].id, w.core.states[w.tasks[k].id];
    ChangeTasks(w, id, StateAfter(w.tasks[k], s));
    assert w.tasks[k].AcceptFailed? && s == w.tasks[k].state ==>
        Commit(w, id, ChangedFrom(w.core, id, s, Unpaired)).tasks == w.tasks;
    assert Commit(w, id, Stopped(w.core, id, s)).tasks == w.tasks;
    hide Commit;
    hide Change;
    hide Complete;
    hide Shaped;
  }

  lemma ChangeTasks(w: World, id: DeviceId, next: PairingState)
    requires Known(w, id)
    ensures Change(w, id, next).tasks == Complete(w, id).tasks == w.tasks
  {
    hide Owe;
  }

  /** Peer packets, timers and drops alone never pair a device. */
  lemma {:induction false} NoPairingWithoutConsent(w0: World, never: bool, steps: seq<Step>, id: DeviceId)
    requires Start(w0) && id in w0.core.states && w0.core.states[id] != Paired
    requires forall p | p in steps :: !(p.LocalAccept? && p.id == id) && !(p.LocalRequest? && p.id == id)
    ensures Innocent(Run(w0, never, steps), id)
    ensures var states := Run(w0, never, steps).core.states;
            id in states && states[id] != Paired && states[id] != PairRequested
    decreases |steps|
  {
    if steps != [] {
      var front := steps[..|steps| - 1];
      NoPairingWithoutConsent(w0, never, front, id);
      RunKeeps(w0, never, front);
      StepStaysInnocent(Run(w0, never, front), never, steps[|steps| - 1], id);
    }
  }

  // ---------- Lifecycle callbacks ----------

  function Bit(s: PairingState): int {
    if s == Paired then 1 else 0
  }

  /** Callbacks due and done, less the present state: the same at all times. */
  ghost function Balance(w: World, id: DeviceId): int {
    if !Known(w, id) then 0
    else w.made[id].paired + w.owed[id].paired - w.made[id].unpaired - w.owed[id].unpaired - Bit(w.core.states[id])
  }

  lemma StepBalances(w: World, never: bool, p: Step, id: DeviceId)
    requires Inv(w)
    ensures Balance(Next(w, never, p), id) == Balance(w, id)
  {
    var w' := Next(w, never, p);
    InvTimers(w);
    hide Next;
    hide Inv;
    var touched, d := StepEffect(w, never, p);
    if touched {
      CommittedBalances(w, w', d, StopsTimer(w, p, d), id);
    }
  }

  lemma CommittedBalances(w: World, w': World, d: DeviceId, stops: bool, id: DeviceId)
    requires Committed(w, w', d, stops)
    ensures Balance(w', id) == Balance(w, id)
  {
    CommittedStates(w, w', d, stops);
    hide Entered;
  }

  /** Once no callback is due, onPaired minus onUnpaired calls equal the change in "is Paired". */
  lemma {:induction false} CallbacksBalance(w0: World, never: bool, steps: seq<Step>, id: DeviceId)
    requires Start(w0) && id in w0.core.states
    ensures Balance(Run(w0, never, steps), id) == Balance(w0, id)
    ensures var w := Run(w0, never, steps);
            Known(w, id) && (w.owed[id] == Calls(0, 0) ==>
              w.made[id].paired - w.made[id].unpaired
              == (if w.core.states[id] == Paired then 1 else 0) - (if w0.core.states[id] == Paired then 1 else 0))
    decreases |steps|
  {
    if steps != [] {
      var front := steps[..|steps| - 1];
      CallbacksBalance(w0, never, front, id);
      RunKeeps(w0, never, front);
      StepBalances(Run(w0, never, front), never, steps[|steps| - 1], id);
      KnownStays(Run(w0, never, front), never, steps[|steps| - 1], id);
      hide Next;
      hide Inv;
    }
  }

  /** A callback that is due is made once, and no other is made. */
  lemma DueCallIsMade(w: World, never: bool, id: DeviceId)
    requires id in w.core.states && id in w.touches && id in w.owed && id in w.made
    ensures var w', due := Next(w, never, CallPaired(id)), w.owed[id].paired > 0;
            && w'.core == w.core && w'.tasks == w.tasks
            && w'.made == w.made[id := Calls(w.made[id].paired + (if due then 1 else 0), w.made[id].unpaired)]
            && w'.owed == w.owed[id := Calls(w.owed[id].paired - (if due then 1 else 0), w.owed[id].unpaired)]
    ensures var w', due := Next(w, never, CallUnpaired(id)), w.owed[id].unpaired > 0;
            && w'.core == w.core && w'.tasks == w.tasks
            && w'.made == w.made[id := Calls(w.made[id].paired, w.made[id].unpaired + (if due then 1 else 0))]
            && w'.owed == w.owed[id := Calls(w.owed[id].paired, w.owed[id].unpaired - (if due then 1 else 0))]
  {
    assert w.made[id := w.made[id]] == w.made && w.owed[id := w.owed[id]] == w.owed;
  }

  lemma KnownStays(w: World, never: bool, p: Step, id: DeviceId)
    requires Inv(w) && Known(w, id)
    ensures Known(Next(w, never, p), id)
  {
    hide Next;
    hide Inv;
    var touched, d := StepEffect(w, never, p);
    if touched { CommittedStates(w, Next(w, never, p), d, StopsTimer(w, p, d)); }
  }
}
