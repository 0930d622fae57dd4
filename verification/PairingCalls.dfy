/**
 The steps of the pairing machine against the plugin's methods: a handler whose
 steps run without interference does what the whole method does.
 */
module PairingCalls {
  import opened Pairing
  import opened PairingRuns

  /** Task `k` gets `n` turns in a row. */
  ghost function Alone(w: World, never: bool, k: nat, sendOk: bool, n: nat): World
    decreases n
  {
    if n == 0 then w else Alone(Next(w, never, Advance(k, sendOk)), never, k, sendOk, n - 1)
  }

  /** Step `p` starts a handler, which then runs to its end with nothing in between. */
  ghost function Call(w: World, never: bool, p: Step, sendOk: bool): World {
    Alone(Next(w, never, p), never, w.nextTask, sendOk, 6)
  }

  /** Each turn of a task does to the core what one of the plugin's locked methods does, or only reads it. */
  lemma TurnsAreMethods(w: World, k: nat, sendOk: bool)
    requires k in w.tasks && Known(w, w.tasks[k].id)
    ensures Advanced(w, k, sendOk).core ==
              match w.tasks[k]
              case StartIncoming(id) => Changed(w.core, id, PairRequestedByPeer)
              case Confirm(id) => PendingToPaired(w.core, id)
              case Drop(id) => Changed(w.core, id, Unpaired)
              case AcceptStart(_) => w.core
              case AcceptStop(id, s) => Stopped(w.core, id, s)
              case AcceptSend(_, _) => w.core
              case AcceptFailed(id, s) => ChangedFrom(w.core, id, s, Unpaired)
              case AcceptFinish(id, _) => PendingToPaired(w.core, id)
              case RequestRecheck(_) => w.core
              case RequestSend(_) => w.core
              case RequestEnter(id) => Changed(w.core, id, PairRequested)
    // an accept goes on from its timer's stop only in the state it read
    ensures w.tasks[k].AcceptStop? ==>
              var t := w.tasks[k];
              if w.core.states[t.id] == t.state
              then Advanced(w, k, sendOk).tasks == w.tasks[k := AcceptSend(t.id, t.state)]
              else Advanced(w, k, sendOk).tasks == w.tasks - {k}
  {
    hide Entered;
    hide Owe;
    hide Cancelled;
  }

  /** What is left for a task to do, as one change of the core. */
  function Remainder(c: Core, t: Task, sendOk: bool): Core
    requires t.id in c.states
  {
    match t
    case StartIncoming(id) => Changed(c, id, PairRequestedByPeer)
    case Confirm(id) => PendingToPaired(c, id)
    case Drop(id) => Changed(c, id, Unpaired)
    case AcceptStart(id) => PairingAccepted(c, id, sendOk)
    case AcceptStop(id, s) => if c.states[id] == s then PairingAccepted(c, id, sendOk) else c
    case AcceptSend(id, s) => if sendOk then PendingToPaired(c, id) else ChangedFrom(c, id, s, Unpaired)
    case AcceptFailed(id, s) => ChangedFrom(c, id, s, Unpaired)
    case AcceptFinish(id, s) => PendingToPaired(c, id)
    case RequestRecheck(id) =>
      if c.states[id] == PairRequestedByPeer then PairingAccepted(c, id, sendOk)
      else if sendOk then Changed(c, id, PairRequested) else c
    case RequestSend(id) => if sendOk then Changed(c, id, PairRequested) else c
    case RequestEnter(id) => Changed(c, id, PairRequested)
  }

  function Turns(t: Task): nat {
    match t
    case RequestRecheck(_) => 5
    case AcceptStart(_) => 4
    case AcceptStop(_, _) => 3
    case AcceptSend(_, _) => 2
    case RequestSend(_) => 2
    case _ => 1
  }

  /** Task `k`, alone among `others`, is on its way to make the core `goal`. */
  ghost predicate Heading(w: World, k: nat, others: map<nat, Task>, sendOk: bool, goal: Core, turns: nat) {
    if k !in w.tasks then w.tasks == others && w.core == goal
    else
      var t := w.tasks[k];
      && w.tasks - {k} == others && Known(w, t.id) && PendingTask(t)
      && Remainder(w.core, t, sendOk) == goal && Turns(t) <= turns
  }

  lemma StoppedThenEntered(c: Core, id: DeviceId, next: PairingState)
    ensures Entered(Cancelled(c, id), id, next) == Entered(c, id, next)
  {
    assert Cancelled(Cancelled(c, id), id) == Cancelled(c, id);
  }

  /** Every turn brings the task nearer to the same goal. */
  lemma TurnHeads(w: World, k: nat, others: map<nat, Task>, sendOk: bool, goal: Core, turns: nat)
    requires turns > 0 && k in w.tasks && Heading(w, k, others, sendOk, goal, turns)
    ensures Heading(Advanced(w, k, sendOk), k, others, sendOk, goal, turns - 1)
  {
    match w.tasks[k]
    case AcceptStart(_) => ReadingTurn(w, k, others, sendOk, goal, turns);
    case AcceptStop(_, _) => StoppingTurn(w, k, others, sendOk, goal, turns);
    case AcceptSend(_, _) => ReadingTurn(w, k, others, sendOk, goal, turns);
    case RequestRecheck(_) => RequestTurn(w, k, others, sendOk, goal, turns);
    case RequestSend(_) => RequestTurn(w, k, others, sendOk, goal, turns);
    case _ => FinalTurn(w, k, others, sendOk, goal, turns);
  }

  /** A turn that leaves the core alone. */
  lemma CoreStays(w: World, k: nat, sendOk: bool)
    requires k in w.tasks && Known(w, w.tasks[k].id)
    requires var t := w.tasks[k]; t.AcceptStart? || t.AcceptSend? || t.RequestRecheck? || t.RequestSend?
    ensures Advanced(w, k, sendOk).core == w.core && Advanced(w, k, sendOk).tasks - {k} == w.tasks - {k}
    ensures Known(Advanced(w, k, sendOk), w.tasks[k].id)
    ensures k !in Advanced(w, k, sendOk).tasks ==> Advanced(w, k, sendOk).tasks == w.tasks - {k}
  {
  }

  lemma ReadingTurn(w: World, k: nat, others: map<nat, Task>, sendOk: bool, goal: Core, turns: nat)
    requires turns > 0 && k in w.tasks && Heading(w, k, others, sendOk, goal, turns)
    requires w.tasks[k].AcceptStart? || w.tasks[k].AcceptSend?
    ensures Heading(Advanced(w, k, sendOk), k, others, sendOk, goal, turns - 1)
  {
    CoreStays(w, k, sendOk);
    hide Known;
    hide Changed;
    hide ChangedFrom;
    hide PendingToPaired;
  }

  lemma RequestTurn(w: World, k: nat, others: map<nat, Task>, sendOk: bool, goal: Core, turns: nat)
    requires turns > 0 && k in w.tasks && Heading(w, k, others, sendOk, goal, turns)
    requires w.tasks[k].RequestRecheck? || w.tasks[k].RequestSend?
    ensures Heading(Advanced(w, k, sendOk), k, others, sendOk, goal, turns - 1)
  {
    CoreStays(w, k, sendOk);
    hide Known;
    hide Changed;
    hide PairingAccepted;
  }

  lemma StoppingTurn(w: World, k: nat, others: map<nat, Task>, sendOk: bool, goal: Core, turns: nat)
    requires turns > 0 && k in w.tasks && Heading(w, k, others, sendOk, goal, turns) && w.tasks[k].AcceptStop?
    ensures Heading(Advanced(w, k, sendOk), k, others, sendOk, goal, turns - 1)
  {
    var w', id := Advanced(w, k, sendOk), w.tasks[k].id;
    StoppedThenEntered(w.core, id, Unpaired);
    assert w'.tasks - {k} == w.tasks - {k};
    hide Entered;
    hide Owe;
  }

  lemma FinalTurn(w: World, k: nat, others: map<nat, Task>, sendOk: bool, goal: Core, turns: nat)
    requires turns > 0 && k in w.tasks && Heading(w, k, others, sendOk, goal, turns) && Turns(w.tasks[k]) == 1
    ensures Heading(Advanced(w, k, sendOk), k, others, sendOk, goal, turns - 1)
  {
    var id := w.tasks[k].id;
    ChangeParts(w, id, PairRequestedByPeer);
    ChangeParts(w, id, PairRequested);
    ChangeParts(w, id, Unpaired);
    hide Change;
    hide Complete;
    hide Changed;
    hide Entered;
    hide PendingToPaired;
    hide Owe;
  }

  lemma ChangeParts(w: World, id: DeviceId, next: PairingState)
    requires Known(w, id)
    ensures Change(w, id, next).core == Changed(w.core, id, next) && Change(w, id, next).tasks == w.tasks
    ensures Complete(w, id).core == PendingToPaired(w.core, id) && Complete(w, id).tasks == w.tasks
  {
  }

  lemma {:induction false} ReachesGoal(w: World, never: bool, k: nat, others: map<nat, Task>, sendOk: bool,
                                       goal: Core, turns: nat)
    requires Heading(w, k, others, sendOk, goal, turns)
    ensures Alone(w, never, k, sendOk, turns).core == goal && Alone(w, never, k, sendOk, turns).tasks == others
    decreases turns
  {
    hide Advanced;
    if turns > 0 {
      if k in w.tasks { TurnHeads(w, k, others, sendOk, goal, turns); }
      ReachesGoal(Next(w, never, Advance(k, sendOk)), never, k, others, sendOk, goal, turns - 1);
    }
  }

  /** Nothing else is affected by a handler that runs alone, and the core is as the method leaves it. */
  ghost predicate Does(w: World, w': World, goal: Core) {
    w'.core == goal && w'.tasks == w.tasks
  }

  lemma Spawned(w: World, t: Task)
    requires Known(w, t.id) && w.nextTask !in w.tasks && PendingTask(t)
    ensures forall sendOk :: Heading(Spawn(w, t), w.nextTask, w.tasks, sendOk, Remainder(w.core, t, sendOk), 6)
  {
    assert Spawn(w, t).tasks - {w.nextTask} == w.tasks;
  }

  lemma PairPacketAlone(w: World, never: bool, id: DeviceId, timestamp: int, peerVersion: int, now: int)
    requires id in w.core.states && id in w.touches && id in w.owed && id in w.made && w.nextTask !in w.tasks
    ensures Does(w, Call(w, never, PeerPair(id, timestamp, peerVersion, now), true),
                 PairHandled(w.core, id, never, ValidRequestTimestamp(timestamp, peerVersion, now)))
    ensures var c, w' := w.core, Call(w, never, PeerPair(id, timestamp, peerVersion, now), true);
            && w'.tasks == w.tasks
            && w'.core ==
                 if c.states[id] == PairRequested then
                   c.(states := c.states[id := Paired],
                      pendingTimers := c.pendingTimers - {id}, pendingGeneration := c.pendingGeneration - {id})
                 else if c.states[id] == PairRequestedByPeer || (never && c.states[id] != Unknown)
                         || (timestamp <= 0 && peerVersion >= 8)
                         || (timestamp > 0 && !(timestamp - 1800 <= now <= timestamp + 1800))
                 then c
                 else
                   var g, t := c.nextGeneration + 1, Timer(id, PairRequestedByPeer, c.nextGeneration + 1);
                   c.(states := c.states[id := PairRequestedByPeer],
                      pendingTimers := c.pendingTimers[id := t], pendingGeneration := c.pendingGeneration[id := g],
                      nextGeneration := g, scheduled := c.scheduled + {t})
  {
    var p := PeerPair(id, timestamp, peerVersion, now);
    var goal := PairHandled(w.core, id, never, ValidRequestTimestamp(timestamp, peerVersion, now));
    PairHandledExactly(w.core, id, never, timestamp, peerVersion, now);
    Spawned(w, Confirm(id));
    Spawned(w, StartIncoming(id));
    hide Changed;
    hide PendingToPaired;
    ReachesGoal(Next(w, never, p), never, w.nextTask, w.tasks, true, goal, 6);
  }

  lemma UnpairPacketAlone(w: World, never: bool, id: DeviceId, sendOk: bool)
    requires id in w.core.states && id in w.touches && id in w.owed && id in w.made && w.nextTask !in w.tasks
    ensures Does(w, Call(w, never, PeerUnpair(id), sendOk), UnpairHandled(w.core, id))
    ensures var c, w' := w.core, Call(w, never, PeerUnpair(id), sendOk);
            && w'.tasks == w.tasks
            && w'.core ==
                 if c.states[id] == PairRequested || c.states[id] == PairRequestedByPeer || c.states[id] == Paired then
                   c.(states := c.states[id := Unpaired],
                      pendingTimers := c.pendingTimers - {id}, pendingGeneration := c.pendingGeneration - {id})
                 else c
    ensures Does(w, Call(w, never, LocalDrop(id), sendOk), Changed(w.core, id, Unpaired))
    ensures var c, w' := w.core, Call(w, never, LocalDrop(id), sendOk);
            && w'.tasks == w.tasks
            && w'.core ==
                 if c.states[id] == Unpaired then c
                 else
                   c.(states := c.states[id := Unpaired],
                      pendingTimers := c.pendingTimers - {id}, pendingGeneration := c.pendingGeneration - {id})
  {
    UnpairHandledExactly(w.core, id);
    DroppedExactly(w.core, id);
    Spawned(w, Drop(id));
    hide Changed;
    ReachesGoal(Next(w, never, PeerUnpair(id)), never, w.nextTask, w.tasks, sendOk, UnpairHandled(w.core, id), 6);
    ReachesGoal(Next(w, never, LocalDrop(id)), never, w.nextTask, w.tasks, sendOk, Changed(w.core, id, Unpaired), 6);
  }

  lemma AcceptAlone(w: World, never: bool, id: DeviceId, sendOk: bool)
    requires id in w.core.states && id in w.touches && id in w.owed && id in w.made && w.nextTask !in w.tasks
    ensures Does(w, Call(w, never, LocalAccept(id), sendOk), PairingAccepted(w.core, id, sendOk))
    ensures var c, w' := w.core, Call(w, never, LocalAccept(id), sendOk);
            && w'.tasks == w.tasks
            && w'.core ==
                 if c.states[id] == PairRequested || c.states[id] == PairRequestedByPeer then
                   c.(states := c.states[id := if sendOk then Paired else Unpaired],
                      pendingTimers := c.pendingTimers - {id}, pendingGeneration := c.pendingGeneration - {id})
                 else c
  {
    PairingAcceptedExactly(w.core, id, sendOk);
    Spawned(w, AcceptStart(id));
    hide PairingAccepted;
    ReachesGoal(Next(w, never, LocalAccept(id)), never, w.nextTask, w.tasks, sendOk,
                PairingAccepted(w.core, id, sendOk), 6);
  }

  lemma RequestAlone(w: World, never: bool, id: DeviceId, sendOk: bool)
    requires id in w.core.states && id in w.touches && id in w.owed && id in w.made && w.nextTask !in w.tasks
    ensures Does(w, Call(w, never, LocalRequest(id), sendOk), PairingRequested(w.core, id, sendOk))
    ensures var c, w' := w.core, Call(w, never, LocalRequest(id), sendOk);
            && w'.tasks == w.tasks
            && w'.core ==
                 if c.states[id] == PairRequestedByPeer then
                   c.(states := c.states[id := if sendOk then Paired else Unpaired],
                      pendingTimers := c.pendingTimers - {id}, pendingGeneration := c.pendingGeneration - {id})
                 else if c.states[id] == Paired || c.states[id] == PairRequested || !sendOk then c
                 else
                   var g, t := c.nextGeneration + 1, Timer(id, PairRequested, c.nextGeneration + 1);
                   c.(states := c.states[id := PairRequested],
                      pendingTimers := c.pendingTimers[id := t], pendingGeneration := c.pendingGeneration[id := g],
                      nextGeneration := g, scheduled := c.scheduled + {t})
  {
    PairingRequestedExactly(w.core, id, sendOk);
    Spawned(w, RequestRecheck(id));
    hide PairingAccepted;
    hide Changed;
    ReachesGoal(Next(w, never, LocalRequest(id)), never, w.nextTask, w.tasks, sendOk,
                PairingRequested(w.core, id, sendOk), 6);
  }
}
