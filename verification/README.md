# Behaviour of the kcd daemon, proved

kcd is a KDE Connect daemon. This project models the parts of it where a simple
intent meets interleaving, chunking or dynamic programming, and proves what those
parts are for. An object whose methods update it is a class with the same fields;
a loop is a loop with invariants. Where goroutines interleave, each region that
holds a lock is one atomic step, every interleaving of the steps is a run, and the
theorems are about all runs. The methods and the steps share one specification,
the functions on snapshots of the fields, so what is proved of runs is proved of
what the methods do. What those functions say is also stated outright, field by
field, on the methods and in lemmas about runs.

| file | component |
|---|---|
| `EditDistance.dfy` | the key suggester of the configuration loader: the two-row table equals the least number of edits |
| `EventBus.dfy`, `Watch.dfy` | the event bus with its replay ring, and the resumable watch stream over it |
| `Pairing.dfy`, `PairingRuns.dfy`, `PairingProperties.dfy`, `PairingCalls.dfy` | the pairing protocol: methods, steps and invariant, theorems about runs, steps against methods |
| `Sessions.dfy` | replacing and ending device connections |
| `SendGate.dfy`, `ReadLoop.dfy` | the pairing gates on the way out and on the way in |
| `Framing.dfy` | bounded newline framing and the hand-over of a connection after a plaintext packet |
| `Output.dfy` | batching of command output |
| `Utf8.dfy`, `MountPath.dfy` | truncation at rune boundaries, octal escapes in mount paths |
| `Contacts.dfy` | reconciliation of the contact index |
| `DialLimiter.dfy`, `Reconnect.dfy` | throttle on stranger dials, reconnect backoff and loop |
| `Poller.dfy`, `DisplayNames.dfy` | media position poller, distinct player names |
| `Mousepad.dfy` | pointer motion and input events |
| `Bytes.dfy`, `Wrappers.dfy` | types the components share |

## What turned out not to hold

The model follows the code. Where a promise fails, the exact condition is proved:

- The edit distance numbers cells by byte offset. Against a one-byte string
  beginning with `c` it is right whatever follows exactly if the first `c` of the
  left string is one of its first two characters, or comes right behind a character
  before which all take one byte (`FirstLetterDecides`): `éx` against `x` is measured
  rightly, `ééx` gives 3 for 2 (`LateMatchInstance`). So a left string is right
  against all non-empty one-byte strings exactly if that holds of every one-byte
  character in it, and a non-empty right string may be measured against all such
  left strings exactly if it is made of one-byte characters (`RightExactlyWhen`).
  Against one-byte strings the error only ever makes the distance larger
  (`NeverTooNear`), which can lose a suggestion: `ééipc` is two deletions from the
  key `ipc` and is offered nothing (`LostSuggestionInstance`).
- A watcher's channel holds 256 events. The deduplicated stream after a gapless
  resume is the whole matching history exactly if the handler keeps up from the
  replay on (`HandleWatch`, `KeepsUp`); 257 matching events in a row are too many for
  an idle handler (`OverflowInstance`).
- `EventsSince` of the largest 64-bit number reports a gap although nothing can
  follow it, because `since + 1` wraps (`EventsSince`).
- A watcher may ask to resume from any number. Every gapless run in which the handler
  keeps up gives the whole matching history after it if and only if the number was
  reached at subscription (`ResumesExactlyWhen`); beyond it, as after a restart of the
  daemon, the very next matching event is sent although it is not after the number
  asked for (`NextIsSent`).
- `docs/ARCHITECTURE.md` (line 227) says the pending timeout is capped by the peer's wait. An
  unset timeout skips the cap: an incoming request then stays pending for 30 seconds,
  the peer waits 25 (`PendingTimeout`).
- Arming the poller while the old one has left its loop but not yet finished is lost
  (`ArmedUnlessLeaving`; a run of five steps is `LostArmInstance`).
- A drop or a sighting that finds a reconnect loop between its decision to return and
  its release of the flag spawns nothing, and nothing redials until the next one; in
  every other case a loop goes on (`RespawnsUnlessLeaving`, `LostRespawnInstance`).
- An output line is cut at 1024 bytes without regard to runes; of well-formed text the
  cut is well formed exactly if a rune starts behind it (`ClipKeepsRunes`).
- A queued packet whose session was superseded may go out on the newer connection,
  never on an older one (`GateHolds`, `SuccessorInstance`).
- A flush leaves less than a pixel exactly when the accumulator was within the range
  of the integer conversion (`ResidueExactlyInRange`).
- Unescaping undoes escaping exactly for the escape sets that hold the backslash or
  all octal digits (`UndoableExactlyWhen`).

## Model

| member | source | states |
|---|---|---|
| EditDistance.DistanceIsReached | internal/config/config.go:309-327 | some sequence of insertions, deletions and replacements of the computed length turns one string into the other |
| EditDistance.DistanceIsMinimal | internal/config/config.go:309-327 | no sequence of edits that turns one string into the other is shorter |
| EditDistance.DistanceSymmetric | internal/config/config.go:309-327 | the distance does not depend on the direction |
| EditDistance.DistanceZero | internal/config/config.go:309-327 | the distance is zero exactly between equal strings |
| EditDistance.DistanceTriangle | internal/config/config.go:309-327 | a detour through a third string is never shorter |
| EditDistance.OneEditCostsAtMostOne | internal/config/config.go:309-327 | one edit anywhere in a string moves it at most one away |
| EditDistance.Levenshtein | internal/config/config.go:309-327 | the loops compute the table; its last cell is the edit distance for every measurable pair (one-byte right string whose first character the left string reaches), and never less than it for a one-byte right string |
| EditDistance.FillRow | internal/config/config.go:314-325 | one pass over the right string fills the next row, each character writing the cell behind its byte offset |
| EditDistance.RowIsDistance | internal/config/config.go:309-327 | for such a pair every cell from the second on is the distance to the prefix it stands for, and the first is one exactly if all but the last character of the left take one byte |
| EditDistance.FirstLetterDecides | internal/config/config.go:309-327 | all one-byte strings with a given first character are measured rightly from a left string if and only if it reaches that character: its first occurrence is among the first two characters, or right behind a character before which all take one byte |
| EditDistance.RightExactlyWhen | internal/config/config.go:309-327 | among non-empty strings: those right against every one-byte string are exactly the ones reaching each one-byte character they hold, and those that may stand on the right are exactly the one-byte ones |
| EditDistance.MatchIsLost | internal/config/config.go:309-327 | where the first occurrence of a character is not reached, matching it saves nothing: the answer is the length of the left string |
| EditDistance.LateMatchInstance | internal/config/config.go:309-327 | a match behind one multi-byte character is found, the same match behind two is answered 3 for 2 |
| EditDistance.NeverTooNear | internal/config/config.go:309-327 | against a one-byte string the answer is never below the distance |
| EditDistance.AgainstStranger | internal/config/config.go:309-327 | a right string with a multi-byte character is measured too near to any single character it does not hold |
| EditDistance.AgainstEmpty | internal/config/config.go:309-327 | against the empty string the table is right exactly if all but the last character of the left take one byte |
| EditDistance.NearestConfigKey | internal/config/config.go:265-279 | the first of the nearest candidates is suggested exactly when some candidate is nearer than the name is long and within two edits or a third of its bytes: by the table for any strings, by the true distance for candidates the name is measured rightly against; a one-byte suggestion is truly close for any name |
| EditDistance.LostSuggestionInstance | internal/config/config.go:265-279 | a name two deletions away from the key "ipc", and close enough, is measured three away and offered nothing |
| EventBus.PickSound | internal/events/bus.go:127-149 | a reader gets only events its filter matches, and without a filter never an opt-in type |
| EventBus.MatchesExactly | internal/events/bus.go:127-149 | a filter accepts just the types it names, and an empty one all but sms.incoming, sms.attachment and prompt |
| EventBus.PickExactly | internal/events/bus.go:307-313 | picked are exactly the events late enough, not lost and accepted by the filter, oldest first |
| EventBus.Bus.RingExactly | internal/events/bus.go:276-279 | the ring is the last 256 events of the history, and the counter the number of the last |
| EventBus.DeliverExactly | internal/events/bus.go:281-293 | of one event a subscriber changes only by the event in its channel, or by its number among the missed ones when the channel is full, and only if it wants it |
| EventBus.RingRefinesLog | internal/events/bus.go:276-279 | filtering the ring gives what filtering the whole history would, if nothing after the asked number was evicted |
| EventBus.GapIffEvicted | internal/events/bus.go:305 | the comparison with the ring's first number tells exactly whether an event after the asked number was evicted, but for the wrap-around at the top of the range |
| EventBus.Bus.constructor | internal/events/bus.go:167-172 | a bus starts with an empty history |
| EventBus.Bus.Subscribe | internal/events/bus.go:176-199 | a new subscriber with an unused id, the asked filter, an empty channel of the asked capacity (64 if none is asked), and nobody else changed |
| EventBus.Bus.Unsubscribe | internal/events/bus.go:202-216 | that subscriber alone goes, and the answer tells whether it was there |
| EventBus.Bus.Publish | internal/events/bus.go:265-295 | the history grows by one event of the next number, and each subscriber whose filter names the type, or is empty and the type none of the three opt-in ones, gets the event, or with a full channel misses it; the others and everything else stay |
| EventBus.Bus.Broadcast | internal/events/bus.go:281-293 | the same of one event for every subscriber, each served exactly once, whatever the order |
| EventBus.Bus.EventsSince | internal/events/bus.go:299-314 | the answer holds just those of the last 256 events that are numbered after `since` and whose type the filter names, or that are none of the three opt-in types if it is empty, in increasing order; a gap exactly when an event after `since` was evicted (below the top of the range), and without a gap the answer is that of the whole history |
| Watch.HandleWatch | internal/ipc/server_watch.go:102-136 | in every interleaving with publishers the log gains just the publications; sent or still to be sent are exactly the events of an accepted type that came after the subscription without finding the channel of 256 full, and those after `since` that were among the last 256 when the replay was read, in order but for the overlap of the two; nothing is dropped exactly if no more events would ever wait than the channel holds; after a gapless resume the deduplicated stream is the whole matching history after `since` exactly if the handler keeps up from the replay on |
| Watch.StreamExactly | internal/ipc/server_watch.go:102-136 | membership and order of the stream, both ways, for any publications and schedule |
| Watch.Stream | internal/ipc/server_watch.go:119-136 | the two write loops send replay and live events in order, and what is dropped is what finds the bounded backlog full |
| Watch.FewAreKeptUp | internal/ipc/server_watch.go:109-136 | a handler keeps up, however slow, while the events waiting and still to come that match are at most 256 |
| Watch.TrackedPublisher | internal/events/bus.go:281-293 | a publication keeps the tally: it is dropped exactly if it matches and the backlog fills the channel, and waits otherwise |
| Watch.DropsNothingIff | internal/ipc/server_watch.go:109-136 | nothing is dropped over a stretch of turns exactly if a backlog counted without a bound never exceeds the channel |
| Watch.LateLosses | internal/ipc/server_watch.go:117-136 | what is dropped after the replay was read is nothing exactly if the handler keeps up from then on, and is all matching and published after it |
| Watch.OverflowInstance | internal/ipc/server_watch.go:109-136 | a burst of matching events is kept up with by an idle handler exactly if it is of at most 256 |
| Watch.ResumeIsExact | internal/ipc/server_watch.go:109-136 | subscribe first, replay second: deduplicated by number, nothing between the two calls is lost |
| Watch.DuplicatesOnlyInOverlap | internal/ipc/server_watch.go:109-136 | an event sent twice was published between the subscription and the replay |
| Watch.ResumesExactlyWhen | internal/ipc/server_watch.go:109-136 | every gapless run in which the handler keeps up shows the whole matching history after `since`, if and only if `since` was reached at subscription |
| Watch.ResumedIff | internal/ipc/server_watch.go:109-136 | in a gapless run from a number reached at subscription the deduplicated stream is the whole matching history after it exactly if the handler keeps up |
| Watch.NextIsSent | internal/ipc/server_watch.go:109-136 | for any other number the next matching event, numbered up to it, is sent all the same, and the stream is then not the history after it |
| Watch.ResumeBeyondSubscription | internal/ipc/server_watch.go:109-136 | for a single run from such a number: the stream is the history after it exactly if every matching event numbered up to it was dropped |
| Watch.SentSplits | internal/ipc/server_watch.go:117-136 | the history after `since` is the replay followed by the part of the live stream after it |
| Pairing.Device.SetState | internal/device/device_core.go:149-158 | the state is set, and turning unpaired wakes a parked reconnect loop |
| Pairing.Device.TransitionState | internal/device/device_core.go:161-173 | the state changes exactly if it was the expected one; turning unpaired wakes the loop |
| Pairing.Device.PokeReconnect | internal/device/device_core.go:194-199 | a wake-up is pending afterwards, bursts coalesce |
| Pairing.PairPlugin.ChangeState | internal/plugins/pair/lifecycle.go:20-36 | nothing if the state is already the asked one; else it is entered, the old timer is dead and a pending state has a fresh one |
| Pairing.PairPlugin.ChangeStateFrom | internal/plugins/pair/lifecycle.go:38-47 | the same, if and only if the state is the expected one |
| Pairing.PairPlugin.UpdatePendingTimerLocked | internal/plugins/pair/lifecycle.go:61-70 | the device's timer is replaced in a pending state and removed in any other |
| Pairing.PairPlugin.SchedulePendingTimerLocked | internal/plugins/pair/lifecycle.go:72-80 | the new timer carries a generation never used before, recorded as the device's live one |
| Pairing.PairPlugin.CancelPendingTimerLocked | internal/plugins/pair/lifecycle.go:107-113 | the device has no live timer or generation, the others keep theirs |
| Pairing.PairPlugin.ExpirePending | internal/plugins/pair/lifecycle.go:115-138 | a timer expires a request exactly if its generation is the live one and the state still the one it was scheduled for: the device is then unpaired; a live one clears its entries, a dead one changes nothing |
| Pairing.PairPlugin.TransitionPendingToPaired | internal/plugins/pair/lifecycle.go:140-155 | pairs the device and kills its timer exactly if a request is pending |
| Pairing.PairPlugin.StopPendingTimeout | internal/plugins/pair/lifecycle.go:157-165 | kills the timer exactly if the state is the expected one; the state stays |
| Pairing.PairPlugin.HandlePairRequest | internal/plugins/pair/handle.go:33-58 | an awaited answer pairs and kills the timer, a duplicate request changes nothing, any other request is rejected exactly for the stated reasons or becomes pending with one fresh timer; no other device changes |
| Pairing.PairPlugin.ValidateRequestTimestamp | internal/plugins/pair/handle.go:60-83 | accepted: within half an hour either way, or missing from a peer older than version 8 |
| Pairing.PairPlugin.HandleUnpairRequest | internal/plugins/pair/handle.go:100-134 | from a requested, incoming or paired state the device ends unpaired with no timer and no live generation; from any other nothing changes; no other device changes, and no timer is scheduled |
| Pairing.PairPlugin.PairingDone | internal/plugins/pair/actions.go:128-141 | succeeds exactly if a request is pending, and the device is then paired |
| Pairing.PairPlugin.AcceptPairing | internal/plugins/pair/actions.go:15-40 | uninterrupted: a pending device ends paired if the packet could be sent and unpaired if not, without a timer either way; any other stays as it is |
| Pairing.PairPlugin.RequestPairing | internal/plugins/pair/actions.go:44-86 | a pending request of the peer is accepted; otherwise, if the packet was sent, an unpaired device becomes requested with one fresh timer; all else stays as it is |
| Pairing.PairPlugin.Drop | internal/plugins/pair/actions.go:89-126 | rejecting and unpairing leave the device unpaired and without a timer, and the others as they are |
| Pairing.PendingTimeout | internal/plugins/pair/lifecycle.go:82-99 | the configured seconds, capped by how long the peer waits; within that wait exactly if a timeout is configured or the request is outgoing |
| PairingRuns.NextKeeps | internal/plugins/pair/lifecycle.go:20-165 | every step keeps the invariant: live generations belong to the present pending state, timers are live exactly while their device is untouched, pending devices are guarded |
| PairingRuns.RunKeeps | internal/plugins/pair/lifecycle.go:20-165 | the invariant holds after any steps from a freshly loaded registry |
| PairingRuns.FireKeeps | internal/plugins/pair/lifecycle.go:115-138 | a live timer finds its device in the very state it was scheduled for; a dead one changes nothing |
| PairingRuns.StopKeeps | internal/plugins/pair/actions.go:24-26 | an accept that stopped the timer guards the pending device in the timer's place |
| PairingProperties.StepEffect | internal/plugins/pair/lifecycle.go:20-165 | whatever the step, at most one device is touched, by one change of state or one accept stopping its timer |
| PairingProperties.TimerActsIffUntouched | internal/plugins/pair/lifecycle.go:61-80 | over any run a timer has an effect exactly if no change of state and no accept touched its device since it was scheduled, and the effect is to unpair it from the state it was scheduled for |
| PairingProperties.TimerFires | internal/plugins/pair/lifecycle.go:115-138 | over any run: firing the timer sends its device to unpaired and removes its timer and generation if nothing touched it, and otherwise changes nothing |
| PairingProperties.PendingIsGuarded | internal/plugins/pair/lifecycle.go:101-165 | at any time a pending device has a live timer for just its state, or an accept in flight |
| PairingProperties.PairedOnlyFromPending | internal/plugins/pair/lifecycle.go:140-155 | whatever the step, paired is entered from a pending state only, by a confirmation or an accept |
| PairingProperties.NoPairingWithoutConsent | internal/plugins/pair/handle.go:33-58 | peer packets, timers, rejections and failures alone, in any order and number, never make an unpaired device paired or requested |
| PairingProperties.CallbacksBalance | internal/plugins/pair/lifecycle.go:49-59 | once no callback is due, onPaired calls less onUnpaired calls are the change in being paired |
| PairingProperties.DueCallIsMade | internal/plugins/pair/lifecycle.go:49-59 | a callback that is due is made once, and none is made that is not due |
| PairingCalls.TurnHeads | internal/plugins/pair/actions.go:15-86 | a turn of a handler, alone, leaves the outcome it is heading for unchanged and brings it nearer |
| PairingCalls.ReachesGoal | internal/plugins/pair/actions.go:15-86 | a handler left alone ends, with its outcome and without affecting any other |
| PairingCalls.PairPacketAlone | internal/plugins/pair/handle.go:33-98 | the steps of a pair packet, uninterrupted, do what the handler method does: the whole resulting core is stated case by case, and no other task is affected |
| PairingCalls.UnpairPacketAlone | internal/plugins/pair/handle.go:100-134 | uninterrupted, an unpair packet takes a requested, incoming or paired device to unpaired and removes its timer and generation, and leaves everything else, and any other device's state, as it is; a local rejection or unpair does so from any state |
| PairingCalls.AcceptAlone | internal/plugins/pair/actions.go:15-40 | uninterrupted, accepting takes a pending device to paired, or to unpaired if the packet cannot be sent, removing timer and generation, and changes nothing else |
| PairingCalls.RequestAlone | internal/plugins/pair/actions.go:44-86 | uninterrupted, requesting accepts a pending request of the peer, or makes an unpaired device requested with one fresh timer if the packet is sent, and changes nothing else |
| PairingCalls.TurnsAreMethods | internal/plugins/pair/lifecycle.go:20-165 | each turn of a task does to the core what one of the locked methods does, or only reads it |
| Sessions.Device.constructor | internal/device/device_core.go:109-123 | a device starts without a session |
| Sessions.Device.CloseDone | internal/device/device_session.go:35-39 | a close signal is closed, and only one that is open may be |
| Sessions.Device.CloseDoneOnce | internal/device/device_session.go:108-112 | the current signal is closed on the first call and left alone on later ones, so no signal closes twice |
| Sessions.Device.Connect | internal/device/device_session.go:21-56 | the new connection is current with a fresh signal never closed; the replaced one, if any, has its signal and its socket closed, and nothing else is closed |
| Sessions.Device.Disconnect | internal/device/device_session.go:90-122 | no connection is left; if there was one its socket and the current signal are closed, and nothing else is |
| Sessions.Device.DisconnectConn | internal/device/device_session.go:133-166 | a death notice of the current connection leaves none, with its socket and the current signal closed; any other notice changes nothing |
| Sessions.SessionStaysOk | internal/device/device_session.go:21-166 | every operation keeps connected equivalent to the current signal being open, and closes at most the current signal |
| Sessions.RunIsSound | internal/device/device_session.go:21-166 | in every run that equivalence holds, and connected events are disconnected ones plus superseded and live sessions, counting those due |
| Sessions.EventsBalance | internal/device/device_session.go:58-64 | once no event is due: connected events = disconnected events + superseded sessions + one if connected |
| Sessions.SupersededNoticesAreInert | internal/device/device_session.go:131-140 | in every run in which no connection is opened twice, a connection opened and no longer current stays so, has its socket closed, and its death notice changes nothing whenever it comes |
| Sessions.OpenedIsCurrentOrClosed | internal/device/device_session.go:21-166 | every connection opened in a run is the current one or has its socket closed |
| Sessions.SessionEndsOnlyBy | internal/device/device_session.go:21-166 | a session ends by a disconnect, its own death or a replacement |
| Sessions.ConnectBegins | internal/device/device_session.go:21-56 | in every run, connecting makes the connection current with a signal never closed, closes socket and signal of the one it replaces, and owes one more connected event |
| Sessions.SessionEnds | internal/device/device_session.go:90-166 | in every run, a disconnect or the death of the current connection leaves none, closes its socket and its signal, and owes exactly one more disconnected event |
| Sessions.NothingEnds | internal/device/device_session.go:94-97 | in every run, a disconnect without a session and the death of any other connection change nothing |
| Sessions.DueEventIsPublished | internal/device/device_session.go:58-64 | in every run, an event that is due is published once |
| SendGate.Device.Send | internal/device/io.go:19-48 | a packet is queued, behind the others, exactly if connected, the device is paired or the packet a pair packet, not past a chosen close signal, and fewer than 32 wait; else it is dropped silently |
| SendGate.Device.WriteNext | internal/device/io.go:112-143 | the oldest packet leaves the queue and is written exactly if connected and the device is paired or it is a pair packet |
| SendGate.StepKeeps | internal/device/io.go:19-146 | every step keeps queues first in, first out and bounded, with only admitted packets in them |
| SendGate.GateHolds | internal/device/io.go:19-150 | in every run, what is written and is no pair packet was queued while paired and passed the writer while paired; each queue holds at most 32 packets, in order; and a packet goes out on the connection of its own session or a later one |
| SendGate.GatesLet | internal/device/io.go:19-146 | neither gate holds back a pair packet, nor any packet of a paired device, and what passed is written while connected |
| SendGate.DisconnectStops | internal/device/io.go:19-143 | in every run, once disconnected the close signal is closed, no packet is accepted and none is written |
| SendGate.ConnectBegins | internal/device/device_session.go:35-56 | in every run, connecting begins a session of its own with an empty queue, closes the signal of one still open and leaves its queue |
| SendGate.SuccessorInstance | internal/device/io.go:112-143 | a run in which a packet taken from a superseded session goes out on the newer connection |
| ReadLoop.ReadLoop | internal/device/io.go:50-96 | what is dispatched is determined by the bytes received and the states found, whatever the chunking; oversized and malformed packets are skipped, other errors end the loop |
| ReadLoop.TakePacket | internal/device/io.go:66-89 | one lap reads one line; the packet it decodes to is dispatched exactly if the device is paired or it is about identity or pairing; only an error other than an oversized or undecodable line ends the loop |
| ReadLoop.EachPacketByItself | internal/device/io.go:61-95 | each packet a peer writes is dispatched on its own merits, whatever precedes it |
| ReadLoop.PacketAtItsTurn | internal/device/io.go:61-95 | between what the packets before it and behind it lead to, a packet written is dispatched exactly if it fits, decodes, and is about identity or pairing or meets a paired device |
| ReadLoop.DispatchedInItsLap | internal/device/io.go:61-89 | every packet dispatched was handed out by a lap of its own, in order, and one of any other kind than identity and pair by a lap that found the device paired |
| ReadLoop.UnpairedSeesOnlyPairing | internal/device/io.go:81-83 | so a device never found paired gets nothing but identity and pair packets through |
| Framing.LineEnd | internal/protocol/packet.go:143 | the position of the first newline, or the length |
| Framing.FramingRoundTrip | internal/protocol/packet.go:117-186 | packets written and read back: each that fits comes out as it went in, each that does not is reported, and the next starts right behind |
| Framing.FirstFrame | internal/protocol/packet.go:136-164 | a read returns the first line or reports it too large, and leaves exactly what follows its newline |
| Framing.NextLineExactly | internal/protocol/packet.go:136-176 | the six outcomes of a bounded read, each with the streams it occurs on and what it leaves of them |
| Framing.BufReader.ReadSlice | internal/protocol/packet.go:143 | up to and including the first newline, a full buffer without one, or all that was left |
| Framing.DiscardLine | internal/protocol/packet.go:166-176 | the stream continues just behind the newline of the oversized line |
| Framing.ReadLineBounded | internal/protocol/packet.go:136-164 | for any buffer size and any chunking, the result and the rest depend on the unread bytes alone, and never more than `max` bytes of a line are held |
| Framing.ReadLines | internal/device/io.go:61-79 | reading on past oversized lines gives the results of the whole stream |
| Framing.ReadPacketBounded | internal/protocol/packet.go:117-134 | the decoded first line, or the error that prevented it, with the rest of the stream untouched |
| Framing.ReadPlaintextPacket | internal/transport/plaintext.go:27-47 | after a packet the returned connection yields exactly the bytes behind it; after a failure a suffix of them |
| Output.OutputStream.Add | internal/plugins/runcommand/output.go:75-100 | below 2000 lines a line joins its own stream as it is, or cut to 1024 bytes and three dots, and the transcript while that is within its budget; past them it is dropped and the drop recorded, and nothing else changes |
| Output.OutputStream.Pending | internal/plugins/runcommand/output.go:116-120 | tells whether a line is buffered |
| Output.OutputStream.Take | internal/plugins/runcommand/output.go:124-130 | hands out what is buffered and leaves nothing |
| Output.OutputStream.Flush | internal/plugins/runcommand/output.go:162-168 | what is buffered becomes one packet and the buffers empty; nothing is sent for nothing |
| Output.OutputStream.DrainLines | internal/plugins/runcommand/output.go:319-331 | adds the waiting lines in their order: those of at most 1024 bytes as they are, each to its stream, up to 2000 lines in all, with a drop recorded exactly past that |
| Output.OutputStream.Summary | internal/plugins/runcommand/output.go:104-112 | the transcript's lines joined by newlines, with the truncation marker exactly if lines were dropped |
| Output.RunIsSound | internal/plugins/runcommand/output.go:75-180 | for any interleaving of additions and flushes, batches plus buffer are per stream the clipped lines among the first 2000 in order; at most the last packet is marked; the transcript is a prefix begun within its budget |
| Output.ShortLinesArrive | internal/plugins/runcommand/output.go:75-180 | in every run of lines of at most 1024 bytes, batches and buffer hold per stream just their texts, among the first 2000, in order |
| Output.RunGrows | internal/plugins/runcommand/output.go:75-168 | in every run, one more line joins its own stream behind all others, itself or cut, if fewer than 2000 came before; a flush moves the buffer into a batch |
| Output.SplitUndoesJoin | internal/plugins/runcommand/output.go:104-112 | lines that hold no newline, as scanned ones do, are what the transcript splits into at its newlines |
| Output.JoinUndoesSplit | internal/plugins/runcommand/output.go:104-112 | every text is the join of what stands between its newlines |
| Output.SummaryIsBounded | internal/plugins/runcommand/output.go:94-112 | the summary never exceeds 5048 bytes |
| Output.ClipKeepsRunes | internal/plugins/runcommand/output.go:76-78 | a well-formed line stays well formed exactly if it is short enough or a rune starts where it is cut |
| Utf8.RuneLen | internal/plugins/runcommand/runcommand.go:277 | the well-formed sequence at the front (section 4 of RFC 3629): at most four bytes, of which only the first starts a rune |
| Utf8.EncodedIsRune | internal/plugins/runcommand/runcommand.go:277 | the encoding of a scalar value (section 3 of RFC 3629) is one well-formed sequence |
| Utf8.RuneIsEncoded | internal/plugins/runcommand/runcommand.go:277 | every well-formed sequence is the encoding of a scalar value |
| Utf8.ValidExactlyWhen | internal/plugins/runcommand/runcommand.go:277 | bytes are well formed exactly if they encode some sequence of scalar values |
| Utf8.ValidPrefix | internal/plugins/runcommand/runcommand.go:276-280 | a prefix of well-formed text is well formed exactly if it ends where a rune starts |
| Utf8.ValidConcat | internal/plugins/runcommand/output.go:77 | text before well-formed text is well formed exactly if the whole is |
| Utf8.TruncateRuneSafe | internal/plugins/runcommand/runcommand.go:272-282 | any bytes are cut before the last byte within the bound that is no continuation byte; of well-formed text that is the longest well-formed prefix within the bound |
| Utf8.BoundFilename | internal/fsutil/fsutil.go:40-48 | at most 255 bytes: a longer name is cut before a byte that is no continuation byte and repaired, and of a well-formed name that is the longest well-formed prefix, the repair changing nothing |
| Utf8.RepairIsIdentity | internal/fsutil/fsutil.go:47 | the repair changes text exactly if it is not well formed |
| Utf8.RepairIsSound | internal/fsutil/fsutil.go:47 | repaired text is well formed |
| Utf8.RepairExactly | internal/fsutil/fsutil.go:47 | well-formed text is kept, and a byte that begins no well-formed sequence is dropped |
| MountPath.UnescapeMountPath | internal/plugins/sftp/mounttable.go:48-71 | the scanning loop with its shortcut for text without a backslash reads every escape from left to right |
| MountPath.UnescapeExactly | internal/plugins/sftp/mounttable.go:57-69 | a backslash before three octal digits reads as the byte they spell, less a ninth bit; every other byte as itself |
| MountPath.UnescapeInvertsEscape | internal/plugins/sftp/mounttable.go:46-71 | for every text and every set of escaped bytes holding the backslash, unescaping undoes escaping |
| MountPath.UndoableExactlyWhen | internal/plugins/sftp/mounttable.go:46-71 | all texts survive exactly for the sets holding the backslash or all octal digits |
| MountPath.BareBackslashIsMisread | internal/plugins/sftp/mounttable.go:61-62 | for any other set a four-byte text is misread |
| Contacts.Cache.HandleUIDsResponse | internal/plugins/contacts/sync.go:39-118 | after a list of at most 20000 the index holds exactly the listed contacts with the phone's timestamps, known ones keeping their fields and marks and new ones blank; asked for, once each, are those new or of another timestamp; added and deleted are counted; an empty or longer list changes nothing |
| Contacts.Cache.Stamp | internal/plugins/contacts/sync.go:76-97 | the first loop stamps what is listed and collects the new or changed contacts |
| Contacts.Cache.DeleteUnseen | internal/plugins/contacts/sync.go:104-112 | exactly the contacts not seen are deleted, and counted |
| Contacts.ToFetchIsExact | internal/plugins/contacts/sync.go:79-97 | the contacts to fetch are the new or changed ones, each once even if listed repeatedly |
| Contacts.AskedExactly | internal/plugins/contacts/sync.go:79-97 | the request holds each listed contact that is unknown or has another timestamp, once |
| Contacts.ToFetchInOrder | internal/plugins/contacts/sync.go:79-97 | the request keeps the order of the list |
| Contacts.ReconciledExactly | internal/plugins/contacts/sync.go:76-113 | exactly the listed contacts remain, newly stamped and otherwise as they were |
| Contacts.RepeatIsNoOp | internal/plugins/contacts/sync.go:76-113 | the same list again changes nothing and asks for nothing |
| Contacts.HandleVCardsResponse | internal/plugins/contacts/sync.go:138-229 | a contact is stored exactly if named, its text of at most 64 KiB and written, and the bytes counted up to it within 64 MiB: it then counts as fetched and has the card's fields, its timestamp kept; every other contact keeps its entry or stays out; the numbers stored and given up on are those positions counted; a reply of more than 20000 is refused |
| Contacts.StoredExactly | internal/plugins/contacts/sync.go:171-219 | the same of the index for any reply, position by position |
| Contacts.CountedExactly | internal/plugins/contacts/sync.go:181-197 | what counts against the cap on a reply are the bytes of its named texts of at most 64 KiB |
| Contacts.ReplySummaries | internal/plugins/contacts/sync.go:210-217 | after a reply a contact's fields are what they were or those of its card in the reply |
| Contacts.ReplyKeepsStamps | internal/plugins/contacts/sync.go:210-217 | a reply loses no contact, keeps every timestamp and unfetches none |
| Contacts.FullReplyFetches | internal/plugins/contacts/sync.go:172-219 | a reply that can be stored in full marks all its contacts fetched, with the fields of their cards, and adds no other |
| Contacts.FullReplyCounts | internal/plugins/contacts/sync.go:172-219 | such a reply is counted as stored in full, with nothing skipped |
| Contacts.AnswerFetches | internal/plugins/contacts/sync.go:171-219 | a full answer to a chunk always fits the cap on a reply, and marks the whole chunk fetched with the fields of its cards |
| Contacts.RepliesKeep | internal/plugins/contacts/sync.go:138-229 | whatever replies come, in any number and order, contacts, timestamps and fetched marks stay, and only contacts named by a reply join |
| Contacts.InSomeChunk | internal/plugins/contacts/request.go:41-66 | every contact to fetch is in some chunk of at most the chunk size |
| Contacts.SyncCompletes | internal/plugins/contacts/sync.go:39-229 | from an index with nothing pending, a list and replies that answer each chunk of 100 of the request, in any order and with partial, failing or repeated replies between them, leave exactly the listed contacts, all fetched and stamped, each one asked for with the fields of a card from a reply that held it |
| Contacts.ChunkUIDs | internal/plugins/contacts/request.go:55-66 | the chunks concatenate back to the list, none is empty, and all but the last are full |
| DialLimiter.Limiter.constructor | internal/daemon/transport.go:110-112 | the limiter starts as if the last dial were a minute past |
| DialLimiter.Limiter.AllowEphemeralDial | internal/daemon/transport.go:113-132 | under a clock that does not run backwards, a dial is allowed exactly if no dial ever allowed was less than a second ago, and none to this address less than five; allowed ones are remembered |
| DialLimiter.Limiter.AlwaysSpaced | internal/daemon/transport.go:113-132 | at all times the dials allowed are a second apart, those to one address five, and the map within 61 entries |
| DialLimiter.Limiter.DecisionIsRight | internal/daemon/transport.go:117-122 | the two entries consulted decide as the whole history would |
| DialLimiter.Limiter.Prune | internal/daemon/transport.go:124-128 | exactly the addresses not dialled for over a minute are forgotten |
| DialLimiter.Limiter.SlotsSuffice | internal/daemon/transport.go:123-130 | dials a second apart within a minute are at most sixty |
| DialLimiter.SpacedGrows | internal/daemon/transport.go:117-122 | a dial allowed by the rule keeps all dials spaced |
| Reconnect.ReconnectBackoff | internal/device/registry.go:124-140 | the base doubled once per attempt and capped, never leaving the range of a duration |
| Reconnect.BackoffMonotone | internal/device/registry.go:124-140 | the delay is base times a power of two or the cap, and more attempts never shorten it |
| Reconnect.BackoffExactly | internal/device/registry.go:124-140 | the first delay is the configured base, or two seconds, and each attempt doubles it up to the cap |
| Reconnect.ReconnectWithBackoff | internal/daemon/transport_reconnect.go:20-141 | under any sightings and late timers: the laps gone through are exactly those before one that finds a reason to stop or whose dial connects, their dials are those of the laps, consecutive ones at least the lesser of five seconds and the current backoff apart, with attempts counted one by one |
| Reconnect.LapExactly | internal/daemon/transport_reconnect.go:73-135 | a lap waits for a sighting or its backoff, and then dials with the next attempt, unless a sighting came within five seconds of the last dial's end |
| Reconnect.Device.TryReconnect | internal/device/device_discovery.go:151-153 | granted exactly if no loop is alive |
| Reconnect.Device.ReconnectDone | internal/device/device_discovery.go:157-159 | no loop is alive afterwards |
| Reconnect.AtMostOneLoop | internal/device/device_discovery.go:149-159 | however drops, sightings and exits interleave, two loops are never alive at once |
| Reconnect.RespawnsUnlessLeaving | internal/daemon/transport_reconnect.go:36-137 | a try leaves a loop redialling exactly unless the one alive has decided to return; then nothing redials until another try |
| Reconnect.LostRespawnInstance | internal/daemon/transport_handshake.go:153-158 | a run of four steps in which a drop is refused and no loop is left |
| Poller.MPRISPlugin.ArmPlayingPollerLocked | internal/plugins/mpris/playing_poller.go:36-49 | a fresh poller unless a handle is held |
| Poller.MPRISPlugin.StopPlayingPollerLocked | internal/plugins/mpris/playing_poller.go:53-58 | the poller whose handle is held is cancelled, and the handle dropped; no other poller changes |
| Poller.MPRISPlugin.SyncPlayingPollerLocked | internal/plugins/mpris/playing_poller.go:22-32 | armed if enabled and a player is tracked, stopped otherwise |
| Poller.MPRISPlugin.RemovePlayer | internal/plugins/mpris/local.go:113-124 | the player is gone and the poller agrees with what is left |
| Poller.MPRISPlugin.FinishPlayingPoller | internal/plugins/mpris/playing_poller.go:101-107 | the poller is done, and the handle dropped exactly if no later one was armed |
| Poller.RunKeeps | internal/plugins/mpris/playing_poller.go:22-107 | in every run the handle held is that of the one active poller, and is held only while players are tracked |
| Poller.AtMostOneActive | internal/plugins/mpris/playing_poller.go:34-58 | two pollers are never active at once |
| Poller.NoPlayersNoPoller | internal/plugins/mpris/playing_poller.go:22-32 | in every run, with the last player removed or polling switched off no handle is held and no poller goes on |
| Poller.LateFinishIsHarmless | internal/plugins/mpris/playing_poller.go:99-107 | a late finisher neither clears nor stops its successor |
| Poller.ArmedUnlessLeaving | internal/plugins/mpris/playing_poller.go:11-18 | an observed change leaves a poller polling exactly unless the handle held is of one that already left its loop |
| Poller.LostArmInstance | internal/plugins/mpris/playing_poller.go:36-107 | a run of five steps after which a player is tracked and nothing polls |
| DisplayNames.NumberedInjective | internal/plugins/mpris/discovery.go:85 | different counters give different names |
| DisplayNames.DecimalReadsBack | internal/plugins/mpris/discovery.go:85 | counters are written in decimal digits without leading zeros |
| DisplayNames.CandidatesCount | internal/plugins/mpris/discovery.go:84-86 | the names tried are as many as the tries, which bounds the loop by the names seen |
| DisplayNames.FreshName | internal/plugins/mpris/discovery.go:82-86 | ends, with the wanted name if free, and otherwise with the first free of those with a counter from two in brackets |
| DisplayNames.FindPlasma | internal/plugins/mpris/discovery.go:59-70 | which browser integrations are listed: Firefox's, and one that names Chrome or Chromium |
| DisplayNames.ContainsExactly | internal/plugins/mpris/discovery.go:62-67 | a name contains another exactly if it stands somewhere in it |
| DisplayNames.ListPlayers | internal/plugins/mpris/discovery.go:72-92 | dropped are exactly the native Firefox players if its integration is listed, and the native Chromium ones if one for Chrome or Chromium is; the others stay in their order with pairwise distinct names |
| DisplayNames.RenamedExactly | internal/plugins/mpris/discovery.go:81-89 | each player keeps its name unless an earlier one has it, and then gets the first free counter |
| DisplayNames.RenamedDistinct | internal/plugins/mpris/discovery.go:72-92 | names each fresh among the earlier ones are pairwise distinct |
| Mousepad.MousepadPlugin.Handle | internal/plugins/mousepad/dispatch.go:13-37 | a click, key, hold, scroll or empty event is queued; anything else is motion, added up to one rounding; the worker is woken |
| Mousepad.MousepadPlugin.FlushMove | internal/plugins/mousepad/dispatch.go:54-77 | in range, the whole pixels towards zero are emitted and taken off, if there are any, and less than a pixel of the same sign stays |
| Mousepad.MousepadPlugin.TakeNext | internal/plugins/mousepad/dispatch.go:90-100 | the oldest event leaves the queue, and whether a whole pixel of motion is due is told |
| Mousepad.ResidueExactlyInRange | internal/plugins/mousepad/dispatch.go:56-69 | less than a pixel stays exactly if the accumulator was in the range of the conversion |
| Mousepad.FlushConserves | internal/plugins/mousepad/dispatch.go:54-77 | a flush moves motion from the accumulators to what was emitted, losing none and in range without rounding |
| Mousepad.RoundingError | internal/plugins/mousepad/dispatch.go:24-26 | a rounded result is off by at most its half unit in the last place, and one is not crossed |
| Mousepad.ErrorGrows | internal/plugins/mousepad/dispatch.go:24-26 | an addition to an accumulator in range adds a fixed amount to the rounding error at most |
| Mousepad.RunIsSound | internal/plugins/mousepad/dispatch.go:13-140 | in every interleaving, motion received is motion emitted plus what is accumulated, up to the rounding of the additions (at most 0.00000024 pixels a move while in range); events are handled once, in order, and after the whole pixels accumulated before their turn |
| Mousepad.ReceiptExactly | internal/plugins/mousepad/dispatch.go:13-37 | in the runs, a received event is queued and motion counted, the rest staying as it is |
| Mousepad.HeadIsHandled | internal/plugins/mousepad/dispatch.go:80-140 | a woken worker handles the oldest event within one turn, after the motion before it, and records what had been received and emitted |
| Mousepad.IdleTurn | internal/plugins/mousepad/dispatch.go:102-140 | with no event waiting the worker parks if less than a pixel is due, else emits it, or if it just did leaves it to the timer |
| Mousepad.ParkedMoves | internal/plugins/mousepad/dispatch.go:80-140 | a parked worker wakes exactly when something was received; an armed timer emits the whole pixels due |

## Left out

- Sockets, TLS, D-Bus, input devices, files and subprocesses: an operation's outcome is a parameter where a step depends on it.
- JSON and TOML decoding: a decoder is a parameter; packets and bodies are datatypes; the rule that an encoding holds no newline is a hypothesis of the round trip.
- Logging, wall-clock timestamps of events, payload contents and the hooks run when subscribers change.
- Publish: requires that fewer than 2^64 - 1 events were published, so the wrap-around of the sequence counter is not modelled; the same holds for the subscriber, timer and poller counters.
- Watch.HandleWatch: the gap notice is the flag returned, not an event in the stream; a write that fails ends the stream early; an event that cannot be encoded is not modelled.
- Levenshtein: strings are well-formed sequences of characters; invalid UTF-8 in a key is not part of this model.
- NearestConfigKey: for a name that does not reach the first character of some candidate the choice is stated by the table, which may measure that candidate as farther than it is.
- Candidate keys are given as a list; how they are collected from the configuration's fields by reflection is not part of this model.
- Framing.BufReader.ReadSlice: a model of the standard library's buffered reader, without its limit on empty reads; the byte count in the text of the too-large error is not modelled.
- Framing.ReadLineBounded: `held` counts bytes kept of a line, not the capacity of the underlying slice.
- Framing.ReadPlaintextPacket: on an error the bytes already buffered are lost, as in the code; which ones depends on the chunking and is not stated.
- Pairing: the registry is fixed, the fallback without a pairing plugin, verification codes, the table of request timestamps and the discovery flags cleared on the way are not modelled; sending may fail in the model although it never does in the code.
- PairingProperties.NoPairingWithoutConsent: speaks of local requests and accepts; an accept is also admitted for a request made from here, so an accept need not follow a request of the peer.
- Pairing timers: a stopped timer may still run and may run at any time, which admits more runs than the runtime does; nothing is said about when a timer runs.
- Sessions: the number of writer goroutines per session, the cooldown and the addresses recorded are not modelled.
- SendGate.Device.WriteNext: looking up the connection and writing to it are one step; a connection that dies in between fails the write.
- SendGate.GateHolds: a packet that passed the writer's gate may be written after the device was unpaired, as in the code.
- ReadLoop.ReadLoop: plugins and their timeouts are not modelled; without a dispatcher nothing would be dispatched.
- Output: the marker is not delivered when nothing is pending at the last flush; the event-bus copy of a batch and the lifecycle packets are not modelled.
- Utf8.BoundFilename: the other steps of sanitising a name (separators, control characters, leading dots, the fallback) are not modelled.
- Contacts.HandleVCardsResponse: writing a card either works or not, by a parameter; a contact whose reply was lost is not asked for again while its timestamp stays the same.
- Contacts requests: a send that fails in the middle of the chunks is not modelled; the chunks after it are then not asked for.
- Contacts.SyncCompletes: speaks of a list within the cap of 20000, since a longer one is refused.
- Reconnect.ReconnectWithBackoff: addresses and ports dialled are not modelled; what a lap observes is given, and timers may be late by any amount.
- Poller: what a sample of the players finds is not modelled beyond its result, leaving the loop at any time; the outer watch context is taken to be alive.
- Mousepad.RunIsSound: an accumulator that overflows to infinity is not modelled; nothing is said about when the throttled flush runs, since its timer is only ever made once.
- MPRIS identities: asking each player for its name, and players that cannot answer.
- Command-line client, event formatting, transfer plugins, certificates and discovery packets.
