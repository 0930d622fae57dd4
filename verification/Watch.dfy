/**
 The resume path of the watch stream: subscribe first, replay second, then
 drain the live channel, while other goroutines keep publishing.
 */
module Watch {
  import opened EventBus

  datatype Publication = Publication(kind: EventType, deviceId: string, payload: string)

  /** Who runs next once the replay has been read: the handler, or some publisher. */
  datatype Turn = Handler | Publisher(p: Publication)

  function Numbers(s: seq<Event>): set<nat> {
    set e | e in s :: e.number
  }

  /** The client's view: an event whose number was seen before is skipped. */
  function Dedup(s: seq<Event>): seq<Event> {
    if s == [] then []
    else
      var e := s[|s| - 1];
      var front := s[..|s| - 1];
      if e.number in Numbers(front) then Dedup(front) else Dedup(front) + [e]
  }

  /** What the replay ring answers when the log is `log`. */
  function Replayed(log: seq<Event>, since: nat, filters: seq<EventType>): seq<Event> {
    if since == 0 then [] else Select(Retained(log), since, filters)
  }

  // ---------- What is published, and whether the handler keeps up ----------

  /** The log after further publications. */
  function Extended(log: seq<Event>, ps: seq<Publication>): seq<Event> {
    if ps == [] then log
    else
      var front, p := Extended(log, ps[..|ps| - 1]), ps[|ps| - 1];
      front + [Event(|front| + 1, p.kind, p.deviceId, p.payload)]
  }

  /** The publications of a schedule. */
  function Published(turns: seq<Turn>): seq<Publication> {
    if turns == [] then []
    else
      var front := Published(turns[..|turns| - 1]);
      match turns[|turns| - 1]
      case Publisher(p) => front + [p]
      case Handler => front
  }

  /** The turns of publishers alone. */
  function Turns(ps: seq<Publication>): seq<Turn> {
    seq(|ps|, i requires 0 <= i < |ps| => Publisher(ps[i]))
  }

  /** How many of the publications the subscriber's filter matches. */
  function Wanted(ps: seq<Publication>, filters: seq<EventType>): nat {
    if ps == [] then 0
    else Wanted(ps[..|ps| - 1], filters) + if Matches(ps[|ps| - 1].kind, filters) then 1 else 0
  }

  /** Replayed events still to be written, and live events waiting. */
  datatype Backlog = Backlog(toReplay: nat, waiting: nat)

  /** The backlog after some turns, in a channel that drops when full or in one without a bound. */
  function Backlogged(b: Backlog, turns: seq<Turn>, filters: seq<EventType>, bounded: bool): Backlog {
    if turns == [] then b
    else
      var before := Backlogged(b, turns[..|turns| - 1], filters, bounded);
      match turns[|turns| - 1]
      case Publisher(p) =>
        if Matches(p.kind, filters) && (!bounded || before.waiting < WATCH_SUBSCRIBER_CAP)
        then before.(waiting := before.waiting + 1) else before
      case Handler =>
        if before.toReplay > 0 then before.(toReplay := before.toReplay - 1)
        else if before.waiting > 0 then before.(waiting := before.waiting - 1)
        else before
  }

  /** The numbers of the events that find the channel full, when number `n` was the last before the turns. */
  function Dropped(b: Backlog, n: nat, turns: seq<Turn>, filters: seq<EventType>): set<nat> {
    if turns == [] then {}
    else
      var front, turn := turns[..|turns| - 1], turns[|turns| - 1];
      Dropped(b, n, front, filters)
      + if turn.Publisher? && Matches(turn.p.kind, filters)
           && Backlogged(b, front, filters, true).waiting >= WATCH_SUBSCRIBER_CAP
        then {n + |Published(turns)|} else {}
  }

  /** At no moment would more events wait than the channel holds. */
  predicate KeepsUp(b: Backlog, turns: seq<Turn>, filters: seq<EventType>) {
    && Backlogged(b, turns, filters, false).waiting <= WATCH_SUBSCRIBER_CAP
    && (turns == [] || KeepsUp(b, turns[..|turns| - 1], filters))
  }

  // ---------- What a connection sends ----------

  /** The log at the end: `between` is published before the replay is read, the rest as scheduled. */
  function Final(log: seq<Event>, between: seq<Publication>, schedule: seq<Turn>): seq<Event> {
    Extended(Extended(log, between), Published(schedule))
  }

  /** Everything is still to be replayed and nothing waits. */
  function AtSubscription(log: seq<Event>, since: nat, filters: seq<EventType>, between: seq<Publication>): Backlog {
    Backlog(|Replayed(Extended(log, between), since, filters)|, 0)
  }

  /** The backlog when the handler starts to write: a full channel has dropped the rest. */
  function AtReplay(log: seq<Event>, since: nat, filters: seq<EventType>, between: seq<Publication>): Backlog {
    Backlog(|Replayed(Extended(log, between), since, filters)|,
            if Wanted(between, filters) <= WATCH_SUBSCRIBER_CAP then Wanted(between, filters) else WATCH_SUBSCRIBER_CAP)
  }

  /** What the channel drops over the whole connection. */
  function Losses(log: seq<Event>, since: nat, filters: seq<EventType>,
                  between: seq<Publication>, schedule: seq<Turn>): set<nat> {
    Dropped(AtSubscription(log, since, filters, between), |log|, Turns(between) + schedule, filters)
  }

  /** The replay, followed by all that matches since the subscription less the drops. */
  function StreamOf(log: seq<Event>, since: nat, filters: seq<EventType>,
                    between: seq<Publication>, schedule: seq<Turn>): seq<Event> {
    Replayed(Extended(log, between), since, filters)
    + Pick(Final(log, between, schedule), |log|, filters, Losses(log, since, filters, between, schedule))
  }

  /**
   One watch connection. `between` are the publications that fall between the
   subscription and the replay read; `schedule` interleaves every later
   publication with the handler's writes. What was written and what is still to
   be written are the replay followed by everything that matched since the
   subscription, less just the events that found the channel full. Resuming from
   a number already reached at subscription, without a gap, the client's
   deduplicated view is the whole matching history after that number exactly if
   from the replay on the handler keeps up with the publishers; what was dropped
   before does not matter.
   */
  method HandleWatch(bus: Bus, since: nat, filters: seq<EventType>,
                     between: seq<Publication>, schedule: seq<Turn>)
    returns (id: nat, out: seq<Event>, unsent: seq<Event>, gap: bool)
    requires bus.Valid() && since < UINT64_RANGE
    requires |bus.log| + |between| + |schedule| < UINT64_RANGE
    modifies bus
    ensures bus.Valid() && id in bus.subscribers
    ensures bus.log == Final(old(bus.log), between, schedule)
    ensures bus.subscribers[id].missed == Losses(old(bus.log), since, filters, between, schedule)
    ensures out + unsent == StreamOf(old(bus.log), since, filters, between, schedule)
    ensures bus.subscribers[id].filters == filters && bus.subscribers[id].cap == 256
    ensures forall e :: e in out + unsent
                        <==> e in bus.log
                             && (e.kind in filters
                                 || (filters == [] && e.kind != "sms.incoming" && e.kind != "sms.attachment"
                                     && e.kind != "prompt"))
                             && ((e.number > |old(bus.log)| && e.number !in bus.subscribers[id].missed)
                                 || (0 < since < e.number <= |old(bus.log)| + |between| < e.number + 256))
    ensures var stream := out + unsent;
            forall i, j | 0 <= i < j < |stream| ::
              stream[i].number < stream[j].number
              || |old(bus.log)| < stream[j].number <= stream[i].number <= |old(bus.log)| + |between|
    ensures 0 < since < UINT64_RANGE - 1 ==> (gap <==> since + 256 < |old(bus.log)| + |between|)
    ensures bus.subscribers[id].missed == {}
            <==> KeepsUp(AtSubscription(old(bus.log), since, filters, between), Turns(between) + schedule, filters)
    ensures 0 < since <= |old(bus.log)| && !gap ==>
              Dedup(out + unsent) == Pick(bus.log, since, filters,
                                          After(bus.subscribers[id].missed, |old(bus.log)| + |between|))
    ensures 0 < since <= |old(bus.log)| && !gap ==>
              (Dedup(out + unsent) == Select(bus.log, since, filters)
               <==> KeepsUp(AtReplay(old(bus.log), since, filters, between), schedule, filters))
  {
    hide Pick;
    hide Dedup;
    hide Extended;
    hide Published;
    hide KeepsUp;
    hide Dropped;
    hide StreamOf;
    hide Losses;
    hide Final;
    hide Numbered;
    hide Retained;
    ghost var log := bus.log;
    ghost var expected := Replayed(Extended(log, between), since, filters);
    id := SubscribeFirst(bus, filters, between, expected);
    var replay: seq<Event> := [];
    gap := false;
    FinalIs(log, between, schedule);
    if since > 0 {
      replay, gap := bus.EventsSince(since, filters);
      GapAtReplay(bus.log, since);
    }
    out, unsent := Stream(bus, id, filters, log, Turns(between), replay, schedule);
    ConnectionIs(log, since, filters, between, schedule);
    StreamExactly(log, since, filters, between, schedule);
    if 0 < since <= |log| && !gap {
      ResumedExact(log, since, filters, between, schedule);
      ResumedIff(log, since, filters, between, schedule);
    }
  }

  /** The retained events are those whose number is within 256 of the last one. */
  lemma RetainedNumbers(log: seq<Event>)
    requires Numbered(log)
    ensures forall e :: e in Retained(log) <==> e in log && e.number + 256 > |log|
    ensures Increasing(Retained(log))
  {
    RetainedExactly(log);
    hide Retained;
    var from := if |log| <= 256 then 0 else |log| - 256;
    forall e | e in log && e.number + 256 > |log| ensures e in log[from..] {
      var i :| 0 <= i < |log| && log[i] == e;
      assert log[from..][i - from] == e;
    }
  }

  lemma PrefixNumbers(log: seq<Event>, r: nat)
    requires Numbered(log) && r <= |log|
    ensures Numbered(log[..r]) && forall e :: e in log[..r] <==> e in log && e.number <= r
  {
    forall e | e in log && e.number <= r ensures e in log[..r] {
      var i :| 0 <= i < |log| && log[i] == e;
      assert log[..r][i] == e;
    }
  }

  /**
   Just those events are sent that pass the filter and either came after the
   subscription without finding the channel full, or come after `since` and were
   among the last 256 when the replay was read.
   */
  lemma StreamExactly(log: seq<Event>, since: nat, filters: seq<EventType>, between: seq<Publication>,
                      schedule: seq<Turn>)
    requires Numbered(log) && |log| + |between| + |schedule| < UINT64_RANGE
    ensures var stream, final := StreamOf(log, since, filters, between, schedule), Final(log, between, schedule);
            var lost, r := Losses(log, since, filters, between, schedule), |log| + |between|;
            && (forall e :: e in stream
                            <==> e in final
                                 && (e.kind in filters
                                     || (filters == [] && e.kind != "sms.incoming" && e.kind != "sms.attachment"
                                         && e.kind != "prompt"))
                                 && ((e.number > |log| && e.number !in lost)
                                     || (0 < since < e.number <= r < e.number + 256)))
            && (forall i, j | 0 <= i < j < |stream| ::
                  stream[i].number < stream[j].number || |log| < stream[j].number <= stream[i].number <= r)
  {
    hide Pick;
    hide Losses;
    hide Extended;
    hide Published;
    hide Retained;
    var final, lost, r := Final(log, between, schedule), Losses(log, since, filters, between, schedule),
                          |log| + |between|;
    FinalIs(log, between, schedule);
    ExtendedIsNumbered(log, between);
    ExtendedIsNumbered(Extended(log, between), Published(schedule));
    hide Final;
    PrefixNumbers(final, r);
    RetainedNumbers(final[..r]);
    PickExactly(Retained(final[..r]), since, filters, {});
    PickExactly(final, |log|, filters, lost);
    var replay, live := Replayed(final[..r], since, filters), Pick(final, |log|, filters, lost);
    assert StreamOf(log, since, filters, between, schedule) == replay + live;
    ReplayThenLive(replay, live, |log|, r);
  }

  lemma ReplayThenLive(replay: seq<Event>, live: seq<Event>, n: nat, r: nat)
    requires Increasing(replay) && Increasing(live)
    requires forall e | e in replay :: e.number <= r
    requires forall e | e in live :: e.number > n
    ensures var stream := replay + live;
            forall i, j | 0 <= i < j < |stream| ::
              stream[i].number < stream[j].number || n < stream[j].number <= stream[i].number <= r
  {
    var stream := replay + live;
    forall i, j | 0 <= i < j < |stream|
      ensures stream[i].number < stream[j].number || n < stream[j].number <= stream[i].number <= r
    {
      if i < |replay| <= j { assert replay[i] in replay && live[j - |replay|] in live; }
    }
  }

  lemma GapAtReplay(log: seq<Event>, since: nat)
    ensures since < |log| - |Retained(log)| <==> since + EVENT_REPLAY_CAPACITY < |log|
  {
  }

  lemma ConnectionIs(log: seq<Event>, since: nat, filters: seq<EventType>, between: seq<Publication>,
                     schedule: seq<Turn>)
    ensures Losses(log, since, filters, between, schedule)
            == Dropped(AtSubscription(log, since, filters, between), |log|, Turns(between) + schedule, filters)
    ensures StreamOf(log, since, filters, between, schedule)
            == Replayed(Extended(log, between), since, filters)
               + Pick(Final(log, between, schedule), |log|, filters, Losses(log, since, filters, between, schedule))
    ensures Losses(log, since, filters, between, schedule) == {}
            <==> KeepsUp(AtSubscription(log, since, filters, between), Turns(between) + schedule, filters)
  {
    DropsNothingIff(AtSubscription(log, since, filters, between), |log|, Turns(between) + schedule, filters);
    hide Dropped;
    hide KeepsUp;
    hide Pick;
    hide Extended;
    hide Replayed;
  }

  /** The subscription, and what others publish before the replay, here `replay`, is read. */
  method SubscribeFirst(bus: Bus, filters: seq<EventType>, between: seq<Publication>, ghost replay: seq<Event>)
    returns (id: nat)
    requires bus.Valid() && |bus.log| + |between| < UINT64_RANGE
    modifies bus
    ensures InStream(bus, id, filters, old(bus.log), replay, 0, [], Turns(between))
    ensures bus.Valid() && bus.log == Extended(old(bus.log), between)
  {
    hide Pick;
    hide InStream;
    ghost var log := bus.log;
    id := bus.Subscribe(WATCH_SUBSCRIBER_CAP, filters);
    PickNone(bus.log, |bus.log|, filters, {});
    StreamBegins(bus, id, filters, replay);
    assert Turns(between[..0]) == [];
    for i := 0 to |between|
      invariant InStream(bus, id, filters, log, replay, 0, [], Turns(between[..i]))
    {
      assert Turns(between[..i + 1]) == Turns(between[..i]) + [Publisher(between[i])];
      PublisherTurn(bus, between[i], id, filters, log, replay, 0, [], Turns(between[..i]));
    }
    assert between[..|between|] == between;
    StreamEnds(bus, id, filters, log, replay, 0, [], Turns(between));
    TurnsPublish(between);
  }

  /** The two write loops of the handler: first the replay, then the live channel. */
  method Stream(bus: Bus, id: nat, filters: seq<EventType>, ghost log: seq<Event>, ghost before: seq<Turn>,
                replay: seq<Event>, schedule: seq<Turn>)
    returns (out: seq<Event>, unsent: seq<Event>)
    requires InStream(bus, id, filters, log, replay, 0, [], before)
    requires |log| + |before| + |schedule| < UINT64_RANGE
    modifies bus
    ensures bus.Valid() && id in bus.subscribers
    ensures bus.subscribers[id].filters == filters && bus.subscribers[id].cap == WATCH_SUBSCRIBER_CAP
    ensures bus.log == Extended(log, Published(before + schedule))
    ensures bus.subscribers[id].missed == Dropped(Backlog(|replay|, 0), |log|, before + schedule, filters)
    ensures out + unsent == replay + Pick(bus.log, |log|, filters, bus.subscribers[id].missed)
  {
    hide InStream;
    hide Pick;
    hide Extended;
    hide Published;
    hide Dropped;
    hide Numbered;
    hide Retained;
    ghost var turns, read := before, [];
    var i := 0;
    out := [];
    for t := 0 to |schedule|
      invariant 0 <= i <= |replay| && out == replay[..i] + read
      invariant turns == before + schedule[..t]
      invariant InStream(bus, id, filters, log, replay, i, read, turns)
    {
      match schedule[t] {
        case Publisher(p) =>
          PublisherTurn(bus, p, id, filters, log, replay, i, read, turns);
        case Handler =>
          var sent;
          i, sent, read := HandlerTurn(bus, id, filters, log, replay, i, read, turns);
          out := out + sent;
      }
      turns := turns + [schedule[t]];
    }
    assert turns == before + schedule;
    StreamEnds(bus, id, filters, log, replay, i, read, turns);
    unsent := replay[i..] + bus.subscribers[id].ch;
    AllWritten(replay, i, read, bus.subscribers[id].ch);
  }

  lemma AllWritten(replay: seq<Event>, i: nat, read: seq<Event>, ch: seq<Event>)
    requires i <= |replay| && (read != [] ==> i == |replay|)
    ensures (replay[..i] + read) + (replay[i..] + ch) == replay + (read + ch)
  {
  }

  /** Between two turns: `i` replayed events and `read` are written, and all `turns` since the subscription are done. */
  ghost predicate InStream(bus: Bus, id: nat, filters: seq<EventType>, log: seq<Event>,
                           replay: seq<Event>, i: nat, read: seq<Event>, turns: seq<Turn>)
    reads bus
  {
    && Streaming(bus, id, filters, |log|, read)
    && bus.log == Extended(log, Published(turns))
    && |bus.log| == |log| + |Published(turns)| && |Published(turns)| <= |turns|
    && i <= |replay| && (read != [] ==> i == |replay|)
    && Tracked(bus.subscribers[id], |log|, |replay| - i, Backlog(|replay|, 0), turns, filters)
  }

  lemma StreamBegins(bus: Bus, id: nat, filters: seq<EventType>, replay: seq<Event>)
    requires Streaming(bus, id, filters, |bus.log|, [])
    requires bus.subscribers[id].ch == [] && bus.subscribers[id].missed == {}
    ensures InStream(bus, id, filters, bus.log, replay, 0, [], [])
  {
    hide Pick;
  }

  lemma StreamEnds(bus: Bus, id: nat, filters: seq<EventType>, log: seq<Event>,
                   replay: seq<Event>, i: nat, read: seq<Event>, turns: seq<Turn>)
    requires InStream(bus, id, filters, log, replay, i, read, turns)
    ensures bus.Valid() && id in bus.subscribers
    ensures bus.subscribers[id].filters == filters && bus.subscribers[id].cap == WATCH_SUBSCRIBER_CAP
    ensures read != [] ==> i == |replay|
    ensures bus.log == Extended(log, Published(turns))
    ensures read + bus.subscribers[id].ch == Pick(bus.log, |log|, filters, bus.subscribers[id].missed)
    ensures bus.subscribers[id].missed == Dropped(Backlog(|replay|, 0), |log|, turns, filters)
  {
    hide Pick;
  }

  method PublisherTurn(bus: Bus, p: Publication, id: nat, filters: seq<EventType>, ghost log: seq<Event>,
                       ghost replay: seq<Event>, i: nat, ghost read: seq<Event>, ghost turns: seq<Turn>)
    requires InStream(bus, id, filters, log, replay, i, read, turns)
    requires |log| + |turns| + 1 < UINT64_RANGE
    modifies bus
    ensures InStream(bus, id, filters, log, replay, i, read, turns + [Publisher(p)])
  {
    hide Pick;
    hide Extended;
    hide Published;
    hide Tracked;
    hide Deliver;
    PublishedGrows(log, turns, Publisher(p));
    TrackedPublisher(bus.subscribers[id], |log|, |replay| - i, Backlog(|replay|, 0), turns, filters,
                     p, Event(|bus.log| + 1, p.kind, p.deviceId, p.payload));
    PublishOne(bus, p, id, filters, |log|, read);
  }

  /** The handler writes a replayed event, or one it receives, or finds the channel empty. */
  method HandlerTurn(bus: Bus, id: nat, filters: seq<EventType>, ghost log: seq<Event>,
                     replay: seq<Event>, i: nat, ghost read: seq<Event>, ghost turns: seq<Turn>)
    returns (next: nat, sent: seq<Event>, ghost readNext: seq<Event>)
    requires InStream(bus, id, filters, log, replay, i, read, turns)
    modifies bus
    ensures InStream(bus, id, filters, log, replay, next, readNext, turns + [Handler])
    ensures i <= next <= |replay| && replay[..next] + readNext == replay[..i] + read + sent
  {
    hide Pick;
    hide Extended;
    hide Published;
    hide Tracked;
    PublishedGrows(log, turns, Handler);
    TrackedHandler(bus.subscribers[id], |log|, |replay| - i, Backlog(|replay|, 0), turns, filters);
    next, sent, readNext := i, [], read;
    if i < |replay| {
      next, sent := i + 1, [replay[i]];
    } else if bus.subscribers[id].ch != [] {
      var ev := ReceiveOne(bus, id, filters, |log|, read);
      sent, readNext := [ev], read + [ev];
    }
  }

  /** After `turns`: what was dropped, how many replayed events are unwritten, and how many live ones wait. */
  ghost predicate Tracked(sub: Subscription, n: nat, left: int, b: Backlog, turns: seq<Turn>, filters: seq<EventType>) {
    && sub.missed == Dropped(b, n, turns, filters)
    && Backlogged(b, turns, filters, true).toReplay == left
    && Backlogged(b, turns, filters, true).waiting == |sub.ch|
  }

  lemma TrackedPublisher(sub: Subscription, n: nat, left: int, b: Backlog, turns: seq<Turn>,
                         filters: seq<EventType>, p: Publication, e: Event)
    requires Tracked(sub, n, left, b, turns, filters)
    requires sub.filters == filters && sub.cap == WATCH_SUBSCRIBER_CAP
    requires e.number == n + |Published(turns)| + 1 && e.kind == p.kind
    ensures Tracked(Deliver(sub, e), n, left, b, turns + [Publisher(p)], filters)
  {
    var longer := turns + [Publisher(p)];
    assert longer[..|longer| - 1] == turns;
    assert |Published(longer)| == |Published(turns)| + 1;
  }

  /** The handler writes a replayed event, or receives one, or finds nothing to do. */
  lemma TrackedHandler(sub: Subscription, n: nat, left: nat, b: Backlog, turns: seq<Turn>, filters: seq<EventType>)
    requires Tracked(sub, n, left, b, turns, filters)
    ensures left > 0 ==> Tracked(sub, n, left - 1, b, turns + [Handler], filters)
    ensures left == 0 && sub.ch != [] ==> Tracked(sub.(ch := sub.ch[1..]), n, 0, b, turns + [Handler], filters)
    ensures left == 0 && sub.ch == [] ==> Tracked(sub, n, 0, b, turns + [Handler], filters)
  {
    var longer := turns + [Handler];
    assert longer[..|longer| - 1] == turns;
  }

  lemma PublishedGrows(log: seq<Event>, turns: seq<Turn>, turn: Turn)
    ensures var before := Extended(log, Published(turns));
            Extended(log, Published(turns + [turn]))
            == before + match turn
                        case Publisher(p) => [Event(|before| + 1, p.kind, p.deviceId, p.payload)]
                        case Handler => []
    ensures |Published(turns + [turn])| == |Published(turns)| + if turn.Publisher? then 1 else 0
  {
    assert (turns + [turn])[..|turns|] == turns;
    var ps := Published(turns + [turn]);
    if turn.Publisher? { assert ps[..|ps| - 1] == Published(turns); }
  }

  lemma {:induction false} TurnsPublish(ps: seq<Publication>)
    ensures Published(Turns(ps)) == ps
  {
    if ps != [] {
      var front := ps[..|ps| - 1];
      TurnsPublish(front);
      assert Turns(ps)[..|Turns(ps)| - 1] == Turns(front);
    }
  }

  // ---------- One stretch of turns after another ----------

  lemma {:induction false} PublishedConcat(first: seq<Turn>, second: seq<Turn>)
    ensures Published(first + second) == Published(first) + Published(second)
    decreases |second|
  {
    if second == [] {
      assert first + second == first;
    } else {
      assert (first + second)[..|first + second| - 1] == first + second[..|second| - 1];
      PublishedConcat(first, second[..|second| - 1]);
    }
  }

  lemma {:induction false} ExtendedConcat(log: seq<Event>, ps: seq<Publication>, qs: seq<Publication>)
    ensures Extended(log, ps + qs) == Extended(Extended(log, ps), qs)
    decreases |qs|
  {
    if qs == [] {
      assert ps + qs == ps;
    } else {
      assert (ps + qs)[..|ps + qs| - 1] == ps + qs[..|qs| - 1];
      ExtendedConcat(log, ps, qs[..|qs| - 1]);
    }
  }

  lemma FinalIs(log: seq<Event>, between: seq<Publication>, schedule: seq<Turn>)
    ensures Final(log, between, schedule) == Extended(log, Published(Turns(between) + schedule))
    ensures |Extended(log, between)| == |log| + |between|
    ensures |Final(log, between, schedule)| == |log| + |between| + |Published(schedule)|
    ensures Final(log, between, schedule)[..|log| + |between|] == Extended(log, between)
    ensures Final(log, between, schedule)[..|log|] == log
    ensures |Published(schedule)| <= |schedule|
  {
    TurnsPublish(between);
    PublishedConcat(Turns(between), schedule);
    ExtendedConcat(log, between, Published(schedule));
    ExtendedGrows(log, between);
    ExtendedGrows(Extended(log, between), Published(schedule));
    PublishedIsShort(schedule);
  }

  lemma {:induction false} PublishedIsShort(turns: seq<Turn>)
    ensures |Published(turns)| <= |turns|
  {
    if turns != [] { PublishedIsShort(turns[..|turns| - 1]); }
  }

  lemma {:induction false} BackloggedConcat(b: Backlog, first: seq<Turn>, second: seq<Turn>, filters: seq<EventType>)
    ensures Backlogged(b, first + second, filters, true)
            == Backlogged(Backlogged(b, first, filters, true), second, filters, true)
    decreases |second|
  {
    if second == [] {
      assert first + second == first;
    } else {
      assert (first + second)[..|first + second| - 1] == first + second[..|second| - 1];
      BackloggedConcat(b, first, second[..|second| - 1], filters);
    }
  }

  lemma NoTurns(b: Backlog, n: nat, filters: seq<EventType>)
    ensures Dropped(b, n, [], filters) == {}
  {
  }

  /** What is dropped later depends on the earlier turns only by the backlog they leave. */
  lemma {:induction false} DroppedConcat(b: Backlog, n: nat, first: seq<Turn>, second: seq<Turn>,
                                         filters: seq<EventType>)
    ensures Dropped(b, n, first + second, filters)
            == Dropped(b, n, first, filters)
               + Dropped(Backlogged(b, first, filters, true), n + |Published(first)|, second, filters)
    decreases |second|
  {
    hide Backlogged;
    hide Published;
    hide Matches;
    if second == [] {
      NoTurns(Backlogged(b, first, filters, true), n + |Published(first)|, filters);
      assert first + second == first;
    } else {
      var front := second[..|second| - 1];
      assert (first + second)[..|first + second| - 1] == first + front;
      DroppedConcat(b, n, first, front, filters);
      BackloggedConcat(b, first, front, filters);
      PublishedConcat(first, second);
    }
  }

  /** Only matching events published in the turns are dropped. */
  lemma {:induction false} DroppedAreLate(b: Backlog, log: seq<Event>, turns: seq<Turn>, filters: seq<EventType>)
    ensures var after := Extended(log, Published(turns));
            |after| == |log| + |Published(turns)|
            && forall m | m in Dropped(b, |log|, turns, filters) ::
                 |log| < m <= |after| && Matches(after[m - 1].kind, filters)
  {
    if turns != [] {
      var front, turn := turns[..|turns| - 1], turns[|turns| - 1];
      assert turns == front + [turn];
      DroppedAreLate(b, log, front, filters);
      PublishedGrows(log, front, turn);
      hide Backlogged;
      hide Published;
      hide Extended;
    }
  }

  /** Nothing is dropped exactly if an unbounded backlog would never exceed the channel. */
  lemma {:induction false} DropsNothingIff(b: Backlog, n: nat, turns: seq<Turn>, filters: seq<EventType>)
    requires b.waiting <= WATCH_SUBSCRIBER_CAP
    ensures Dropped(b, n, turns, filters) == {} <==> KeepsUp(b, turns, filters)
    ensures KeepsUp(b, turns, filters) ==>
              Backlogged(b, turns, filters, true) == Backlogged(b, turns, filters, false)
  {
    if turns != [] {
      DropsNothingIff(b, n, turns[..|turns| - 1], filters);
      hide Published;
    }
  }

  /** Without a reader the channel fills, then drops. */
  lemma {:induction false} BetweenFills(b: Backlog, between: seq<Publication>, filters: seq<EventType>)
    requires b.waiting == 0
    ensures Backlogged(b, Turns(between), filters, true)
            == b.(waiting := if Wanted(between, filters) <= WATCH_SUBSCRIBER_CAP then Wanted(between, filters)
                             else WATCH_SUBSCRIBER_CAP)
  {
    if between != [] {
      BetweenFills(b, between[..|between| - 1], filters);
      assert Turns(between)[..|Turns(between)| - 1] == Turns(between[..|between| - 1]);
    }
  }

  /** The losses after the replay was read are those the handler causes by not keeping up. */
  lemma LateLosses(log: seq<Event>, since: nat, filters: seq<EventType>, between: seq<Publication>, schedule: seq<Turn>)
    ensures var late := After(Losses(log, since, filters, between, schedule), |log| + |between|);
            && (late == {} <==> KeepsUp(AtReplay(log, since, filters, between), schedule, filters))
            && forall m | m in late :: |log| + |between| < m <= |Final(log, between, schedule)|
                                       && Matches(Final(log, between, schedule)[m - 1].kind, filters)
  {
    hide Dropped;
    hide KeepsUp;
    hide Extended;
    hide Losses;
    hide Backlogged;
    hide Published;
    hide Wanted;
    hide Matches;
    hide Replayed;
    var atReplay := AtReplay(log, since, filters, between);
    LossesAfter(log, since, filters, between, schedule);
    ExtendedGrows(log, between);
    DroppedAreLate(atReplay, Extended(log, between), schedule, filters);
    DropsNothingIff(atReplay, |log| + |between|, schedule, filters);
  }

  lemma LossesAfter(log: seq<Event>, since: nat, filters: seq<EventType>, between: seq<Publication>,
                    schedule: seq<Turn>)
    ensures After(Losses(log, since, filters, between, schedule), |log| + |between|)
            == Dropped(AtReplay(log, since, filters, between), |log| + |between|, schedule, filters)
  {
    hide Dropped;
    hide Backlogged;
    hide Extended;
    hide Published;
    hide Wanted;
    var b, atReplay := AtSubscription(log, since, filters, between), AtReplay(log, since, filters, between);
    TurnsPublish(between);
    DroppedConcat(b, |log|, Turns(between), schedule, filters);
    BetweenFills(b, between, filters);
    ExtendedGrows(log, between);
    DroppedAreLate(b, log, Turns(between), filters);
    DroppedAreLate(atReplay, Extended(log, between), schedule, filters);
  }

  /** 257 matching events in a row are more than an idle handler can take. */
  lemma {:induction false} OverflowInstance(p: Publication, filters: seq<EventType>, n: nat)
    requires Matches(p.kind, filters)
    ensures var burst := seq(n, _ => Publisher(p));
            Backlogged(Backlog(0, 0), burst, filters, false).waiting == n
            && (KeepsUp(Backlog(0, 0), burst, filters) <==> n <= WATCH_SUBSCRIBER_CAP)
  {
    var burst := seq(n, _ => Publisher(p));
    if n > 0 {
      assert burst[..n - 1] == seq(n - 1, _ => Publisher(p));
      OverflowInstance(p, filters, n - 1);
    }
  }

  /**
   The channel and what was read from it are the matching log since `s`, less the
   drops; and only what matched since then can have been dropped.
   */
  ghost predicate Streaming(bus: Bus, id: nat, filters: seq<EventType>, s: nat, read: seq<Event>)
    reads bus
  {
    && bus.Valid() && id in bus.subscribers && s <= |bus.log|
    && bus.subscribers[id].filters == filters && bus.subscribers[id].cap == WATCH_SUBSCRIBER_CAP
    && (forall m | m in bus.subscribers[id].missed :: s < m <= |bus.log| && Matches(bus.log[m - 1].kind, filters))
    && read + bus.subscribers[id].ch == Pick(bus.log, s, filters, bus.subscribers[id].missed)
  }

  method PublishOne(bus: Bus, p: Publication, id: nat, filters: seq<EventType>, ghost s: nat, ghost read: seq<Event>)
    requires Streaming(bus, id, filters, s, read) && |bus.log| + 1 < UINT64_RANGE
    modifies bus
    ensures Streaming(bus, id, filters, s, read)
    ensures bus.log == old(bus.log) + [Event(|old(bus.log)| + 1, p.kind, p.deviceId, p.payload)]
    ensures bus.subscribers[id] ==
              Deliver(old(bus.subscribers)[id], Event(|old(bus.log)| + 1, p.kind, p.deviceId, p.payload))
  {
    hide Retained;
    ghost var log, sub := bus.log, bus.subscribers[id];
    bus.Publish(p.kind, p.deviceId, p.payload);
    ghost var missed := bus.subscribers[id].missed;
    PickCongruent(log, s, sub.missed, s, missed, filters);
    assert bus.log[..|log|] == log;
  }

  method ReceiveOne(bus: Bus, id: nat, filters: seq<EventType>, ghost s: nat, ghost read: seq<Event>)
    returns (ev: Event)
    requires Streaming(bus, id, filters, s, read) && bus.subscribers[id].ch != []
    modifies bus
    ensures Streaming(bus, id, filters, s, read + [ev]) && bus.log == old(bus.log)
    ensures bus.subscribers[id] == old(bus.subscribers)[id].(ch := old(bus.subscribers)[id].ch[1..])
  {
    ghost var ch := bus.subscribers[id].ch;
    ev := bus.Receive(id);
    assert read + ch == (read + [ev]) + ch[1..];
  }

  lemma {:induction false} ExtendedGrows(log: seq<Event>, ps: seq<Publication>)
    ensures |Extended(log, ps)| == |log| + |ps| && Extended(log, ps)[..|log|] == log
  {
    if ps != [] { ExtendedGrows(log, ps[..|ps| - 1]); }
  }

  /** A handler that never has more to send than the channel holds keeps up. */
  lemma {:induction false} FewAreKeptUp(b: Backlog, turns: seq<Turn>, filters: seq<EventType>)
    requires b.waiting + Wanted(Published(turns), filters) <= WATCH_SUBSCRIBER_CAP
    ensures KeepsUp(b, turns, filters)
    ensures Backlogged(b, turns, filters, false).waiting <= b.waiting + Wanted(Published(turns), filters)
  {
    if turns != [] {
      var front := turns[..|turns| - 1];
      if turns[|turns| - 1].Publisher? {
        assert Published(turns)[..|Published(turns)| - 1] == Published(front);
      }
      FewAreKeptUp(b, front, filters);
    }
  }

  /** The history less `lost` is the whole history exactly if nothing in `lost` matches. */
  lemma NothingLostIff(log: seq<Event>, since: nat, filters: seq<EventType>, lost: set<nat>)
    requires Numbered(log)
    requires forall m | m in lost :: since < m <= |log| && Matches(log[m - 1].kind, filters)
    ensures Pick(log, since, filters, lost) == Select(log, since, filters) <==> lost == {}
  {
    if m :| m in lost {
      var e := log[m - 1];
      PickComplete(log, since, filters, {}, e);
      PickSound(log, since, filters, lost);
    }
  }

  // ---------- Replay then live, seen through the client's deduplication ----------

  /** `Pick` depends on its bounds only through the events at hand. */
  lemma {:induction false} PickCongruent(log: seq<Event>, s: nat, lost: set<nat>, s': nat, lost': set<nat>,
                                         filters: seq<EventType>)
    requires forall e | e in log :: (e.number > s && e.number !in lost) == (e.number > s' && e.number !in lost')
    ensures Pick(log, s, filters, lost) == Pick(log, s', filters, lost')
  {
    if log != [] {
      assert log[|log| - 1] in log;
      PickCongruent(log[..|log| - 1], s, lost, s', lost', filters);
    }
  }

  lemma {:induction false} DedupAbsorbs(a: seq<Event>, b: seq<Event>)
    requires Numbers(b) <= Numbers(a)
    ensures Dedup(a + b) == Dedup(a)
    decreases |b|
  {
    if b == [] {
      assert a + b == a;
    } else {
      var front := b[..|b| - 1];
      assert (a + b)[..|a + b| - 1] == a + front;
      assert b[|b| - 1].number in Numbers(b);
      DedupAbsorbs(a, front);
    }
  }

  lemma DedupSnoc(s: seq<Event>, e: Event)
    ensures Dedup(s + [e]) == if e.number in Numbers(s) then Dedup(s) else Dedup(s) + [e]
  {
    assert (s + [e])[..|s|] == s;
    hide Numbers;
  }

  /** The last of increasing numbers is new. */
  lemma LastIsNew(b: seq<Event>)
    requires b != [] && Increasing(b)
    ensures var front, e := b[..|b| - 1], b[|b| - 1];
            e.number in Numbers(b) && e.number !in Numbers(front) && Numbers(front) <= Numbers(b) && Increasing(front)
  {
    assert b[|b| - 1] in b;
  }

  lemma {:induction false} DedupKeepsFresh(a: seq<Event>, b: seq<Event>)
    requires Increasing(b) && Numbers(a) !! Numbers(b)
    ensures Dedup(a + b) == Dedup(a) + b
    decreases |b|
  {
    hide Dedup;
    hide Numbers;
    hide Increasing;
    if b == [] {
      assert a + b == a;
    } else {
      var front, e := b[..|b| - 1], b[|b| - 1];
      LastIsNew(b);
      DedupKeepsFresh(a, front);
      NumbersConcat(a, front);
      DedupSnoc(a + front, e);
      assert a + b == (a + front) + [e] && Dedup(a) + b == (Dedup(a) + front) + [e];
    }
  }

  lemma {:induction false} DedupNumbers(s: seq<Event>)
    ensures Numbers(Dedup(s)) == Numbers(s)
  {
    if s != [] {
      var front := s[..|s| - 1];
      DedupNumbers(front);
      assert Numbers(s) == Numbers(front) + {s[|s| - 1].number};
      assert Numbers(Dedup(front) + [s[|s| - 1]]) == Numbers(Dedup(front)) + {s[|s| - 1].number};
    }
  }

  function After(missed: set<nat>, r: nat): set<nat> {
    set m | m in missed && m > r
  }

  /** What a connection sends that subscribed at `s` and read a gapless replay at `r`. */
  function Sent(log: seq<Event>, since: nat, s: nat, r: nat, filters: seq<EventType>, missed: set<nat>): seq<Event>
    requires r <= |log|
  {
    Select(log[..r], since, filters) + Pick(log, s, filters, missed)
  }

  lemma NumbersConcat(a: seq<Event>, b: seq<Event>)
    ensures Numbers(a + b) == Numbers(a) + Numbers(b)
  {
    assert forall e :: e in a + b <==> e in a || e in b;
  }

  lemma DedupOfIncreasing(s: seq<Event>)
    requires Increasing(s)
    ensures Dedup(s) == s
  {
    assert [] + s == s;
    assert Numbers([]) == {};
    DedupKeepsFresh([], s);
  }

  lemma DedupReplayThenLive(replay: seq<Event>, overlap: seq<Event>, live: seq<Event>)
    requires Increasing(replay) && Increasing(live)
    requires Numbers(overlap) <= Numbers(replay) && Numbers(replay) !! Numbers(live)
    ensures Dedup(replay + (overlap + live)) == replay + live
  {
    hide Numbers;
    hide Dedup;
    hide Increasing;
    NumbersConcat(replay, overlap);
    assert Numbers(replay + overlap) == Numbers(replay);
    DedupOfIncreasing(replay);
    DedupAbsorbs(replay, overlap);
    DedupKeepsFresh(replay + overlap, live);
    assert replay + (overlap + live) == (replay + overlap) + live;
  }

  lemma SentSplits(log: seq<Event>, since: nat, s: nat, r: nat, filters: seq<EventType>, missed: set<nat>)
    requires Numbered(log) && r <= |log| && since <= s && (s <= r || s == since)
    ensures Pick(log, since, filters, After(missed, r)) ==
              Select(log[..r], since, filters) + Pick(log[r..], s, filters, missed)
  {
    var early, late := log[..r], log[r..];
    assert log == early + late;
    PickConcat(early, late, since, filters, After(missed, r));
    PickCongruent(early, since, {}, since, After(missed, r), filters);
    PickCongruent(late, s, missed, since, After(missed, r), filters);
  }

  /** Nothing is lost but what a full channel dropped after the replay was read. */
  lemma ResumeIsExact(log: seq<Event>, since: nat, s: nat, r: nat, filters: seq<EventType>, missed: set<nat>)
    requires Numbered(log) && r <= |log| && since <= s && (s <= r || s == since)
    ensures Dedup(Sent(log, since, s, r, filters, missed)) == Pick(log, since, filters, After(missed, r))
  {
    hide Pick;
    hide Dedup;
    var early, late := log[..r], log[r..];
    assert log == early + late;
    PickConcat(early, late, s, filters, missed);
    SentSplits(log, since, s, r, filters, missed);
    PickIncreasing(early, since, filters, {});
    PickIncreasing(late, s, filters, missed);
    OverlapIsReplayed(early, since, s, filters, missed);
    PickSound(early, since, filters, {});
    PickSound(late, s, filters, missed);
    DedupReplayThenLive(Select(early, since, filters), Pick(early, s, filters, missed), Pick(late, s, filters, missed));
  }

  lemma OverlapIsReplayed(early: seq<Event>, since: nat, s: nat, filters: seq<EventType>, missed: set<nat>)
    requires since <= s
    ensures Numbers(Pick(early, s, filters, missed)) <= Numbers(Select(early, since, filters))
  {
    PickSound(early, s, filters, missed);
    forall e | e in Pick(early, s, filters, missed) ensures e in Select(early, since, filters) {
      PickComplete(early, since, filters, {}, e);
    }
  }

  /** An event is sent twice only if it was published between the two calls. */
  lemma DuplicatesOnlyInOverlap(log: seq<Event>, since: nat, s: nat, r: nat, filters: seq<EventType>,
                                missed: set<nat>, i: nat, j: nat)
    requires Numbered(log) && r <= |log|
    requires i < j < |Sent(log, since, s, r, filters, missed)|
    requires Sent(log, since, s, r, filters, missed)[i].number == Sent(log, since, s, r, filters, missed)[j].number
    ensures s < Sent(log, since, s, r, filters, missed)[i].number <= r
  {
    var replay, live := Select(log[..r], since, filters), Pick(log, s, filters, missed);
    PickIncreasing(log[..r], since, filters, {});
    PickIncreasing(log, s, filters, missed);
    PickSound(log[..r], since, filters, {});
    PickSound(log, s, filters, missed);
    assert i < |replay| <= j;
    assert replay[i] in replay && live[j - |replay|] in live;
  }

  /**
   When the client asks for a number the daemon had not reached at subscription
   (as after a daemon restart), the stream is the history after it exactly if
   nothing that matched and was delivered is numbered up to it.
   */
  lemma ResumeBeyondSubscription(log: seq<Event>, since: nat, s: nat, r: nat, filters: seq<EventType>, missed: set<nat>)
    requires Numbered(log) && s <= r <= |log| && s < since
    ensures Dedup(Sent(log, since, s, r, filters, missed)) ==
              Pick(log, since, filters, After(missed, r))
            <==> forall e | e in log && s < e.number <= since && Matches(e.kind, filters) :: e.number in missed
  {
    var live := Pick(log, s, filters, missed);
    if e :| e in log && s < e.number <= since && Matches(e.kind, filters) && e.number !in missed {
      PickComplete(log, s, filters, missed, e);
      var sent := Sent(log, since, s, r, filters, missed);
      assert e in sent;
      DedupNumbers(sent);
      PickSound(log, since, filters, After(missed, r));
      assert e.number in Numbers(Dedup(sent));
    } else {
      SkipUnmatched(log, since, s, filters, missed);
      ResumeIsExact(log, since, since, r, filters, missed);
    }
  }

  /** The stream of a connection is the replay and the live part of `Sent`. */
  lemma StreamIsSent(log: seq<Event>, since: nat, filters: seq<EventType>, between: seq<Publication>,
                     schedule: seq<Turn>)
    requires Numbered(log) && |log| + |between| + |schedule| < UINT64_RANGE
    requires 0 < since && |log| + |between| <= since + EVENT_REPLAY_CAPACITY
    ensures Numbered(Extended(log, between)) && Numbered(Final(log, between, schedule))
    ensures |log| + |between| <= |Final(log, between, schedule)|
    ensures StreamOf(log, since, filters, between, schedule)
            == Sent(Final(log, between, schedule), since, |log|, |log| + |between|, filters,
                    Losses(log, since, filters, between, schedule))
  {
    FinalIs(log, between, schedule);
    ExtendedIsNumbered(log, between);
    ExtendedIsNumbered(Extended(log, between), Published(schedule));
    RingRefinesLog(Extended(log, between), since, filters);
    hide Extended;
    hide Published;
    hide Pick;
    hide Dropped;
  }

  lemma {:induction false} ExtendedIsNumbered(log: seq<Event>, ps: seq<Publication>)
    requires Numbered(log) && |log| + |ps| < UINT64_RANGE
    ensures |Extended(log, ps)| == |log| + |ps| && Numbered(Extended(log, ps))
  {
    if ps != [] { ExtendedIsNumbered(log, ps[..|ps| - 1]); }
  }

  lemma ResumedExact(log: seq<Event>, since: nat, filters: seq<EventType>, between: seq<Publication>,
                     schedule: seq<Turn>)
    requires Numbered(log) && |log| + |between| + |schedule| < UINT64_RANGE
    requires 0 < since <= |log| && |log| + |between| <= since + EVENT_REPLAY_CAPACITY
    ensures Dedup(StreamOf(log, since, filters, between, schedule))
            == Pick(Final(log, between, schedule), since, filters,
                    After(Losses(log, since, filters, between, schedule), |log| + |between|))
  {
    hide Dedup;
    hide Pick;
    hide StreamOf;
    hide Sent;
    hide Losses;
    hide Final;
    hide Extended;
    hide Numbered;
    StreamIsSent(log, since, filters, between, schedule);
    ResumeIsExact(Final(log, between, schedule), since, |log|, |log| + |between|, filters,
                  Losses(log, since, filters, between, schedule));
  }

  /** A gapless resume from a number reached at subscription is complete exactly if the handler keeps up. */
  lemma ResumedIff(log: seq<Event>, since: nat, filters: seq<EventType>, between: seq<Publication>, schedule: seq<Turn>)
    requires Numbered(log) && |log| + |between| + |schedule| < UINT64_RANGE
    requires 0 < since <= |log| && |log| + |between| <= since + EVENT_REPLAY_CAPACITY
    ensures (Dedup(StreamOf(log, since, filters, between, schedule))
             == Select(Final(log, between, schedule), since, filters))
            <==> KeepsUp(AtReplay(log, since, filters, between), schedule, filters)
  {
    hide Dedup;
    hide Pick;
    hide StreamOf;
    hide Losses;
    hide KeepsUp;
    hide Final;
    hide Extended;
    hide Numbered;
    hide AtReplay;
    hide Sent;
    hide After;
    hide Matches;
    StreamIsSent(log, since, filters, between, schedule);
    ResumedExact(log, since, filters, between, schedule);
    LateLosses(log, since, filters, between, schedule);
    NothingLostIff(Final(log, between, schedule), since, filters,
                   After(Losses(log, since, filters, between, schedule), |log| + |between|));
  }

  /**
   Exactly the numbers already reached at subscription can be resumed from: every
   run without a gap in which the handler keeps up then shows the client the whole
   matching history after the number, and for any other number some such run
   does not.
   */
  lemma ResumesExactlyWhen(log: seq<Event>, since: nat, filters: seq<EventType>)
    requires Numbered(log) && |log| + 1 < UINT64_RANGE && since > 0
    ensures (forall between, schedule |
               && |log| + |between| + |schedule| < UINT64_RANGE
               && |log| + |between| <= since + EVENT_REPLAY_CAPACITY
               && KeepsUp(AtReplay(log, since, filters, between), schedule, filters) ::
               Dedup(StreamOf(log, since, filters, between, schedule))
               == Select(Final(log, between, schedule), since, filters))
            <==> since <= |log|
  {
    if since <= |log| {
      forall between, schedule |
        && |log| + |between| + |schedule| < UINT64_RANGE
        && |log| + |between| <= since + EVENT_REPLAY_CAPACITY
        && KeepsUp(AtReplay(log, since, filters, between), schedule, filters)
        ensures Dedup(StreamOf(log, since, filters, between, schedule))
                == Select(Final(log, between, schedule), since, filters)
      {
        ResumedIff(log, since, filters, between, schedule);
      }
    } else {
      var p := Publication(SomeKind(filters), "", "");
      NextIsSent(log, since, filters, p);
    }
  }

  /** A type that passes the filter. */
  function SomeKind(filters: seq<EventType>): (kind: EventType)
    ensures Matches(kind, filters)
  {
    if filters == [] then "battery" else filters[0]
  }

  /** A client that asked beyond the end of the log is sent the next event although it is not after `since`. */
  lemma NextIsSent(log: seq<Event>, since: nat, filters: seq<EventType>, p: Publication)
    requires Numbered(log) && |log| + 1 < UINT64_RANGE && since > |log| && Matches(p.kind, filters)
    ensures var schedule := [Publisher(p)];
            && KeepsUp(AtReplay(log, since, filters, []), schedule, filters)
            && |Final(log, [], schedule)| == |log| + 1
            && Final(log, [], schedule)[|log|] in StreamOf(log, since, filters, [], schedule)
            && Final(log, [], schedule)[|log|].number == |log| + 1 <= since
            && Dedup(StreamOf(log, since, filters, [], schedule)) != Select(Final(log, [], schedule), since, filters)
  {
    var schedule := [Publisher(p)];
    var final, sent := Final(log, [], schedule), StreamOf(log, since, filters, [], schedule);
    FewAreKeptUp(AtReplay(log, since, filters, []), schedule, filters);
    LateLosses(log, since, filters, [], schedule);
    StreamIsSent(log, since, filters, [], schedule);
    var e := final[|log|];
    assert e.number == |log| + 1 && e in final;
    PickComplete(final, |log|, filters, Losses(log, since, filters, [], schedule), e);
    assert e in sent;
    DedupNumbers(sent);
    PickSound(final, since, filters, {});
    assert e.number in Numbers(Dedup(sent));
  }

  lemma {:induction false} SkipUnmatched(log: seq<Event>, since: nat, s: nat, filters: seq<EventType>, missed: set<nat>)
    requires s <= since
    requires forall e | e in log && s < e.number <= since && Matches(e.kind, filters) :: e.number in missed
    ensures Pick(log, s, filters, missed) == Pick(log, since, filters, missed)
  {
    if log != [] {
      var e := log[|log| - 1];
      assert e in log;
      SkipUnmatched(log[..|log| - 1], since, s, filters, missed);
    }
  }
}
