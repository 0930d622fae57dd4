/**
 The event bus: a log of published events of which the last 256 are kept for
 replay, and bounded subscriber channels that drop when full.
 */
module EventBus {

  const UINT64_RANGE: nat := 0x1_0000_0000_0000_0000
  const EVENT_REPLAY_CAPACITY: nat := 256
  const DEFAULT_SUBSCRIBER_CAP: nat := 64
  const WATCH_SUBSCRIBER_CAP: nat := 256

  type EventType = string

  /** The publication time and the payload's structure play no role here. */
  datatype Event = Event(number: nat, kind: EventType, deviceId: string, payload: string)

  /** `missed` holds the numbers of the events dropped with a warning because the channel was full. */
  datatype Subscription = Subscription(filters: seq<EventType>, ch: seq<Event>, cap: nat, missed: set<nat>)

  predicate IsOptInOnly(kind: EventType) {
    kind == "sms.incoming" || kind == "sms.attachment" || kind == "prompt"
  }

  predicate Matches(kind: EventType, filters: seq<EventType>) {
    if filters == [] then !IsOptInOnly(kind) else kind in filters
  }

  /** A named type passes; without names every type does but the three of message bodies and prompts. */
  lemma MatchesExactly(kind: EventType, filters: seq<EventType>)
    ensures Matches(kind, filters)
            <==> kind in filters
                 || (filters == [] && kind != "sms.incoming" && kind != "sms.attachment" && kind != "prompt")
  {
    assert filters == [] ==> kind !in filters;
  }

  // ---------- What the ring and the channels are meant to hold ----------

  /** The events of `log` after number `since` that match and are not in `lost`, in order. */
  function Pick(log: seq<Event>, since: nat, filters: seq<EventType>, lost: set<nat>): seq<Event> {
    if log == [] then []
    else
      var e := log[|log| - 1];
      Pick(log[..|log| - 1], since, filters, lost)
      + (if e.number > since && Matches(e.kind, filters) && e.number !in lost then [e] else [])
  }

  function Select(log: seq<Event>, since: nat, filters: seq<EventType>): seq<Event> {
    Pick(log, since, filters, {})
  }

  /** The part of the log the replay ring still holds. */
  function Retained(log: seq<Event>): seq<Event> {
    if |log| <= EVENT_REPLAY_CAPACITY then log else log[|log| - EVENT_REPLAY_CAPACITY..]
  }

  /** Events are numbered from one, without holes, and the counter has not run out. */
  ghost predicate Numbered(log: seq<Event>) {
    |log| < UINT64_RANGE && forall i | 0 <= i < |log| :: log[i].number == i + 1
  }

  /** Addition of one in a 64-bit unsigned counter. */
  function Successor(n: nat): nat {
    if n + 1 == UINT64_RANGE then 0 else n + 1
  }

  /** What publishing `e` does to a subscriber. */
  function Deliver(s: Subscription, e: Event): Subscription {
    if !Matches(e.kind, s.filters) then s
    else if |s.ch| < s.cap then s.(ch := s.ch + [e])
    else s.(missed := s.missed + {e.number})
  }

  /** A subscriber that wants the event is sent it or, its channel being full, misses it; nothing else changes. */
  lemma DeliverExactly(s: Subscription, e: Event)
    ensures Deliver(s, e).filters == s.filters && Deliver(s, e).cap == s.cap
    ensures var wanted := e.kind in s.filters
                          || (s.filters == []
                              && e.kind != "sms.incoming" && e.kind != "sms.attachment" && e.kind != "prompt");
            && (wanted && |s.ch| < s.cap ==> Deliver(s, e).ch == s.ch + [e] && Deliver(s, e).missed == s.missed)
            && (wanted && |s.ch| >= s.cap ==>
                  Deliver(s, e).ch == s.ch && Deliver(s, e).missed == s.missed + {e.number})
            && (!wanted ==> Deliver(s, e).ch == s.ch && Deliver(s, e).missed == s.missed)
  {
    MatchesExactly(e.kind, s.filters);
    hide Matches;
  }

  lemma DeliverCases(s: Subscription, e: Event)
    ensures Deliver(s, e) ==
              if !Matches(e.kind, s.filters) then s
              else if |s.ch| < s.cap then s.(ch := s.ch + [e]) else s.(missed := s.missed + {e.number})
  {
  }

  lemma DeliveredToAll(before: map<nat, Subscription>, after: map<nat, Subscription>, ev: Event)
    requires after.Keys == before.Keys && forall id | id in after :: after[id] == Deliver(before[id], ev)
    ensures forall id | id in after ::
              var s, s' := before[id], after[id];
              var wanted := ev.kind in s.filters
                            || (s.filters == []
                                && ev.kind != "sms.incoming" && ev.kind != "sms.attachment" && ev.kind != "prompt");
              && s'.filters == s.filters && s'.cap == s.cap
              && (wanted && |s.ch| < s.cap ==> s'.ch == s.ch + [ev] && s'.missed == s.missed)
              && (wanted && |s.ch| >= s.cap ==> s'.ch == s.ch && s'.missed == s.missed + {ev.number})
              && (!wanted ==> s'.ch == s.ch && s'.missed == s.missed)
  {
    hide Deliver;
    forall id | id in after {
      DeliverExactly(before[id], ev);
    }
  }

  ghost predicate Increasing(s: seq<Event>) {
    forall i, j | 0 <= i < j < |s| :: s[i].number < s[j].number
  }

  lemma {:induction false} PickConcat(a: seq<Event>, b: seq<Event>, since: nat, filters: seq<EventType>, lost: set<nat>)
    ensures Pick(a + b, since, filters, lost) == Pick(a, since, filters, lost) + Pick(b, since, filters, lost)
    decreases |b|
  {
    if b == [] {
      assert a + b == a;
    } else {
      var front := b[..|b| - 1];
      assert (a + b)[..|a + b| - 1] == a + front;
      PickConcat(a, front, since, filters, lost);
    }
  }

  /** Nothing is picked from events that are not after `since`. */
  lemma {:induction false} PickNone(log: seq<Event>, since: nat, filters: seq<EventType>, lost: set<nat>)
    requires forall e | e in log :: e.number <= since
    ensures Pick(log, since, filters, lost) == []
  {
    if log != [] {
      assert log[|log| - 1] in log;
      PickNone(log[..|log| - 1], since, filters, lost);
    }
  }

  /** What a reader gets matches its filter; an unfiltered one gets no opt-in type. */
  lemma {:induction false} PickSound(log: seq<Event>, since: nat, filters: seq<EventType>, lost: set<nat>)
    ensures forall e | e in Pick(log, since, filters, lost) ::
              e in log && e.number > since && e.number !in lost && Matches(e.kind, filters)
    ensures filters == [] ==> forall e | e in Pick(log, since, filters, lost) :: !IsOptInOnly(e.kind)
  {
    if log != [] {
      PickSound(log[..|log| - 1], since, filters, lost);
    }
  }

  /** Everything in `log` that qualifies is picked. */
  lemma {:induction false} PickComplete(log: seq<Event>, s: nat, filters: seq<EventType>, lost: set<nat>, e: Event)
    requires e in log && e.number > s && e.number !in lost && Matches(e.kind, filters)
    ensures e in Pick(log, s, filters, lost)
  {
    if e != log[|log| - 1] {
      assert e in log[..|log| - 1];
      PickComplete(log[..|log| - 1], s, filters, lost, e);
    }
  }

  lemma {:induction false} PickIncreasing(log: seq<Event>, s: nat, filters: seq<EventType>, lost: set<nat>)
    requires Increasing(log)
    ensures Increasing(Pick(log, s, filters, lost))
  {
    if log != [] {
      var front := log[..|log| - 1];
      PickIncreasing(front, s, filters, lost);
      PickSound(front, s, filters, lost);
      forall e | e in front ensures e.number < log[|log| - 1].number {
      }
    }
  }

  /** Just what is in the log, is late enough, is not lost and is asked for is picked, oldest first. */
  lemma PickExactly(log: seq<Event>, since: nat, filters: seq<EventType>, lost: set<nat>)
    requires forall i, j | 0 <= i < j < |log| :: log[i].number < log[j].number
    ensures forall e :: e in Pick(log, since, filters, lost)
                        <==> e in log && e.number > since && e.number !in lost
                             && (e.kind in filters
                                 || (filters == [] && e.kind != "sms.incoming" && e.kind != "sms.attachment"
                                     && e.kind != "prompt"))
    ensures Increasing(Pick(log, since, filters, lost))
  {
    hide Matches;
    hide Pick;
    PickSound(log, since, filters, lost);
    PickIncreasing(log, since, filters, lost);
    forall e | e in log ensures
        Matches(e.kind, filters)
        <==> e.kind in filters
             || (filters == [] && e.kind != "sms.incoming" && e.kind != "sms.attachment" && e.kind != "prompt")
    {
      MatchesExactly(e.kind, filters);
    }
    forall e | e in log && e.number > since && e.number !in lost && Matches(e.kind, filters)
      ensures e in Pick(log, since, filters, lost)
    {
      PickComplete(log, since, filters, lost, e);
    }
  }

  lemma SelectNext(log: seq<Event>, since: nat, filters: seq<EventType>, i: nat)
    requires i < |log|
    ensures Select([], since, filters) == []
    ensures Select(log[..i + 1], since, filters)
            == Select(log[..i], since, filters)
               + if log[i].number > since && Matches(log[i].kind, filters) then [log[i]] else []
  {
    assert log[..i + 1][..i] == log[..i];
  }

  /** `Select` over the ring agrees with `Select` over the log unless an evicted event is after `since`. */
  lemma RingRefinesLog(log: seq<Event>, since: nat, filters: seq<EventType>)
    requires Numbered(log)
    requires |log| - |Retained(log)| <= since
    ensures Select(Retained(log), since, filters) == Select(log, since, filters)
  {
    var evicted := log[..|log| - |Retained(log)|];
    assert log == evicted + Retained(log);
    PickNone(evicted, since, filters, {});
    PickConcat(evicted, Retained(log), since, filters, {});
  }

  class Bus {
    var subscribers: map<nat, Subscription>
    var nextID: nat
    var lastNumber: nat
    var ring: seq<Event>
    /** Every event published so far. */
    ghost var log: seq<Event>

    ghost predicate Valid()
      reads this
    {
      && Numbered(log)
      && lastNumber == |log|
      && ring == Retained(log)
      && (forall id | id in subscribers :: id <= nextID && |subscribers[id].ch| <= subscribers[id].cap)
    }

    constructor ()
      ensures Valid() && log == [] && subscribers == map[]
    {
      subscribers, nextID, lastNumber, ring, log := map[], 0, 0, [], [];
    }

    method Subscribe(capacity: int, filters: seq<EventType>) returns (id: nat)
      requires Valid()
      modifies this`subscribers, this`nextID
      ensures Valid() && id !in old(subscribers)
      ensures var cap := if capacity <= 0 then 64 else capacity;
              subscribers == old(subscribers)[id := Subscription(filters, [], cap, {})]
    {
      nextID := nextID + 1;
      id := nextID;
      var cap := capacity;
      if cap <= 0 { cap := DEFAULT_SUBSCRIBER_CAP; }
      subscribers := subscribers[id := Subscription(filters, [], cap, {})];
    }

    method Unsubscribe(id: nat) returns (removed: bool)
      requires Valid()
      modifies this`subscribers
      ensures Valid() && subscribers == old(subscribers) - {id}
      ensures removed <==> id in old(subscribers)
    {
      removed := false;
      if id in subscribers {
        subscribers := subscribers - {id};
        removed := true;
      }
    }

    method Publish(kind: EventType, deviceId: string, payload: string)
      requires Valid() && |log| + 1 < UINT64_RANGE
      modifies this`lastNumber, this`ring, this`subscribers, this`log
      ensures Valid()
      ensures log == old(log) + [Event(|old(log)| + 1, kind, deviceId, payload)]
      ensures subscribers.Keys == old(subscribers).Keys
      ensures forall id | id in subscribers ::
                subscribers[id] == Deliver(old(subscribers)[id], Event(|old(log)| + 1, kind, deviceId, payload))
      ensures forall id | id in subscribers ::
                var before, after := old(subscribers)[id], subscribers[id];
                var wanted := kind in before.filters
                              || (before.filters == []
                                  && kind != "sms.incoming" && kind != "sms.attachment" && kind != "prompt");
                && after.filters == before.filters && after.cap == before.cap
                && (wanted && |before.ch| < before.cap ==>
                      && after.ch == before.ch + [Event(|old(log)| + 1, kind, deviceId, payload)]
                      && after.missed == before.missed)
                && (wanted && |before.ch| >= before.cap ==>
                      after.ch == before.ch && after.missed == before.missed + {|old(log)| + 1})
                && (!wanted ==> after.ch == before.ch && after.missed == before.missed)
    {
      hide Deliver;
      hide Retained;
      hide Matches;
      hide Numbered;
      hide Successor;
      LogGrows(log, Event(|log| + 1, kind, deviceId, payload));
      lastNumber := Successor(lastNumber);
      var ev := Event(lastNumber, kind, deviceId, payload);
      ring := ring + [ev];
      if |ring| > EVENT_REPLAY_CAPACITY {
        ring := ring[|ring| - EVENT_REPLAY_CAPACITY..];
      }
      log := log + [ev];
      Broadcast(ev);
    }

    /** The loop of a publication over the subscribers, in any order. */
    method Broadcast(ev: Event)
      requires forall id | id in subscribers :: id <= nextID && |subscribers[id].ch| <= subscribers[id].cap
      modifies this`subscribers
      ensures subscribers.Keys == old(subscribers).Keys
      ensures forall id | id in subscribers :: |subscribers[id].ch| <= subscribers[id].cap
      ensures forall id | id in subscribers :: subscribers[id] == Deliver(old(subscribers)[id], ev)
      ensures forall id | id in subscribers ::
                var before, after := old(subscribers)[id], subscribers[id];
                var wanted := ev.kind in before.filters
                              || (before.filters == []
                                  && ev.kind != "sms.incoming" && ev.kind != "sms.attachment" && ev.kind != "prompt");
                && after.filters == before.filters && after.cap == before.cap
                && (wanted && |before.ch| < before.cap ==>
                      after.ch == before.ch + [ev] && after.missed == before.missed)
                && (wanted && |before.ch| >= before.cap ==>
                      after.ch == before.ch && after.missed == before.missed + {ev.number})
                && (!wanted ==> after.ch == before.ch && after.missed == before.missed)
    {
      hide Deliver;
      hide Matches;
      ghost var before := subscribers;
      var todo := subscribers.Keys;
      while todo != {}
        invariant todo <= subscribers.Keys == old(subscribers).Keys
        invariant forall id | id in subscribers ::
            subscribers[id] == if id in todo then old(subscribers)[id] else Deliver(old(subscribers)[id], ev)
        decreases |todo|
      {
        var id :| id in todo;
        var sub := subscribers[id];
        DeliverCases(sub, ev);
        if Matches(ev.kind, sub.filters) {
          if |sub.ch| < sub.cap {
            sub := sub.(ch := sub.ch + [ev]);
          } else {
            sub := sub.(missed := sub.missed + {ev.number});
          }
        }
        subscribers := subscribers[id := sub];
        todo := todo - {id};
      }
      DeliveredToAll(before, subscribers, ev);
    }

    lemma RingExactly()
      requires Valid()
      ensures ring == log[if |log| <= 256 then 0 else |log| - 256..] && lastNumber == |log|
    {
      RetainedExactly(log);
    }

    /** A receive on the subscriber's channel. */
    method Receive(id: nat) returns (ev: Event)
      requires Valid() && id in subscribers && subscribers[id].ch != []
      modifies this`subscribers
      ensures Valid() && ev == old(subscribers)[id].ch[0]
      ensures subscribers == old(subscribers)[id := old(subscribers)[id].(ch := old(subscribers)[id].ch[1..])]
    {
      ev := subscribers[id].ch[0];
      subscribers := subscribers[id := subscribers[id].(ch := subscribers[id].ch[1..])];
    }

    /**
     Replays what the ring holds after `since`. Below the top of the counter's
     range, a gap is reported exactly when an event after `since` was evicted,
     and without a gap the answer is what the whole log would give. At the very
     top `since + 1` wraps to zero and a gap is reported although nothing can
     follow `since`.
     */
    method EventsSince(since: nat, filters: seq<EventType>) returns (result: seq<Event>, gap: bool)
      requires Valid() && since < UINT64_RANGE
      ensures since == 0 || log == [] ==> result == [] && !gap
      ensures since != 0 ==> result == Select(Retained(log), since, filters)
      ensures 0 < since < UINT64_RANGE - 1 ==>
                (gap <==> exists i :: 0 <= i < |log| - |Retained(log)| && log[i].number > since)
                && (gap <==> since < |log| - |Retained(log)|)
      ensures 0 < since && !gap ==> result == Select(log, since, filters)
      ensures since == UINT64_RANGE - 1 && log != [] ==> gap && result == []
      ensures since != 0 ==>
                forall e :: e in result
                            <==> e in log[if |log| <= 256 then 0 else |log| - 256..] && e.number > since
                                 && (e.kind in filters
                                     || (filters == [] && e.kind != "sms.incoming" && e.kind != "sms.attachment"
                                         && e.kind != "prompt"))
      ensures forall i, j | 0 <= i < j < |result| :: result[i].number < result[j].number
    {
      hide Select;
      hide Matches;
      hide Retained;
      hide Numbered;
      NothingRetained(since, filters);
      if |ring| == 0 || since == 0 {
        return [], false;
      }
      AnswerExactly(log, since, filters);
      gap := Successor(since) < ring[0].number;
      result := [];
      assert ring[..0] == [];
      for i := 0 to |ring|
        invariant result == Select(ring[..i], since, filters)
      {
        var ev := ring[i];
        SelectNext(ring, since, filters, i);
        if ev.number > since && Matches(ev.kind, filters) {
          result := result + [ev];
        }
      }
      assert ring[..|ring|] == ring;
    }
  }

  lemma NothingRetained(since: nat, filters: seq<EventType>)
    ensures Retained([]) == [] && Select([], since, filters) == []
    ensures forall log :: |Retained(log)| == 0 ==> log == []
  {
  }

  /** What the ring answers when asked for what follows `since`, and what its oldest number tells. */
  lemma AnswerExactly(log: seq<Event>, since: nat, filters: seq<EventType>)
    requires Numbered(log) && log != [] && 0 < since < UINT64_RANGE
    ensures Retained(log) == log[if |log| <= 256 then 0 else |log| - 256..]
    ensures var gap, result := Successor(since) < Retained(log)[0].number, Select(Retained(log), since, filters);
            && (since < UINT64_RANGE - 1 ==>
                  (gap <==> exists i :: 0 <= i < |log| - |Retained(log)| && log[i].number > since)
                  && (gap <==> since < |log| - |Retained(log)|))
            && (!gap ==> result == Select(log, since, filters))
            && (since == UINT64_RANGE - 1 ==> gap && result == [])
            && (forall e :: e in result
                            <==> e in Retained(log) && e.number > since
                                 && (e.kind in filters
                                     || (filters == [] && e.kind != "sms.incoming" && e.kind != "sms.attachment"
                                         && e.kind != "prompt")))
            && (forall i, j | 0 <= i < j < |result| :: result[i].number < result[j].number)
  {
    var result := Select(Retained(log), since, filters);
    PickExactly(Retained(log), since, filters, {});
    assert Increasing(result);
    GapIffEvicted(log, since);
    hide Pick;
    if Successor(since) >= Retained(log)[0].number { RingRefinesLog(log, since, filters); }
    if since == UINT64_RANGE - 1 { PickNone(Retained(log), since, filters, {}); }
  }

  /** Appending to the ring and cutting it to the capacity keeps it the end of the log. */
  lemma RingGrows(log: seq<Event>, ev: Event)
    ensures var ring := Retained(log) + [ev];
            Retained(log + [ev]) ==
              if |ring| > EVENT_REPLAY_CAPACITY then ring[|ring| - EVENT_REPLAY_CAPACITY..] else ring
  {
  }

  lemma LogGrows(log: seq<Event>, ev: Event)
    requires Numbered(log) && |log| + 1 < UINT64_RANGE && ev.number == |log| + 1
    ensures Numbered(log + [ev]) && Successor(|log|) == |log| + 1
    ensures var ring := Retained(log) + [ev];
            Retained(log + [ev]) ==
              if |ring| > EVENT_REPLAY_CAPACITY then ring[|ring| - EVENT_REPLAY_CAPACITY..] else ring
    ensures Retained(log + [ev]) == (log + [ev])[if |log| < 256 then 0 else |log| - 255..]
  {
    RingGrows(log, ev);
    RetainedExactly(log + [ev]);
  }

  /** The ring holds the last 256 events, or all. */
  lemma RetainedExactly(log: seq<Event>)
    ensures Retained(log) == log[if |log| <= 256 then 0 else |log| - 256..]
  {
  }

  lemma GapIffEvicted(log: seq<Event>, since: nat)
    requires Numbered(log) && log != [] && 0 < since < UINT64_RANGE
    ensures forall e | e in Retained(log) :: e.number < UINT64_RANGE
    ensures since < UINT64_RANGE - 1 ==>
              (Successor(since) < Retained(log)[0].number
               <==> exists i :: 0 <= i < |log| - |Retained(log)| && log[i].number > since)
    ensures since < UINT64_RANGE - 1 ==>
              (Successor(since) < Retained(log)[0].number <==> since < |log| - |Retained(log)|)
    ensures since == UINT64_RANGE - 1 ==>
              Successor(since) < Retained(log)[0].number
  {
    var evicted := |log| - |Retained(log)|;
    assert Retained(log)[0] == log[evicted];
    assert log[evicted].number == evicted + 1;
    if evicted > 0 {
      assert log[evicted - 1].number == evicted;
    }
  }
}
