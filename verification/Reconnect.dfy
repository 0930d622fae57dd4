/** Redialling a paired device: the backoff, the timed loop around it, and the guard that keeps it single. */
module Reconnect {
  import opened Wrappers

  const SECOND: int := 1_000_000_000
  const MAX_DURATION: int := 0x7fff_ffff_ffff_ffff
  const RECONNECT_BACKOFF_BASE: int := 2 * SECOND
  const RECONNECT_TRIGGER_MIN_GAP: int := 5 * SECOND

  // ---------- Backoff ----------

  function Pow2(n: nat): nat {
    if n == 0 then 1 else 2 * Pow2(n - 1)
  }

  /** `base` doubled `n` times. */
  function Doubled(base: int, n: nat): int {
    if n == 0 then base else 2 * Doubled(base, n - 1)
  }

  lemma {:induction false} DoubledIsPower(base: int, n: nat)
    ensures Doubled(base, n) == base * Pow2(n)
  {
    if n > 0 {
      DoubledIsPower(base, n - 1);
      assert 2 * (base * Pow2(n - 1)) == base * (2 * Pow2(n - 1));
    }
  }

  lemma {:induction false} DoubledGrows(base: int, m: nat, n: nat)
    requires base > 0 && m <= n
    ensures 0 < Doubled(base, m) <= Doubled(base, n)
    decreases n
  {
    if m < n {
      DoubledGrows(base, m, n - 1);
    } else if n > 0 {
      DoubledGrows(base, n - 1, n - 1);
    }
  }

  function Base(initial: int): int {
    if initial > 0 then initial else RECONNECT_BACKOFF_BASE
  }

  function Backoff(attempt: int, maxDuration: int, initial: int): int {
    if maxDuration <= 0 then 0
    else Min(Doubled(Base(initial), if attempt < 0 then 0 else attempt), maxDuration)
  }

  /** The base, doubled once per attempt and capped, without leaving the range of a 64-bit duration. */
  method ReconnectBackoff(attempt: int, maxDuration: int, initial: int) returns (delay: int)
    requires maxDuration <= MAX_DURATION && initial <= MAX_DURATION
    ensures delay == Backoff(attempt, maxDuration, initial)
    ensures 0 <= delay <= MAX_DURATION
    ensures maxDuration <= 0 ==> delay == 0
    ensures maxDuration > 0 && attempt <= 0 ==>
              delay == Min(if initial > 0 then initial else 2_000_000_000, maxDuration)
  {
    var base := RECONNECT_BACKOFF_BASE;
    if initial > 0 { base := initial; }
    if maxDuration <= 0 { return 0; }
    DoubledGrows(base, 0, if attempt < 0 then 0 else attempt);
    delay := Min(base, maxDuration);
    var i := 0;
    while i < attempt && delay < maxDuration
      invariant 0 <= i && (i <= attempt || i == 0)
      invariant 0 < delay == Min(Doubled(base, i), maxDuration)
    {
      DoubledGrows(base, i + 1, attempt);
      if delay > maxDuration / 2 {
        return maxDuration;
      }
      assert delay * 2 <= MAX_DURATION;
      delay := delay * 2;
      i := i + 1;
    }
    if i < attempt { DoubledGrows(base, i, attempt); }
  }

  /** More attempts never shorten the wait, which is between the (capped) base and the cap. */
  lemma BackoffMonotone(m: int, n: int, maxDuration: int, initial: int)
    requires m <= n
    ensures Backoff(m, maxDuration, initial) <= Backoff(n, maxDuration, initial)
    ensures maxDuration > 0 ==> Min(Base(initial), maxDuration) <= Backoff(m, maxDuration, initial) <= maxDuration
    ensures maxDuration > 0 && n >= 0 ==>
              Backoff(n, maxDuration, initial) == Min(Base(initial) * Pow2(n), maxDuration)
  {
    var m', n' := if m < 0 then 0 else m, if n < 0 then 0 else n;
    DoubledGrows(Base(initial), m', n');
    DoubledGrows(Base(initial), 0, m');
    DoubledIsPower(Base(initial), n');
  }

  /** The first wait is the base, two seconds unless configured, and each further attempt doubles it up to the cap. */
  lemma BackoffExactly(attempt: nat, maxDuration: int, initial: int)
    ensures maxDuration <= 0 ==> Backoff(attempt, maxDuration, initial) == 0
    ensures maxDuration > 0 ==>
              Backoff(0, maxDuration, initial) == Min(if initial > 0 then initial else 2_000_000_000, maxDuration)
    ensures maxDuration > 0 ==>
              Backoff(attempt + 1, maxDuration, initial) == Min(2 * Backoff(attempt, maxDuration, initial), maxDuration)
  {
    DoubledGrows(Base(initial), 0, attempt);
  }

  // ---------- The loop ----------

  datatype Config = Config(maxBackoff: int, initialBackoff: int, sightingDriven: bool, fallbackMax: int,
                           staleAfter: int)

  function WaitCap(cfg: Config): int {
    if cfg.sightingDriven then cfg.fallbackMax else cfg.maxBackoff
  }

  /** How a lap's wait ends; timers may be late, sightings come when they come. */
  datatype Wake = Shutdown | Sighting(after: nat) | TimerFired(late: nat)

  /** What one lap of the loop observes: before the wait, at its end, and of its dial. */
  datatype Lap = Lap(
    shutdown: bool, paired: bool, connected: bool, silence: int,
    wake: Wake,
    stillPaired: bool, nowConnected: bool,
    dialTime: nat, dialConnects: bool)

  datatype Dial = Dial(begun: int, ended: int, attempt: nat)

  datatype Outcome = Stopped | Succeeded(persistedAttempt: nat) | Running

  /** Each dial uses the next attempt and waits for the trigger gap or its own backoff, whichever is less. */
  ghost predicate Paced(dials: seq<Dial>, cfg: Config, first: nat) {
    && (forall i | 0 <= i < |dials| :: dials[i].attempt == first + i && dials[i].begun <= dials[i].ended)
    && (forall i | 0 < i < |dials| ::
          dials[i].begun - dials[i - 1].ended
          >= Min(RECONNECT_TRIGGER_MIN_GAP, Backoff(dials[i].attempt, WaitCap(cfg), cfg.initialBackoff)))
  }

  lemma PacedGrows(dials: seq<Dial>, cfg: Config, first: nat, d: Dial)
    requires Paced(dials, cfg, first) && d.attempt == first + |dials| && d.begun <= d.ended
    requires dials != [] ==>
               d.begun - dials[|dials| - 1].ended
               >= Min(RECONNECT_TRIGGER_MIN_GAP, Backoff(d.attempt, WaitCap(cfg), cfg.initialBackoff))
    ensures Paced(dials + [d], cfg, first)
  {
    hide Backoff;
  }

  /** The time after some laps, and the dials they made. */
  datatype Progress = Progress(now: int, dials: seq<Dial>)

  /** A lap that finds no reason to stop: it dials, unless a sighting ended its wait too soon after the last dial. */
  function Lapped(cfg: Config, attempt0: nat, before: Progress, lap: Lap): Progress {
    var attempt := attempt0 + |before.dials|;
    var woke := before.now + match lap.wake
                             case Sighting(after) => after
                             case TimerFired(late) => Backoff(attempt, WaitCap(cfg), cfg.initialBackoff) + late
                             case Shutdown => 0;
    if lap.wake.Sighting? && before.dials != []
       && woke - before.dials[|before.dials| - 1].ended < RECONNECT_TRIGGER_MIN_GAP
    then Progress(woke, before.dials)
    else Progress(woke + lap.dialTime, before.dials + [Dial(woke, woke + lap.dialTime, attempt)])
  }

  function After(cfg: Config, attempt0: nat, start: int, laps: seq<Lap>): Progress {
    if laps == [] then Progress(start, [])
    else Lapped(cfg, attempt0, After(cfg, attempt0, start, laps[..|laps| - 1]), laps[|laps| - 1])
  }

  /**
   One more lap waits for a sighting or for the backoff of the next attempt. Then
   it makes that attempt, unless a sighting came within five seconds of the last
   dial's end; what was dialled before stays.
   */
  lemma LapExactly(cfg: Config, attempt0: nat, start: int, laps: seq<Lap>, lap: Lap)
    requires lap.wake != Shutdown
    ensures After(cfg, attempt0, start, []) == Progress(start, [])
    ensures var before, after := After(cfg, attempt0, start, laps), After(cfg, attempt0, start, laps + [lap]);
            var cap := if cfg.sightingDriven then cfg.fallbackMax else cfg.maxBackoff;
            var attempt := attempt0 + |before.dials|;
            var woke := before.now + (if lap.wake.Sighting? then lap.wake.after
                                      else Backoff(attempt, cap, cfg.initialBackoff) + lap.wake.late);
            if lap.wake.Sighting? && before.dials != []
               && woke - before.dials[|before.dials| - 1].ended < 5_000_000_000
            then after == Progress(woke, before.dials)
            else after == Progress(woke + lap.dialTime, before.dials + [Dial(woke, woke + lap.dialTime, attempt)])
  {
    hide Backoff;
    hide After;
    hide Lapped;
    AfterSnoc(cfg, attempt0, start, laps, lap);
    LappedExactly(cfg, attempt0, After(cfg, attempt0, start, laps), lap);
  }

  lemma AfterSnoc(cfg: Config, attempt0: nat, start: int, laps: seq<Lap>, lap: Lap)
    ensures After(cfg, attempt0, start, []) == Progress(start, [])
    ensures After(cfg, attempt0, start, laps + [lap])
            == Lapped(cfg, attempt0, After(cfg, attempt0, start, laps), lap)
  {
    hide Lapped;
    assert (laps + [lap])[..|laps|] == laps;
  }

  lemma LappedExactly(cfg: Config, attempt0: nat, before: Progress, lap: Lap)
    requires lap.wake != Shutdown
    ensures var after := Lapped(cfg, attempt0, before, lap);
            var cap := if cfg.sightingDriven then cfg.fallbackMax else cfg.maxBackoff;
            var attempt := attempt0 + |before.dials|;
            var woke := before.now + (if lap.wake.Sighting? then lap.wake.after
                                      else Backoff(attempt, cap, cfg.initialBackoff) + lap.wake.late);
            if lap.wake.Sighting? && before.dials != []
               && woke - before.dials[|before.dials| - 1].ended < 5_000_000_000
            then after == Progress(woke, before.dials)
            else after == Progress(woke + lap.dialTime, before.dials + [Dial(woke, woke + lap.dialTime, attempt)])
  {
    hide Backoff;
  }

  /** The loop, fed with what each of its laps observes; `start` is the time it begins, `gone` counts its whole laps. */
  method ReconnectWithBackoff(cfg: Config, attempt0: nat, start: int, laps: seq<Lap>)
    returns (dials: seq<Dial>, outcome: Outcome, ghost gone: nat)
    requires cfg.maxBackoff <= MAX_DURATION && cfg.fallbackMax <= MAX_DURATION && cfg.initialBackoff <= MAX_DURATION
    ensures Paced(dials, cfg, attempt0)
    ensures outcome.Succeeded? ==> outcome.persistedAttempt == attempt0 + |dials| && dials != []
    ensures outcome.Running? ==> |dials| <= |laps|
    ensures gone <= |laps| && dials == After(cfg, attempt0, start, laps[..gone]).dials
    // a lap is gone through exactly if it finds no reason to stop and no dial before it connected
    ensures forall i | 0 <= i < gone ::
              && !laps[i].shutdown && laps[i].paired && !laps[i].connected && laps[i].wake != Shutdown
              && !laps[i].nowConnected && laps[i].stillPaired
              && !(cfg.sightingDriven && laps[i].silence > cfg.staleAfter)
    ensures forall i {:trigger laps[i]} | 0 <= i < gone ::
              (laps[i].dialConnects
               && |After(cfg, attempt0, start, laps[..i + 1]).dials| > |After(cfg, attempt0, start, laps[..i]).dials|
               <==> outcome.Succeeded? && i == gone - 1)
    ensures outcome.Succeeded? ==> gone > 0
    ensures outcome.Running? ==> gone == |laps|
    ensures outcome.Stopped? ==>
              && gone < |laps|
              && var lap := laps[gone];
                 lap.shutdown || !lap.paired || lap.connected || lap.wake == Shutdown || lap.nowConnected
                 || !lap.stillPaired || (cfg.sightingDriven && lap.silence > cfg.staleAfter)
  {
    hide Backoff;
    hide After;
    hide Lapped;
    hide Paced;
    var waitCap := cfg.maxBackoff;
    if cfg.sightingDriven { waitCap := cfg.fallbackMax; }
    var attempt := attempt0;
    var now := start;
    dials := [];
    gone := 0;
    NoLaps(cfg, attempt0, start, laps);
    for i := 0 to |laps|
      invariant Paced(dials, cfg, attempt0) && attempt == attempt0 + |dials| && |dials| <= i
      invariant dials != [] ==> dials[|dials| - 1].ended <= now
      invariant gone == i && Progress(now, dials) == After(cfg, attempt0, start, laps[..i])
      invariant forall k | 0 <= k < i ::
          && !laps[k].shutdown && laps[k].paired && !laps[k].connected && laps[k].wake != Shutdown
          && !laps[k].nowConnected && laps[k].stillPaired
          && !(cfg.sightingDriven && laps[k].silence > cfg.staleAfter)
      invariant forall k {:trigger laps[k]} | 0 <= k < i ::
          !(laps[k].dialConnects
            && |After(cfg, attempt0, start, laps[..k + 1]).dials| > |After(cfg, attempt0, start, laps[..k]).dials|)
    {
      var lap := laps[i];
      if lap.shutdown || !lap.paired || lap.connected { outcome := Stopped; return; }
      if cfg.sightingDriven && lap.silence > cfg.staleAfter { outcome := Stopped; return; }
      var backoff := ReconnectBackoff(attempt, waitCap, cfg.initialBackoff);
      var triggered := false;
      NextLap(cfg, attempt0, start, laps, i);
      if lap.wake != Shutdown { LappedExactly(cfg, attempt0, Progress(now, dials), lap); }
      match lap.wake {
        case Shutdown => outcome := Stopped; return;
        case Sighting(after) =>
          now := now + after;
          triggered := true;
        case TimerFired(late) =>
          now := now + backoff + late;
      }
      if lap.nowConnected || !lap.stillPaired { outcome := Stopped; return; }
      gone := gone + 1;
      if triggered && |dials| > 0 && now - dials[|dials| - 1].ended < RECONNECT_TRIGGER_MIN_GAP {
        continue;
      }
      var begun := now;
      now := now + lap.dialTime;
      PacedGrows(dials, cfg, attempt0, Dial(begun, now, attempt));
      dials := dials + [Dial(begun, now, attempt)];
      if lap.dialConnects { outcome := Succeeded(attempt + 1); return; }
      attempt := attempt + 1;
    }
    assert laps[..|laps|] == laps;
    outcome := Running;
  }

  lemma NoLaps(cfg: Config, attempt0: nat, start: int, laps: seq<Lap>)
    ensures Paced([], cfg, attempt0)
    ensures After(cfg, attempt0, start, laps[..0]) == Progress(start, [])
  {
  }

  lemma NextLap(cfg: Config, attempt0: nat, start: int, laps: seq<Lap>, i: nat)
    requires i < |laps|
    ensures After(cfg, attempt0, start, laps[..i + 1])
            == Lapped(cfg, attempt0, After(cfg, attempt0, start, laps[..i]), laps[i])
  {
    assert laps[..i + 1][..i] == laps[..i];
  }

  // ---------- At most one loop per device ----------

  class Device {
    var reconnecting: bool
    /** The loops spawned for this device that have not returned. */
    ghost var loops: set<nat>
    /** Those of them that have decided to return and dial no more. */
    ghost var leaving: set<nat>

    ghost predicate Valid()
      reads this
    {
      (reconnecting <==> loops != {}) && leaving <= loops && forall a, b | a in loops && b in loops :: a == b
    }

    ghost function Snapshot(): Guard
      reads this
    {
      Guard(reconnecting, loops, leaving)
    }

    constructor ()
      ensures Valid() && Snapshot() == Run([])
      ensures !reconnecting && loops == {} && leaving == {}
    {
      reconnecting, loops, leaving := false, {}, {};
    }

    /** A compare-and-set; whoever gets true spawns loop `id`. */
    method TryReconnect(ghost id: nat) returns (ok: bool)
      requires Valid()
      modifies this
      ensures Valid() && (ok <==> old(loops) == {})
      ensures loops == (if ok then {id} else old(loops)) && leaving == old(leaving) && reconnecting
      ensures Snapshot() == Next(old(Snapshot()), Try(id))
    {
      if reconnecting { return false; }
      reconnecting := true;
      loops := {id};
      return true;
    }

    /** Run by a loop as it returns. */
    method ReconnectDone(ghost id: nat)
      requires Valid() && id in loops
      modifies this
      ensures Valid() && loops == {} && leaving == {} && !reconnecting
      ensures Snapshot() == Next(old(Snapshot()), Exit(id))
    {
      reconnecting := false;
      assert loops == {id};
      loops, leaving := {}, leaving - {id};
    }
  }

  /**
   `Try(id)` is a drop or a sighting trying to spawn loop `id`; `Leave(id)` is
   that loop finding a reason to stop, and `Exit(id)` its deferred release of the
   flag as it returns.
   */
  datatype Event = Try(id: nat) | Leave(id: nat) | Exit(id: nat)

  datatype Guard = Guard(reconnecting: bool, loops: set<nat>, leaving: set<nat>)

  function Next(g: Guard, e: Event): Guard {
    match e
    case Try(id) => if g.reconnecting then g else g.(reconnecting := true, loops := g.loops + {id})
    case Leave(id) => if id in g.loops then g.(leaving := g.leaving + {id}) else g
    case Exit(id) => if id in g.loops then Guard(false, g.loops - {id}, g.leaving - {id}) else g
  }

  function Run(events: seq<Event>): Guard {
    if events == [] then Guard(false, {}, {}) else Next(Run(events[..|events| - 1]), events[|events| - 1])
  }

  /** However drops, sightings and exits interleave, no two loops are alive at once. */
  lemma {:induction false} AtMostOneLoop(events: seq<Event>)
    ensures var g := Run(events);
            |g.loops| <= 1 && (g.reconnecting <==> |g.loops| == 1) && g.leaving <= g.loops
  {
    if events != [] {
      AtMostOneLoop(events[..|events| - 1]);
      var g := Run(events[..|events| - 1]);
      if !g.reconnecting { assert g.loops == {}; }
    }
  }

  /** Some loop will go on dialling. */
  ghost predicate Redialling(g: Guard) {
    exists id :: id in g.loops && id !in g.leaving
  }

  /**
   A drop or a sighting leaves a loop redialling the device exactly unless the one
   alive has already decided to return: its flag then refuses the new loop, and
   nothing redials until something tries again.
   */
  lemma RespawnsUnlessLeaving(events: seq<Event>, id: nat, later: seq<Event>)
    ensures Redialling(Run(events + [Try(id)])) <==> Run(events).leaving == {}
    ensures Run(events).leaving != {} && (forall e | e in later :: !e.Try?) ==>
              !Redialling(Run(events + [Try(id)] + later))
  {
    AtMostOneLoop(events);
    var g, one := Run(events), events + [Try(id)];
    assert one[..|events|] == events;
    if g.leaving == {} {
      if g.reconnecting {
        var loop :| loop in g.loops;
      } else {
        assert g.loops == {};
        assert id in Next(g, Try(id)).loops && id !in Next(g, Try(id)).leaving;
      }
    } else {
      var gone :| gone in g.leaving;
      Single(g.loops, gone);
      if forall e | e in later :: !e.Try? { NothingRespawns(one, later); }
    }
  }

  lemma Single(s: set<nat>, x: nat)
    requires x in s && |s| <= 1
    ensures s == {x}
  {
    assert |s - {x}| == |s| - 1;
  }

  lemma {:induction false} NothingRespawns(events: seq<Event>, later: seq<Event>)
    requires !Redialling(Run(events)) && forall e | e in later :: !e.Try?
    ensures !Redialling(Run(events + later))
    decreases |later|
  {
    if later == [] {
      assert events + later == events;
    } else {
      var front, last := later[..|later| - 1], later[|later| - 1];
      assert (events + later)[..|events + later| - 1] == events + front;
      assert last in later;
      NothingRespawns(events, front);
      var g := Run(events + front);
      assert forall id | id in Next(g, last).loops :: id in g.loops && id in g.leaving;
    }
  }

  /** Such a run: a drop between a loop's last look and its return is refused, and no loop is left. */
  lemma LostRespawnInstance()
    ensures Run([Try(1), Leave(1), Try(2)]).loops == {1} && Run([Try(1), Leave(1), Try(2), Exit(1)]) == Run([])
  {
    var two, three := [Try(1), Leave(1)], [Try(1), Leave(1), Try(2)];
    assert two[..1] == [Try(1)] && three[..2] == two && [Try(1), Leave(1), Try(2), Exit(1)][..3] == three;
    assert Run([Try(1)]) == Guard(true, {1}, {});
    assert Run(two) == Guard(true, {1}, {1});
    assert {1} - {1} == {};
  }
}
