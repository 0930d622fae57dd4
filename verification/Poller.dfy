/**
 The position poller of the media plugin: armed while players are tracked,
 stopped when none are, and able to stop itself late.
 */
module Poller {
  import opened Wrappers

  /** A poller goroutine: told to stop, out of its loop, or done for good. */
  datatype Goroutine = Goroutine(cancelled: bool, left: bool, finished: bool)

  /** `handle` is the cancel function held, named by the generation it belongs to. */
  datatype State = State(players: set<string>, handle: Option<nat>, gen: nat, pollers: map<nat, Goroutine>)

  const START: State := State({}, None, 0, map[])

  function Armed(s: State): State {
    if s.handle.Some? then s
    else s.(gen := s.gen + 1, handle := Some(s.gen + 1),
            pollers := s.pollers[s.gen + 1 := Goroutine(false, false, false)])
  }

  function Stopped(s: State): State {
    if s.handle.None? then s
    else s.(handle := None,
            pollers := map g | g in s.pollers ::
                         if g == s.handle.value then s.pollers[g].(cancelled := true) else s.pollers[g])
  }

  function Synced(s: State, enabled: bool): State {
    if enabled && s.players != {} then Armed(s) else Stopped(s)
  }

  /** Poller `g` is out of its loop: cancelled, nothing playing, or too many failures. */
  function Left(s: State, g: nat): State {
    if g in s.pollers then s.(pollers := s.pollers[g := s.pollers[g].(left := true)]) else s
  }

  /** Poller `g`, out of its loop, releases the slot if it is still its own. */
  function Finished(s: State, g: nat): State {
    if g !in s.pollers || !s.pollers[g].left || s.pollers[g].finished then s
    else s.(pollers := s.pollers[g := s.pollers[g].(finished := true)], handle := if s.gen == g then None else s.handle)
  }

  lemma StoppedExactly(s: State)
    ensures Stopped(s).handle.None? && Stopped(s).players == s.players && Stopped(s).gen == s.gen
    ensures Stopped(s).pollers
            == if s.handle.Some? && s.handle.value in s.pollers
               then s.pollers[s.handle.value := s.pollers[s.handle.value].(cancelled := true)] else s.pollers
  {
    if s.handle.Some? {
      assert Stopped(s).pollers
          == if s.handle.value in s.pollers
             then s.pollers[s.handle.value := s.pollers[s.handle.value].(cancelled := true)] else s.pollers;
    }
  }

  class MPRISPlugin {
    const pollWhilePlaying: bool
    var players: set<string>
    var pollCancel: Option<nat>
    var pollGen: nat
    var pollers: map<nat, Goroutine>

    ghost function Snapshot(): State
      reads this
    {
      State(players, pollCancel, pollGen, pollers)
    }

    constructor (pollWhilePlaying: bool)
      ensures Snapshot() == START && this.pollWhilePlaying == pollWhilePlaying
    {
      this.pollWhilePlaying := pollWhilePlaying;
      players, pollCancel, pollGen, pollers := {}, None, 0, map[];
    }

    method ArmPlayingPollerLocked()
      modifies this
      ensures Snapshot() == Armed(old(Snapshot()))
      ensures players == old(players)
      ensures if old(pollCancel).Some? then
                     pollGen == old(pollGen) && pollCancel == old(pollCancel) && pollers == old(pollers)
                   else
                     pollGen == old(pollGen) + 1 && pollCancel == Some(pollGen)
                     && pollers == old(pollers)[pollGen := Goroutine(false, false, false)]
    {
      if pollCancel.Some? { return; }
      pollGen := pollGen + 1;
      pollCancel := Some(pollGen);
      pollers := pollers[pollGen := Goroutine(false, false, false)];
    }

    method StopPlayingPollerLocked()
      modifies this
      ensures Snapshot() == Stopped(old(Snapshot()))
      ensures players == old(players)
      ensures pollCancel.None? && pollGen == old(pollGen)
                   && pollers == (var g := old(pollCancel);
                                  if g.Some? && g.value in old(pollers)
                                  then old(pollers)[g.value := old(pollers)[g.value].(cancelled := true)]
                                  else old(pollers))
    {
      StoppedExactly(Snapshot());
      hide Stopped;
      if pollCancel.Some? {
        var g := pollCancel.value;
        if g in pollers { pollers := pollers[g := pollers[g].(cancelled := true)]; }
        pollCancel := None;
      }
    }

    method SyncPlayingPollerLocked()
      modifies this
      ensures Snapshot() == Synced(old(Snapshot()), pollWhilePlaying)
      ensures players == old(players)
      ensures pollWhilePlaying && players != {} ==>
              (if old(pollCancel).Some? then
                 pollGen == old(pollGen) && pollCancel == old(pollCancel) && pollers == old(pollers)
               else
                 pollGen == old(pollGen) + 1 && pollCancel == Some(pollGen)
                 && pollers == old(pollers)[pollGen := Goroutine(false, false, false)])
      ensures !pollWhilePlaying || players == {} ==>
              (pollCancel.None? && pollGen == old(pollGen)
               && pollers == (var g := old(pollCancel);
                              if g.Some? && g.value in old(pollers)
                              then old(pollers)[g.value := old(pollers)[g.value].(cancelled := true)]
                              else old(pollers)))
    {
      if !pollWhilePlaying {
        StopPlayingPollerLocked();
        return;
      }
      if players == {} {
        StopPlayingPollerLocked();
        return;
      }
      ArmPlayingPollerLocked();
    }

    method RemovePlayer(name: string)
      modifies this
      ensures Snapshot() == Synced(old(Snapshot()).(players := old(players) - {name}), pollWhilePlaying)
      ensures players == old(players) - {name}
      ensures pollWhilePlaying && players != {} ==>
              (if old(pollCancel).Some? then
                 pollGen == old(pollGen) && pollCancel == old(pollCancel) && pollers == old(pollers)
               else
                 pollGen == old(pollGen) + 1 && pollCancel == Some(pollGen)
                 && pollers == old(pollers)[pollGen := Goroutine(false, false, false)])
      ensures !pollWhilePlaying || players == {} ==>
              (pollCancel.None? && pollGen == old(pollGen)
               && pollers == (var g := old(pollCancel);
                              if g.Some? && g.value in old(pollers)
                              then old(pollers)[g.value := old(pollers)[g.value].(cancelled := true)]
                              else old(pollers)))
    {
      players := players - {name};
      SyncPlayingPollerLocked();
    }

    method FinishPlayingPoller(g: nat)
      requires g in pollers && pollers[g].left && !pollers[g].finished
      modifies this
      ensures Snapshot() == Finished(old(Snapshot()), g)
      ensures players == old(players) && pollGen == old(pollGen)
      ensures pollers == old(pollers)[g := old(pollers)[g].(finished := true)]
      ensures pollCancel == if pollGen == g then None else old(pollCancel)
    {
      pollers := pollers[g := pollers[g].(finished := true)];
      if pollGen == g { pollCancel := None; }
    }
  }

  // ---------- Runs ----------

  datatype Step =
    | AddPlayer(name: string)
    | StoreState                // every observed state of a player ends in a sync
    | RemovePlayer(name: string)
    | Leave(g: nat)
    | Finish(g: nat)

  function Next(s: State, enabled: bool, p: Step): State {
    match p
    case AddPlayer(name) => s.(players := s.players + {name})
    case StoreState => Synced(s, enabled)
    case RemovePlayer(name) => Synced(s.(players := s.players - {name}), enabled)
    case Leave(g) => Left(s, g)
    case Finish(g) => Finished(s, g)
  }

  function Run(enabled: bool, steps: seq<Step>): State {
    if steps == [] then START else Next(Run(enabled, steps[..|steps| - 1]), enabled, steps[|steps| - 1])
  }

  predicate Active(s: State, g: nat) {
    g in s.pollers && !s.pollers[g].cancelled && !s.pollers[g].finished
  }

  /** The handle held is that of the one active poller, and is held only while players are tracked. */
  ghost predicate Inv(s: State, enabled: bool) {
    && (forall g | g in s.pollers :: g <= s.gen)
    && (s.handle.Some? ==> s.handle.value == s.gen)
    && (forall g: nat :: Active(s, g) <==> s.handle == Some(g))
    && (s.handle.Some? ==> enabled && s.players != {})
  }

  lemma StepKeeps(s: State, enabled: bool, p: Step)
    requires Inv(s, enabled)
    ensures Inv(Next(s, enabled, p), enabled)
  {
    if s.handle.Some? { assert Active(s, s.handle.value); }
    var s' := Next(s, enabled, p);
    forall g: nat ensures Active(s', g) <==> s'.handle == Some(g) {
      assert Active(s, g) <==> s.handle == Some(g);
    }
  }

  lemma {:induction false} RunKeeps(enabled: bool, steps: seq<Step>)
    ensures Inv(Run(enabled, steps), enabled)
  {
    if steps != [] {
      RunKeeps(enabled, steps[..|steps| - 1]);
      StepKeeps(Run(enabled, steps[..|steps| - 1]), enabled, steps[|steps| - 1]);
    }
  }

  /** In every run: one active poller at most, and the handle is its. */
  lemma AtMostOneActive(enabled: bool, steps: seq<Step>, g: nat, h: nat)
    requires Active(Run(enabled, steps), g) && Active(Run(enabled, steps), h)
    ensures g == h && Run(enabled, steps).handle == Some(g)
    ensures enabled && Run(enabled, steps).players != {}
  {
    RunKeeps(enabled, steps);
  }

  /** With the last player removed, or polling switched off, no poller goes on. */
  lemma NoPlayersNoPoller(enabled: bool, steps: seq<Step>, name: string, g: nat)
    requires !enabled || Run(enabled, steps).players <= {name}
    ensures var s := Run(enabled, steps + [RemovePlayer(name)]);
            s.handle.None? && (g in s.pollers ==> s.pollers[g].cancelled || s.pollers[g].finished)
  {
    var longer := steps + [RemovePlayer(name)];
    assert longer[..|longer| - 1] == steps;
    RunKeeps(enabled, longer);
    assert !Active(Run(enabled, longer), g);
  }

  /** A poller that finishes late leaves its successor's handle alone. */
  lemma LateFinishIsHarmless(enabled: bool, steps: seq<Step>, g: nat, h: nat)
    requires Run(enabled, steps).handle == Some(h) && h != g
    ensures Run(enabled, steps + [Finish(g)]).handle == Some(h)
    ensures Active(Run(enabled, steps + [Finish(g)]), h)
  {
    RunKeeps(enabled, steps);
    var longer := steps + [Finish(g)];
    assert longer[..|longer| - 1] == steps;
    assert Active(Run(enabled, steps), h);
  }

  /**
   An observed state leaves a poller polling exactly if none is held that has
   already left its loop: arming in the window before such a poller finishes is
   lost, and once it has finished nothing polls.
   */
  lemma ArmedUnlessLeaving(enabled: bool, steps: seq<Step>)
    requires enabled && Run(enabled, steps).players != {}
    ensures var s := Run(enabled, steps);
            var s' := Run(enabled, steps + [StoreState]);
            && s'.handle.Some? && s'.handle.value in s'.pollers
            && (!s'.pollers[s'.handle.value].left
                <==> !(s.handle.Some? && s.handle.value in s.pollers && s.pollers[s.handle.value].left))
    ensures var s := Run(enabled, steps);
            s.handle.Some? && s.handle.value in s.pollers && s.pollers[s.handle.value].left ==>
              forall g: nat :: !Active(Run(enabled, steps + [StoreState, Finish(s.handle.value)]), g)
  {
    RunKeeps(enabled, steps);
    var s := Run(enabled, steps);
    var one := steps + [StoreState];
    assert one[..|one| - 1] == steps;
    if s.handle.Some? {
      assert Active(s, s.handle.value);
      var two := steps + [StoreState, Finish(s.handle.value)];
      assert two[..|two| - 1] == one;
      RunKeeps(enabled, two);
    }
  }

  /** Such a run: an arm is lost between a poller's exit from its loop and its finish, and nothing polls. */
  lemma LostArmInstance(name: string)
    ensures var steps := [AddPlayer(name), StoreState, Leave(1), StoreState];
            && Run(true, steps).handle == Some(1)
            && 1 in Run(true, steps).pollers && Run(true, steps).pollers[1].left
            && Run(true, steps + [Finish(1)]).players == {name}
            && forall g: nat :: !Active(Run(true, steps + [Finish(1)]), g)
  {
    var two := [AddPlayer(name), StoreState];
    assert two[..1] == [AddPlayer(name)];
    assert Run(true, [AddPlayer(name)]).players == {name};
    assert Run(true, two) == State({name}, Some(1), 1, map[1 := Goroutine(false, false, false)]);
    var three := two + [Leave(1)];
    assert three[..2] == two;
    assert Run(true, three) == State({name}, Some(1), 1, map[1 := Goroutine(false, true, false)]);
    var four := three + [StoreState];
    assert four[..3] == three;
    assert four == [AddPlayer(name), StoreState, Leave(1), StoreState];
    assert (four + [Finish(1)])[..4] == four;
  }
}
