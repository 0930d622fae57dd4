/**
 Device sessions: a live connection may be replaced by a newer one, and the
 loops of the replaced one report its death late.
 */
module Sessions {
  import opened Wrappers

  type ConnId = nat
  type DoneId = nat

  /** `done` is the close signal of the session begun last; each session has its own. */
  datatype Session = Session(
    conn: Option<ConnId>,
    done: DoneId,
    doneUsed: bool,              // the sync.Once guarding the close of `done`
    closedDones: set<DoneId>,
    closedConns: set<ConnId>,
    everConnected: bool)

  function Initial(): Session {
    Session(None, 0, false, {}, {}, false)
  }

  function DoneClosed(s: Session): Session {
    if s.doneUsed then s else s.(doneUsed := true, closedDones := s.closedDones + {s.done})
  }

  /** A new session on connection `c`, ending the one that may be running. */
  function Connected(s: Session, c: ConnId): Session {
    var s' := if s.conn.Some? then DoneClosed(s) else s;
    Session(Some(c), s.done + 1, false, s'.closedDones,
            if s.conn.Some? then s.closedConns + {s.conn.value} else s.closedConns, true)
  }

  function Disconnected(s: Session): Session {
    if s.conn.None? then s
    else DoneClosed(s.(conn := None, closedConns := s.closedConns + {s.conn.value}))
  }

  /** A loop of connection `c` reports its death; only the current one counts. */
  function ConnDied(s: Session, c: ConnId): Session {
    if s.conn == Some(c) then Disconnected(s) else s
  }

  /** After the first connection the device is connected exactly while its current `done` is open. */
  ghost predicate SessionOk(s: Session) {
    && (s.doneUsed <==> s.done in s.closedDones)
    && (s.conn.Some? ==> !s.doneUsed)
    && (s.everConnected ==> (s.conn.Some? <==> s.done !in s.closedDones))
    && (!s.everConnected ==> s.conn.None? && s.closedDones == {})
    // of the earlier sessions' signals every one but the unused first is closed, and no later one exists
    && (forall d :: d in s.closedDones ==> 1 <= d <= s.done)
    && (forall d :: 1 <= d < s.done ==> d in s.closedDones)
    && (s.everConnected <==> s.done >= 1)
  }

  class Device {
    var conn: Option<ConnId>
    var done: DoneId
    var closeOnce: bool
    var closedDones: set<DoneId>
    var closedConns: set<ConnId>
    ghost var everConnected: bool

    ghost function Snapshot(): Session
      reads this
    {
      Session(conn, done, closeOnce, closedDones, closedConns, everConnected)
    }

    constructor ()
      ensures Snapshot() == Initial() && SessionOk(Snapshot())
    {
      conn, done, closeOnce, closedDones, closedConns, everConnected := None, 0, false, {}, {}, false;
    }

    /** Closing a closed channel panics. */
    method CloseDone(d: DoneId)
      requires d !in closedDones
      modifies this`closedDones
      ensures closedDones == old(closedDones) + {d}
    {
      closedDones := closedDones + {d};
    }

    method CloseDoneOnce()
      requires SessionOk(Snapshot())
      modifies this`closedDones, this`closeOnce
      ensures Snapshot() == DoneClosed(old(Snapshot()))
      ensures closeOnce && closedDones == old(closedDones) + {done}
    {
      if !closeOnce {
        closeOnce := true;
        CloseDone(done);
      }
    }

    /** The locked part of Connect, and the close of the replaced socket. */
    method Connect(c: ConnId) returns (replaced: Option<ConnId>)
      requires SessionOk(Snapshot())
      modifies this
      ensures Snapshot() == Connected(old(Snapshot()), c) && SessionOk(Snapshot())
      ensures replaced == old(conn)
      ensures conn == Some(c) && done == old(done) + 1 && done !in closedDones && !closeOnce && everConnected
      ensures closedDones == old(closedDones) + (if old(conn).Some? then {old(done)} else {})
      ensures closedConns == old(closedConns) + (if old(conn).Some? then {old(conn).value} else {})
    {
      replaced := None;
      if conn.Some? {
        replaced := conn;
        CloseDoneOnce();
      }
      conn := Some(c);
      done := done + 1;  // a fresh channel
      closeOnce := false;
      everConnected := true;
      if replaced.Some? { closedConns := closedConns + {replaced.value}; }
    }

    method Disconnect() returns (ended: bool)
      requires SessionOk(Snapshot())
      modifies this
      ensures Snapshot() == Disconnected(old(Snapshot())) && SessionOk(Snapshot())
      ensures ended <==> old(conn).Some?
      ensures conn.None? && done == old(done) && everConnected == old(everConnected)
      ensures if old(conn).Some?
              then closedConns == old(closedConns) + {old(conn).value} && closedDones == old(closedDones) + {done}
              else closedConns == old(closedConns) && closedDones == old(closedDones)
    {
      if conn.None? { return false; }
      CloseDoneOnce();
      closedConns := closedConns + {conn.value};
      conn := None;
      return true;
    }

    method DisconnectConn(c: ConnId) returns (ended: bool)
      requires SessionOk(Snapshot())
      modifies this
      ensures Snapshot() == ConnDied(old(Snapshot()), c) && SessionOk(Snapshot())
      ensures ended <==> old(conn) == Some(c)
      ensures done == old(done) && everConnected == old(everConnected)
      ensures if old(conn) == Some(c)
              then conn.None? && closedConns == old(closedConns) + {c} && closedDones == old(closedDones) + {done}
              else && conn == old(conn) && closedConns == old(closedConns) && closedDones == old(closedDones)
                   && closeOnce == old(closeOnce)
    {
      if conn != Some(c) { return false; }
      ended := Disconnect();
    }
  }

  // ---------- Runs ----------

  /** Events are published after the lock is released; `due...` counts those still to come. */
  datatype World = World(
    session: Session,
    superseded: nat,
    dueConnected: nat, dueDisconnected: nat,
    connectedEvents: nat, disconnectedEvents: nat)

  datatype Step =
    | Connect(c: ConnId)
    | Disconnect
    | Die(c: ConnId)
    | PublishConnected
    | PublishDisconnected

  function Ended(w: World, s': Session): World {
    w.(session := s', dueDisconnected := w.dueDisconnected + if w.session.conn.Some? && s'.conn.None? then 1 else 0)
  }

  function Next(w: World, p: Step): World {
    match p
    case Connect(c) =>
      w.(session := Connected(w.session, c), dueConnected := w.dueConnected + 1,
         superseded := w.superseded + if w.session.conn.Some? then 1 else 0)
    case Disconnect => Ended(w, Disconnected(w.session))
    case Die(c) => Ended(w, ConnDied(w.session, c))
    case PublishConnected =>
      if w.dueConnected == 0 then w
      else w.(dueConnected := w.dueConnected - 1, connectedEvents := w.connectedEvents + 1)
    case PublishDisconnected =>
      if w.dueDisconnected == 0 then w
      else w.(dueDisconnected := w.dueDisconnected - 1, disconnectedEvents := w.disconnectedEvents + 1)
  }

  function Run(w: World, steps: seq<Step>): World {
    if steps == [] then w else Next(Run(w, steps[..|steps| - 1]), steps[|steps| - 1])
  }

  const START: World := World(Initial(), 0, 0, 0, 0, 0)

  lemma SessionStaysOk(s: Session, c: ConnId)
    requires SessionOk(s)
    ensures SessionOk(Connected(s, c)) && SessionOk(Disconnected(s)) && SessionOk(ConnDied(s, c))
    // a signal once closed stays closed, and at most the current one is closed anew
    ensures s.closedDones <= Connected(s, c).closedDones <= s.closedDones + {s.done}
    ensures s.closedDones <= Disconnected(s).closedDones <= s.closedDones + {s.done}
  {
  }

  /** In every run: the state of `done` tells whether the device is connected, and the events balance. */
  lemma {:induction false} RunIsSound(steps: seq<Step>)
    ensures var w := Run(START, steps);
            && SessionOk(w.session)
            && w.connectedEvents + w.dueConnected ==
               w.disconnectedEvents + w.dueDisconnected + w.superseded + (if w.session.conn.Some? then 1 else 0)
  {
    if steps != [] {
      var front, p := steps[..|steps| - 1], steps[|steps| - 1];
      RunIsSound(front);
      var w := Run(START, front);
      SessionStaysOk(w.session, if p.Connect? || p.Die? then p.c else 0);
      hide SessionOk;
    }
  }

  /** Events at rest: sessions announced are sessions ended, superseded or alive. */
  lemma EventsBalance(steps: seq<Step>)
    requires Run(START, steps).dueConnected == 0 && Run(START, steps).dueDisconnected == 0
    ensures var w := Run(START, steps);
            w.connectedEvents == w.disconnectedEvents + w.superseded + (if w.session.conn.Some? then 1 else 0)
  {
    RunIsSound(steps);
  }

  /** Connecting makes the connection current with a signal never closed, and ends the session it replaces. */
  lemma ConnectBegins(steps: seq<Step>, c: ConnId)
    ensures var w, w' := Run(START, steps), Run(START, steps + [Connect(c)]);
            && w'.session.conn == Some(c) && w'.session.done !in w'.session.closedDones
            && w'.session.done !in w.session.closedDones && w'.session.done != w.session.done
            && w'.dueConnected == w.dueConnected + 1 && w'.dueDisconnected == w.dueDisconnected
            && w'.connectedEvents == w.connectedEvents && w'.disconnectedEvents == w.disconnectedEvents
            && (if w.session.conn.Some? then
                  && w'.session.closedConns == w.session.closedConns + {w.session.conn.value}
                  && w'.session.closedDones == w.session.closedDones + {w.session.done}
                  && w'.superseded == w.superseded + 1
                else
                  && w'.session.closedConns == w.session.closedConns
                  && w'.session.closedDones == w.session.closedDones
                  && w'.superseded == w.superseded)
  {
    assert (steps + [Connect(c)])[..|steps|] == steps;
    RunIsSound(steps);
  }

  /** A disconnect, or the death of the current connection, ends the session and owes one more event. */
  lemma SessionEnds(steps: seq<Step>, p: Step)
    requires Run(START, steps).session.conn.Some?
    requires p == Disconnect || p == Die(Run(START, steps).session.conn.value)
    ensures var w, w' := Run(START, steps), Run(START, steps + [p]);
            && w'.session.conn.None? && w'.session.done == w.session.done
            && w'.session.closedConns == w.session.closedConns + {w.session.conn.value}
            && w.session.done !in w.session.closedDones
            && w'.session.closedDones == w.session.closedDones + {w.session.done}
            && w'.dueDisconnected == w.dueDisconnected + 1 && w'.dueConnected == w.dueConnected
            && w'.connectedEvents == w.connectedEvents && w'.disconnectedEvents == w.disconnectedEvents
            && w'.superseded == w.superseded
  {
    assert (steps + [p])[..|steps|] == steps;
    RunIsSound(steps);
  }

  /** Without a session, or when another connection dies, nothing happens. */
  lemma NothingEnds(steps: seq<Step>, p: Step)
    requires var conn := Run(START, steps).session.conn;
             (p == Disconnect && conn.None?) || (p.Die? && conn != Some(p.c))
    ensures Run(START, steps + [p]) == Run(START, steps)
  {
    assert (steps + [p])[..|steps|] == steps;
  }

  /** An event that is due is published once. */
  lemma DueEventIsPublished(steps: seq<Step>)
    ensures var w, w' := Run(START, steps), Run(START, steps + [PublishConnected]);
            var n := if w.dueConnected > 0 then 1 else 0;
            w' == w.(dueConnected := w.dueConnected - n, connectedEvents := w.connectedEvents + n)
    ensures var w, w' := Run(START, steps), Run(START, steps + [PublishDisconnected]);
            var n := if w.dueDisconnected > 0 then 1 else 0;
            w' == w.(dueDisconnected := w.dueDisconnected - n, disconnectedEvents := w.disconnectedEvents + n)
  {
    assert (steps + [PublishConnected])[..|steps|] == steps;
    assert (steps + [PublishDisconnected])[..|steps|] == steps;
  }

  /** A connection accepted or dialled is a new one: no connection is opened twice. */
  predicate OpenedOnce(steps: seq<Step>) {
    forall i, j | 0 <= i < j < |steps| :: steps[i].Connect? && steps[j].Connect? ==> steps[i].c != steps[j].c
  }

  /** A connection once opened is current or its socket is closed. */
  lemma {:induction false} OpenedIsCurrentOrClosed(steps: seq<Step>, c: ConnId)
    requires Connect(c) in steps
    ensures Run(START, steps).session.conn == Some(c) || c in Run(START, steps).session.closedConns
  {
    var front, p := steps[..|steps| - 1], steps[|steps| - 1];
    if p != Connect(c) {
      assert steps == front + [p];
      OpenedIsCurrentOrClosed(front, c);
    }
  }

  /**
   Over whole runs: a connection that was opened and is no longer current, because
   it was superseded or ended, has its socket closed, never becomes current again,
   and its death notice changes nothing, however late it comes.
   */
  lemma {:induction false} SupersededNoticesAreInert(before: seq<Step>, later: seq<Step>, c: ConnId)
    requires OpenedOnce(before + later) && Connect(c) in before
    requires Run(START, before).session.conn != Some(c)
    ensures var w := Run(START, before + later);
            && w.session.conn != Some(c) && c in w.session.closedConns
            && Run(START, before + later + [Die(c)]) == w
    decreases |later|
  {
    hide Connected;
    hide Disconnected;
    var steps := before + later;
    assert (steps + [Die(c)])[..|steps|] == steps;
    assert Connect(c) in steps;
    OpenedIsCurrentOrClosed(steps, c);
    if later == [] {
      assert steps == before;
    } else {
      var front, p := later[..|later| - 1], later[|later| - 1];
      assert steps[..|steps| - 1] == before + front && steps[|steps| - 1] == p;
      assert OpenedOnce(before + front);
      SupersededNoticesAreInert(before, front, c);
      var i :| 0 <= i < |before| && before[i] == Connect(c);
      assert steps[i] == Connect(c);
      StaysSuperseded(Run(START, before + front), p, c);
    }
  }

  /** Only opening a connection makes it current. */
  lemma StaysSuperseded(w: World, p: Step, c: ConnId)
    requires w.session.conn != Some(c) && p != Connect(c)
    ensures Next(w, p).session.conn != Some(c)
  {
  }

  /** Nothing but its own death, a disconnect or a replacement ends a session. */
  lemma SessionEndsOnlyBy(w: World, p: Step, c: ConnId)
    requires w.session.conn == Some(c) && Next(w, p).session.conn != Some(c)
    ensures p == Disconnect || p == Die(c) || (p.Connect? && p.c != c)
  {
  }
}
