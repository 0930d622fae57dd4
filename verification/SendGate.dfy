/**
 The send queue of a device session and its two gates: a packet other than a
 pair packet must find the device paired when it is queued and again when the
 writer takes it, and anything may happen in between.
 */
module SendGate {
  import opened Pairing

  const SEND_CAPACITY: nat := 32

  datatype Packet = Packet(kind: string, body: string)

  predicate PacketAllowed(state: PairingState, kind: string) {
    state == Paired || kind == "kdeconnect.pair"
  }

  /** A queued packet with the pairing state its sender saw. */
  datatype Item = Item(p: Packet, seen: PairingState)

  datatype Sender = Sender(session: nat, item: Item)

  /** The writer of a session holding a packet: before its gate, and (with the state it saw) after. */
  datatype Writer = Took(session: nat, item: Item) | Passed(session: nat, item: Item, gate: PairingState)

  /** A packet on a socket: out of which session's queue, past which gate, and on which session's connection. */
  datatype Written = Written(session: nat, item: Item, gate: PairingState, socket: nat)

  /** A session's queue, with all items it ever took in and gave out. */
  datatype Channel = Channel(queue: seq<Item>, accepted: seq<Item>, taken: seq<Item>)

  /** Sessions are numbered; each has its own channel. `written` is what reached a socket. */
  datatype Io = Io(
    state: PairingState, session: nat, connected: bool, closed: set<nat>,
    channels: map<nat, Channel>,
    senders: map<nat, Sender>, writers: map<nat, Writer>, nextTask: nat,
    written: seq<Written>)

  datatype Step =
    | SetState(s: PairingState)
    | Connect
    | Disconnect
    | BeginSend(p: Packet)
    | Enqueue(k: nat, preferDone: bool)   // a select with both cases ready picks either
    | Take(session: nat)                  // of the present or of a superseded session's writer
    | Gate(k: nat)
    | Write(k: nat)

  /** A full queue drops the packet. */
  function Offered(c: Channel, i: Item): Channel {
    if |c.queue| >= SEND_CAPACITY then c else c.(queue := c.queue + [i], accepted := c.accepted + [i])
  }

  function Popped(c: Channel): Channel
    requires c.queue != []
  {
    c.(queue := c.queue[1..], taken := c.taken + [c.queue[0]])
  }

  /** The connection is looked up for each packet: it is the one current at the write. */
  function OnSocket(w: Io, t: Writer): Written
    requires t.Passed?
  {
    Written(t.session, t.item, t.gate, w.session)
  }

  function Next(w: Io, step: Step): Io {
    match step
    case SetState(s) => w.(state := s)
    case Connect =>
      var n := w.session + 1;
      w.(session := n, connected := true, closed := if w.connected then w.closed + {w.session} else w.closed,
         channels := w.channels[n := Channel([], [], [])])
    case Disconnect => w.(connected := false, closed := if w.connected then w.closed + {w.session} else w.closed)
    case BeginSend(p) =>
      if !w.connected || !PacketAllowed(w.state, p.kind) then w
      else w.(senders := w.senders[w.nextTask := Sender(w.session, Item(p, w.state))], nextTask := w.nextTask + 1)
    case Enqueue(k, preferDone) =>
      if k !in w.senders || w.senders[k].session !in w.channels then w
      else
        var s := w.senders[k].session;
        w.(senders := w.senders - {k},
           channels := if s in w.closed && preferDone then w.channels
                       else w.channels[s := Offered(w.channels[s], w.senders[k].item)])
    case Take(s) =>
      if s !in w.channels || w.channels[s].queue == [] then w
      else w.(channels := w.channels[s := Popped(w.channels[s])],
              writers := w.writers[w.nextTask := Took(s, w.channels[s].queue[0])], nextTask := w.nextTask + 1)
    case Gate(k) =>
      if k !in w.writers || !w.writers[k].Took? then w
      else if !PacketAllowed(w.state, w.writers[k].item.p.kind) then w.(writers := w.writers - {k})
      else w.(writers := w.writers[k := Passed(w.writers[k].session, w.writers[k].item, w.state)])
    case Write(k) =>
      if k !in w.writers || !w.writers[k].Passed? then w
      else w.(writers := w.writers - {k},
              written := if w.connected then w.written + [OnSocket(w, w.writers[k])] else w.written)
  }

  function Run(steps: seq<Step>): Io {
    if steps == [] then Io(Unpaired, 0, false, {}, map[], map[], map[], 0, [])
    else Next(Run(steps[..|steps| - 1]), steps[|steps| - 1])
  }

  /** A device with no send or write under way: a call here is the steps above, one after the other. */
  class Device {
    var state: PairingState
    var session: nat
    var connected: bool
    var closed: set<nat>
    var channels: map<nat, Channel>
    var written: seq<Written>

    ghost function Snapshot(): Io
      reads this
    {
      Io(state, session, connected, closed, channels, map[], map[], 0, written)
    }

    constructor ()
      ensures Snapshot() == Run([])
    {
      state, session, connected, closed, channels, written := Unpaired, 0, false, {}, map[], [];
    }

    method Send(p: Packet, preferDone: bool) returns (queued: bool)
      requires connected ==> session in channels
      modifies this`channels
      ensures Snapshot() == Next(Next(old(Snapshot()), BeginSend(p)), Enqueue(0, preferDone)).(nextTask := 0)
      ensures queued <==> connected && (state == Paired || p.kind == "kdeconnect.pair")
                          && !(session in closed && preferDone) && |old(channels)[session].queue| < 32
      ensures !queued ==> channels == old(channels)
      ensures queued ==>
                var c, i := old(channels)[session], Item(p, state);
                channels == old(channels)[session := Channel(c.queue + [i], c.accepted + [i], c.taken)]
    {
      queued := false;
      if !connected { return; }
      if !PacketAllowed(state, p.kind) { return; }
      if session in closed && preferDone { return; }
      assert channels == channels[session := channels[session]];
      var c := channels[session];
      if |c.queue| < SEND_CAPACITY {
        var i := Item(p, state);
        channels := channels[session := c.(queue := c.queue + [i], accepted := c.accepted + [i])];
        queued := true;
      }
    }

    /** The writer of session `s` takes the next packet. */
    method WriteNext(s: nat) returns (wrote: bool)
      requires s in channels && channels[s].queue != []
      modifies this`channels, this`written
      ensures Snapshot() == Next(Next(Next(old(Snapshot()), Take(s)), Gate(0)), Write(0)).(nextTask := 0)
      ensures var c := old(channels)[s];
              && channels == old(channels)[s := Channel(c.queue[1..], c.accepted, c.taken + [c.queue[0]])]
              && (wrote <==> connected && (state == Paired || c.queue[0].p.kind == "kdeconnect.pair"))
      ensures written == if wrote then old(written) + [Written(s, old(channels)[s].queue[0], state, session)]
                         else old(written)
    {
      var c := channels[s];
      var item := c.queue[0];
      channels := channels[s := c.(queue := c.queue[1..], taken := c.taken + [item])];
      if !PacketAllowed(state, item.p.kind) { return false; }
      if !connected { return false; }
      written := written + [Written(s, item, state, session)];
      return true;
    }
  }

  predicate Admitted(i: Item) {
    PacketAllowed(i.seen, i.p.kind)
  }

  ghost predicate ChannelOk(c: Channel) {
    && |c.queue| <= SEND_CAPACITY
    && c.accepted == c.taken + c.queue
    && (forall i | i in c.accepted :: Admitted(i))
  }

  predicate WriterOk(t: Writer) {
    Admitted(t.item) && (t.Passed? ==> PacketAllowed(t.gate, t.item.p.kind))
  }

  predicate WrittenOk(t: Written) {
    Admitted(t.item) && PacketAllowed(t.gate, t.item.p.kind)
  }

  /** Sessions begin one after the other, and everything under way belongs to one that has begun. */
  ghost predicate SessionsBegun(w: Io) {
    && (forall s | s in w.channels :: s <= w.session)
    && (forall k | k in w.senders :: w.senders[k].session <= w.session)
    && (forall k | k in w.writers :: w.writers[k].session <= w.session)
    && (forall t | t in w.written :: t.session <= t.socket <= w.session)
  }

  ghost predicate Gated(w: Io) {
    && (forall s | s in w.channels :: ChannelOk(w.channels[s]))
    && (forall k | k in w.senders :: Admitted(w.senders[k].item))
    && (forall k | k in w.writers :: WriterOk(w.writers[k]))
    && (forall t | t in w.written :: WrittenOk(t))
  }

  ghost predicate Inv(w: Io) {
    Gated(w) && SessionsBegun(w)
  }

  lemma OfferedOk(c: Channel, i: Item)
    requires ChannelOk(c) && Admitted(i)
    ensures ChannelOk(Offered(c, i))
  {
    hide Admitted;
    assert c.taken + (c.queue + [i]) == c.accepted + [i];
  }

  lemma PoppedOk(c: Channel)
    requires ChannelOk(c) && c.queue != []
    ensures ChannelOk(Popped(c)) && Admitted(c.queue[0])
  {
    hide Admitted;
    assert c.accepted[|c.taken|] == c.queue[0];
    assert (c.taken + [c.queue[0]]) + c.queue[1..] == c.taken + c.queue;
  }

  lemma StepKeepsSessions(w: Io, step: Step)
    requires SessionsBegun(w)
    ensures SessionsBegun(Next(w, step))
  {
    hide PacketAllowed;
    hide Offered;
    hide Popped;
  }

  lemma StepKeepsGates(w: Io, step: Step)
    requires Gated(w)
    ensures Gated(Next(w, step))
  {
    match step
    case Connect => assert ChannelOk(Channel([], [], [])); hide ChannelOk;
    case Enqueue(k, preferDone) =>
      if k in w.senders && w.senders[k].session in w.channels {
        OfferedOk(w.channels[w.senders[k].session], w.senders[k].item);
      }
      hide ChannelOk;
    case Take(s) =>
      if s in w.channels && w.channels[s].queue != [] { PoppedOk(w.channels[s]); }
      hide ChannelOk;
    case _ => hide ChannelOk;
  }

  lemma StepKeeps(w: Io, step: Step)
    requires Inv(w)
    ensures Inv(Next(w, step))
  {
    StepKeepsGates(w, step);
    StepKeepsSessions(w, step);
    hide Gated;
    hide SessionsBegun;
  }

  /**
   In every run: each session's queue holds at most 32 packets and is first in,
   first out; what is written, unless a pair packet, was queued while paired and
   passed the writer's gate while paired; and it goes out on the connection of
   the session it was queued for or of a later one, never of an earlier one.
   */
  lemma {:induction false} GateHolds(steps: seq<Step>)
    ensures var w := Run(steps);
            && Inv(w)
            && (forall s | s in w.channels ::
                  |w.channels[s].queue| <= 32
                  && w.channels[s].accepted == w.channels[s].taken + w.channels[s].queue)
            && (forall t | t in w.written && t.item.p.kind != "kdeconnect.pair" ::
                  t.item.seen == Paired && t.gate == Paired)
            && (forall t | t in w.written :: t.session <= t.socket <= w.session)
  {
    if steps != [] {
      GateHolds(steps[..|steps| - 1]);
      StepKeeps(Run(steps[..|steps| - 1]), steps[|steps| - 1]);
    }
  }

  /** Neither gate holds back a pair packet, or any packet while the device is paired. */
  lemma GatesLet(w: Io, k: nat, p: Packet)
    requires w.state == Paired || p.kind == "kdeconnect.pair"
    ensures w.connected ==>
              Next(w, BeginSend(p)) == w.(senders := w.senders[w.nextTask := Sender(w.session, Item(p, w.state))],
                                          nextTask := w.nextTask + 1)
    ensures k in w.writers && w.writers[k].Took? && w.writers[k].item.p == p ==>
              var t := w.writers[k];
              Next(w, Gate(k)) == w.(writers := w.writers[k := Passed(t.session, t.item, w.state)])
    ensures k in w.writers && w.writers[k].Passed? && w.writers[k].item.p == p && w.connected ==>
              var t := w.writers[k];
              Next(w, Write(k)) == w.(writers := w.writers - {k},
                                      written := w.written + [Written(t.session, t.item, t.gate, w.session)])
  {
  }

  /** In every run, once disconnected nothing is accepted or written, and the session's close signal is closed. */
  lemma DisconnectStops(steps: seq<Step>, p: Packet, k: nat)
    ensures var w, w' := Run(steps), Run(steps + [Disconnect]);
            && !w'.connected && w'.channels == w.channels && w'.written == w.written
            && (w.connected ==> w.session in w'.closed)
            && Run(steps + [Disconnect, BeginSend(p)]) == w'
            && Run(steps + [Disconnect, Write(k)]).written == w.written
  {
    hide Run;
    hide Next;
    Disconnecting(Run(steps));
    NothingIsSent(Run(steps + [Disconnect]), p, k);
    RunNext(steps, Disconnect);
    RunNext(steps + [Disconnect], BeginSend(p));
    RunNext(steps + [Disconnect], Write(k));
    assert steps + [Disconnect, BeginSend(p)] == steps + [Disconnect] + [BeginSend(p)];
    assert steps + [Disconnect, Write(k)] == steps + [Disconnect] + [Write(k)];
  }

  lemma Disconnecting(w: Io)
    ensures var w' := Next(w, Disconnect);
            && !w'.connected && w'.channels == w.channels && w'.written == w.written
            && (w.connected ==> w.session in w'.closed)
  {
  }

  lemma NothingIsSent(w: Io, p: Packet, k: nat)
    ensures !w.connected ==> Next(w, BeginSend(p)) == w && Next(w, Write(k)).written == w.written
  {
    hide PacketAllowed;
  }

  lemma RunNext(steps: seq<Step>, step: Step)
    ensures Run(steps + [step]) == Next(Run(steps), step)
  {
    hide Next;
    assert (steps + [step])[..|steps|] == steps;
  }

  /** In every run, connecting begins a session with an empty queue, and closes the signal of one still open. */
  lemma ConnectBegins(steps: seq<Step>)
    ensures var w, w' := Run(steps), Run(steps + [Connect]);
            && w'.connected && w'.session == w.session + 1 && w'.session !in w.channels
            && w'.channels == w.channels[w'.session := Channel([], [], [])] && w'.written == w.written
            && w'.closed == w.closed + (if w.connected then {w.session} else {})
  {
    hide Run;
    RunNext(steps, Connect);
    GateHolds(steps);
  }

  /** A packet taken from a session superseded in the meantime does go out on the newer connection. */
  lemma SuccessorInstance(p: Packet)
    ensures var w := Run([SetState(Paired), Connect, BeginSend(p), Enqueue(0, true), Take(1), Connect, Gate(1),
                          Write(1)]);
            w.written == [Written(1, Item(p, Paired), Paired, 2)]
  {
    var i := Item(p, Paired);
    var before := [SetState(Paired), Connect, BeginSend(p), Enqueue(0, true)];
    hide Run;
    hide Next;
    IsQueued(p);
    RunSnoc(before + [Take(1), Connect], 4);
    RunSnoc(before + [Take(1), Connect], 5);
    assert (before + [Take(1), Connect])[..4] == before;
    assert (before + [Take(1), Connect])[..6] == before + [Take(1), Connect];
    IsTaken(i);
    var steps := before + [Take(1), Connect] + [Gate(1), Write(1)];
    RunSnoc(steps, 6);
    RunSnoc(steps, 7);
    assert steps[..6] == before + [Take(1), Connect] && steps[..8] == steps;
    IsWritten(i);
    assert steps == [SetState(Paired), Connect, BeginSend(p), Enqueue(0, true), Take(1), Connect, Gate(1), Write(1)];
  }

  lemma IsQueued(p: Packet)
    ensures var i := Item(p, Paired);
            Run([SetState(Paired), Connect, BeginSend(p), Enqueue(0, true)])
            == Io(Paired, 1, true, {}, map[1 := Channel([i], [i], [])], map[], map[], 1, [])
  {
    var i := Item(p, Paired);
    var steps := [SetState(Paired), Connect, BeginSend(p), Enqueue(0, true)];
    hide Run;
    RunSnoc(steps, 0);
    RunSnoc(steps, 1);
    RunSnoc(steps, 2);
    RunSnoc(steps, 3);
    assert steps[..4] == steps;
    var w := Io(Paired, 1, true, {}, map[1 := Channel([], [], [])], map[], map[], 0, []);
    assert Run(steps[..2]) == w;
    assert Next(w, BeginSend(p)) == w.(senders := map[0 := Sender(1, i)], nextTask := 1);
    assert Offered(Channel([], [], []), i) == Channel([i], [i], []);
  }

  lemma IsTaken(i: Item)
    ensures Next(Next(Io(Paired, 1, true, {}, map[1 := Channel([i], [i], [])], map[], map[], 1, []), Take(1)), Connect)
            == Io(Paired, 2, true, {1}, map[1 := Channel([], [i], [i]), 2 := Channel([], [], [])], map[],
                  map[1 := Took(1, i)], 2, [])
  {
    var c := Channel([i], [i], []);
    assert Popped(c) == Channel([], [i], [i]);
    assert Next(Io(Paired, 1, true, {}, map[1 := c], map[], map[], 1, []), Take(1))
           == Io(Paired, 1, true, {}, map[1 := Popped(c)], map[], map[1 := Took(1, i)], 2, []);
  }

  lemma IsWritten(i: Item)
    ensures var w := Io(Paired, 2, true, {1}, map[1 := Channel([], [i], [i]), 2 := Channel([], [], [])], map[],
                        map[1 := Took(1, i)], 2, []);
            Next(Next(w, Gate(1)), Write(1)).written == [Written(1, i, Paired, 2)]
  {
  }

  lemma RunSnoc(steps: seq<Step>, n: nat)
    requires n < |steps|
    ensures Run(steps[..n + 1]) == Next(Run(steps[..n]), steps[n])
    ensures Run(steps[..0]) == Io(Unpaired, 0, false, {}, map[], map[], map[], 0, [])
  {
    assert steps[..n + 1][..n] == steps[..n];
  }
}
