/**
 The read loop of a device: packets are read from the framed stream one by one,
 and reach the plugins only while the device is paired, unless they are about
 identity or pairing.
 */
module ReadLoop {
  import opened Bytes
  import opened Framing
  import opened Pairing
  import opened Wrappers
  import SendGate

  type Message = SendGate.Packet

  predicate DispatchAllowed(state: PairingState, kind: string) {
    state == Paired || kind == "kdeconnect.identity" || kind == "kdeconnect.pair"
  }

  /** What one lap hands to the plugins, the device being in `state`. */
  function Handed(r: PacketResult<Message>, state: PairingState): seq<Message> {
    if r.Packet? && DispatchAllowed(state, r.p.kind) then [r.p] else []
  }

  /** What is dispatched out of `results`, with one look at the pairing state for each. */
  function Dispatched(results: seq<LineResult>, states: seq<PairingState>,
                      decode: Bytes -> Option<Message>): seq<Message>
  {
    if results == [] || states == [] then []
    else Handed(Decoded(results[0], decode), states[0]) + Dispatched(results[1..], states[1..], decode)
  }

  /** What is dispatched out of a whole stream. */
  function FromStream(s: Bytes, max: int, end: Ending, states: seq<PairingState>,
                      decode: Bytes -> Option<Message>): seq<Message>
  {
    Dispatched(Results(s, max, end), states, decode)
  }

  lemma OneLap(s: Bytes, max: int, end: Ending, states: seq<PairingState>, decode: Bytes -> Option<Message>)
    requires states != []
    ensures var (r, rest) := NextLine(s, max, end);
            FromStream(s, max, end, states, decode)
            == Handed(Decoded(r, decode), states[0])
               + if r.Line? || r.TooLarge? then FromStream(rest, max, end, states[1..], decode) else []
  {
    var r := NextLine(s, max, end).0;
    if r.Line? || r.TooLarge? {
      ReadOn(s, max, end);
      var later := Results(NextLine(s, max, end).1, max, end);
      assert ([r] + later)[1..] == later;
    } else {
      assert Results(s, max, end) == [r];
      assert Dispatched([r][1..], states[1..], decode) == [];
    }
  }

  const MAX_PACKET_SIZE: int := 32 * 1024 * 1024

  /** `states` are the pairing states the laps find, until the context is cancelled. */
  method ReadLoop(r: BufReader, states: seq<PairingState>, decode: Bytes -> Option<Message>)
    returns (dispatched: seq<Message>)
    requires r.Valid()
    modifies r, r.conn
    ensures r.Valid()
    ensures dispatched == FromStream(old(r.Unread()), 33554432, r.conn.end, states, decode)
  {
    hide FromStream;
    dispatched := [];
    for lap := 0 to |states|
      invariant r.Valid()
      invariant dispatched + FromStream(r.Unread(), MAX_PACKET_SIZE, r.conn.end, states[lap..], decode)
                == FromStream(old(r.Unread()), MAX_PACKET_SIZE, r.conn.end, states, decode)
    {
      assert states[lap..][1..] == states[lap + 1..];
      var handed, ended := TakePacket(r, states[lap..], decode);
      dispatched := dispatched + handed;
      if ended { return; }
    }
    NoLapsLeft(r.Unread(), r.conn.end, states[|states|..], decode);
  }

  lemma NoLapsLeft(s: Bytes, end: Ending, states: seq<PairingState>, decode: Bytes -> Option<Message>)
    requires states == []
    ensures FromStream(s, MAX_PACKET_SIZE, end, states, decode) == []
  {
  }

  /** One lap: a line too long or not decoded is passed over, any other failure ends the loop. */
  method TakePacket(r: BufReader, states: seq<PairingState>, decode: Bytes -> Option<Message>)
    returns (handed: seq<Message>, ended: bool)
    requires r.Valid() && states != []
    modifies r, r.conn
    ensures r.Valid()
    ensures FromStream(old(r.Unread()), MAX_PACKET_SIZE, r.conn.end, states, decode)
            == handed + if ended then [] else FromStream(r.Unread(), MAX_PACKET_SIZE, r.conn.end, states[1..], decode)
    ensures var line := NextLine(old(r.Unread()), 33554432, r.conn.end).0;
            && (ended <==> !line.Line? && !line.TooLarge?)
            && (handed == if line.Line? && decode(line.line).Some?
                             && (states[0] == Paired || decode(line.line).value.kind == "kdeconnect.identity"
                                 || decode(line.line).value.kind == "kdeconnect.pair")
                          then [decode(line.line).value] else [])
  {
    OneLap(r.Unread(), MAX_PACKET_SIZE, r.conn.end, states, decode);
    hide NextLine;
    hide FromStream;
    var result := ReadPacketBounded(r, MAX_PACKET_SIZE, decode);
    match result
    case NoLine(why) => return [], why != TooLarge;
    case Malformed => return [], false;
    case Packet(p) => return if DispatchAllowed(states[0], p.kind) then [p] else [], false;
  }

  /** What becomes of one packet written. */
  function AtItsTurn(body: Bytes, max: int, state: PairingState, decode: Bytes -> Option<Message>): seq<Message> {
    match decode(Frame(body))
    case Some(p) => if |Frame(body)| <= max && DispatchAllowed(state, p.kind) then [p] else []
    case None => []
  }

  /** Where each of the packets written, in its turn, should end up. */
  function Wanted(bodies: seq<Bytes>, max: int, states: seq<PairingState>,
                  decode: Bytes -> Option<Message>): seq<Message>
  {
    if bodies == [] || states == [] then []
    else
      AtItsTurn(bodies[0], max, states[0], decode) + Wanted(bodies[1..], max, states[1..], decode)
  }

  /**
   Every packet the peer writes is judged by itself: it is dispatched if it fits,
   decodes and is allowed at its turn, whatever oversized, malformed or refused
   packets come before it.
   */
  lemma {:induction false} EachPacketByItself(bodies: seq<Bytes>, max: int, end: Ending, states: seq<PairingState>,
                                              decode: Bytes -> Option<Message>)
    requires max > 0 && forall i | 0 <= i < |bodies| :: NEWLINE !in bodies[i]
    ensures FromStream(Wire(bodies), max, end, states, decode) == Wanted(bodies, max, states, decode)
    decreases |bodies|
  {
    if states != [] {
      hide Frame;
      if bodies == [] {
        OneLap([], max, end, states, decode);
      } else {
        hide NextLine;
        FirstFrame(bodies[0], Wire(bodies[1..]), max, end);
        OneLap(Wire(bodies), max, end, states, decode);
        EachPacketByItself(bodies[1..], max, end, states[1..], decode);
      }
    }
  }

  lemma {:induction false} WantedSplits(bodies: seq<Bytes>, max: int, states: seq<PairingState>,
                                        decode: Bytes -> Option<Message>, i: nat)
    requires i < |bodies| && i < |states|
    ensures Wanted(bodies, max, states, decode)
            == Wanted(bodies[..i], max, states[..i], decode)
               + AtItsTurn(bodies[i], max, states[i], decode)
               + Wanted(bodies[i + 1..], max, states[i + 1..], decode)
  {
    hide AtItsTurn;
    if i > 0 {
      WantedSplits(bodies[1..], max, states[1..], decode, i - 1);
      assert bodies[..i][1..] == bodies[1..][..i - 1] && states[..i][1..] == states[1..][..i - 1];
      assert bodies[1..][i..] == bodies[i + 1..] && states[1..][i..] == states[i + 1..];
    }
  }

  /**
   What becomes of the packet written at position `i`: between what those before
   it and those behind it lead to, it is dispatched exactly if with its newline it
   fits, it decodes, and it is about identity or pairing or meets a paired device.
   */
  lemma PacketAtItsTurn(bodies: seq<Bytes>, max: int, end: Ending, states: seq<PairingState>,
                        decode: Bytes -> Option<Message>, i: nat)
    requires max > 0 && forall i | 0 <= i < |bodies| :: NEWLINE !in bodies[i]
    requires i < |bodies| && i < |states|
    ensures FromStream(Wire(bodies), max, end, states, decode)
            == FromStream(Wire(bodies[..i]), max, end, states[..i], decode)
               + (var packet := decode(bodies[i] + [10]);
                  if |bodies[i]| + 1 <= max && packet.Some?
                     && (states[i] == Paired || packet.value.kind == "kdeconnect.identity"
                         || packet.value.kind == "kdeconnect.pair")
                  then [packet.value] else [])
               + FromStream(Wire(bodies[i + 1..]), max, end, states[i + 1..], decode)
  {
    WantedSplits(bodies, max, states, decode, i);
    hide Wanted;
    hide FromStream;
    hide Wire;
    EachPacketByItself(bodies, max, end, states, decode);
    EachPacketByItself(bodies[..i], max, end, states[..i], decode);
    EachPacketByItself(bodies[i + 1..], max, end, states[i + 1..], decode);
  }

  /**
   Every packet dispatched was handed out by a lap of its own, the laps in order;
   and unless it is about identity or pairing, that lap found the device paired.
   */
  lemma {:induction false} DispatchedInItsLap(results: seq<LineResult>, states: seq<PairingState>,
                                              decode: Bytes -> Option<Message>, j: nat)
    returns (lap: nat)
    requires j < |Dispatched(results, states, decode)|
    ensures lap < |results| && lap < |states|
    ensures var p := Dispatched(results, states, decode)[j];
            && Decoded(results[lap], decode) == PacketResult.Packet(p)
            && |Dispatched(results[..lap], states[..lap], decode)| == j
            && (states[lap] == Paired || p.kind == "kdeconnect.identity" || p.kind == "kdeconnect.pair")
    decreases |results|
  {
    var first := Handed(Decoded(results[0], decode), states[0]);
    if j < |first| {
      lap := 0;
    } else {
      var rest := DispatchedInItsLap(results[1..], states[1..], decode, j - |first|);
      lap := rest + 1;
      assert results[..lap][1..] == results[1..][..rest] && states[..lap][1..] == states[1..][..rest];
    }
  }

  /** In particular a device that is never found paired gets identity and pair packets through, and nothing else. */
  lemma UnpairedSeesOnlyPairing(results: seq<LineResult>, states: seq<PairingState>, decode: Bytes -> Option<Message>,
                                p: Message)
    requires p in Dispatched(results, states, decode) && Paired !in states
    ensures p.kind == "kdeconnect.identity" || p.kind == "kdeconnect.pair"
  {
    var j :| 0 <= j < |Dispatched(results, states, decode)| && Dispatched(results, states, decode)[j] == p;
    var lap := DispatchedInItsLap(results, states, decode, j);
    assert states[lap] in states;
  }
}
