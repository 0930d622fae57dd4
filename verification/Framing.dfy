/**
 Newline framing: a bounded line reader over a buffered connection, whose
 results depend on the bytes received and on nothing else: not on the size of
 the buffer and not on how the network cuts the stream.
 */
module Framing {

  import opened Bytes
  import opened Wrappers

  const NEWLINE: byte := 10
  const MAX_IDENTITY_PACKET_SIZE: int := 512 * 1024

  // ---------- What is read from a stream, looked at as a whole ----------

  datatype LineResult = Line(line: Bytes) | TooLarge | Eof | Truncated | Failed | InvalidLimit

  /** How a stream ends: the peer closed it, or it broke. */
  datatype Ending = Closed | Broken

  /** Position of the first newline, or the length if there is none. */
  function LineEnd(s: Bytes): (n: nat)
    ensures n <= |s| && NEWLINE !in s[..n] && (n < |s| ==> s[n] == NEWLINE)
  {
    if s == [] || s[0] == NEWLINE then 0
    else
      assert s == [s[0]] + s[1..];
      1 + LineEnd(s[1..])
  }

  /** A bounded read of stream `s`: its result, and what is left of the stream. */
  function NextLine(s: Bytes, max: int, end: Ending): (LineResult, Bytes) {
    var n := LineEnd(s);
    if max <= 0 then (InvalidLimit, s)
    else if n < |s| then (if n + 1 <= max then Line(s[..n + 1]) else TooLarge, s[n + 1..])
    else if |s| > max then (TooLarge, [])
    else if end == Broken then (Failed, [])
    else (if s == [] then Eof else Truncated, [])
  }

  /** The six ways a bounded read can end, each with what it took off the stream. */
  lemma NextLineExactly(s: Bytes, max: int, end: Ending)
    ensures var (r, rest) := NextLine(s, max, end);
            match r
            case InvalidLimit => max <= 0 && rest == s
            case Line(line) =>
              && 0 < |line| <= max && line[|line| - 1] == 10 && 10 !in line[..|line| - 1] && s == line + rest
            case TooLarge =>
              && max > 0
              && (if 10 in s
                  then exists n | max <= n < |s| ::
                         s[n] == 10 && 10 !in s[..n] && rest == s[n + 1..]
                  else |s| > max && rest == [])
            case Eof => max > 0 && s == [] && rest == [] && end == Closed
            case Truncated => 0 < |s| <= max && 10 !in s && rest == [] && end == Closed
            case Failed => |s| <= max && max > 0 && 10 !in s && rest == [] && end == Broken
  {
    var n := LineEnd(s);
    if n < |s| {
      assert s == s[..n + 1] + s[n + 1..] && s[..n + 1][..n] == s[..n];
    } else {
      assert s[..n] == s;
    }
  }

  /** The results of reading on until the stream ends. */
  function Results(s: Bytes, max: int, end: Ending): seq<LineResult>
    decreases |s|
  {
    var (r, rest) := NextLine(s, max, end);
    if r.Line? || r.TooLarge? then [r] + Results(rest, max, end) else [r]
  }

  lemma {:induction false} LineEndIs(s: Bytes, n: nat)
    requires n <= |s| && NEWLINE !in s[..n] && (n < |s| ==> s[n] == NEWLINE)
    ensures LineEnd(s) == n
  {
    if n > 0 {
      assert s[0] in s[..n];
      assert s[1..][..n - 1] == s[..n][1..];
      LineEndIs(s[1..], n - 1);
    }
  }

  /** A packet on the wire: its encoding, which holds no newline, and a newline. */
  function Frame(body: Bytes): Bytes {
    body + [NEWLINE]
  }

  function Wire(bodies: seq<Bytes>): Bytes {
    if bodies == [] then [] else Frame(bodies[0]) + Wire(bodies[1..])
  }

  function Expected(bodies: seq<Bytes>, max: int): seq<LineResult> {
    seq(|bodies|, i requires 0 <= i < |bodies| =>
      if |Frame(bodies[i])| <= max then Line(Frame(bodies[i])) else TooLarge)
  }

  /**
   Whatever was framed is read back packet by packet: each one that fits in the
   limit comes out as it went in, each one that does not is reported, and the
   reader is then at the start of the next.
   */
  lemma {:induction false} FramingRoundTrip(bodies: seq<Bytes>, max: int, tail: Bytes, end: Ending)
    requires max > 0
    requires forall i | 0 <= i < |bodies| :: NEWLINE !in bodies[i]
    ensures Results(Wire(bodies) + tail, max, end) == Expected(bodies, max) + Results(tail, max, end)
    decreases |bodies|
  {
    hide NextLine;
    hide Frame;
    if bodies == [] {
      assert Wire(bodies) + tail == tail;
    } else {
      var rest := Wire(bodies[1..]) + tail;
      assert Wire(bodies) + tail == Frame(bodies[0]) + rest;
      assert Expected(bodies, max) == [Expected(bodies, max)[0]] + Expected(bodies[1..], max);
      hide Expected;
      hide Wire;
      FirstFrame(bodies[0], rest, max, end);
      FramingRoundTrip(bodies[1..], max, tail, end);
      ReadOn(Frame(bodies[0]) + rest, max, end);
    }
  }

  lemma ReadOn(s: Bytes, max: int, end: Ending)
    requires NextLine(s, max, end).0.Line? || NextLine(s, max, end).0.TooLarge?
    ensures Results(s, max, end) == [NextLine(s, max, end).0] + Results(NextLine(s, max, end).1, max, end)
  {
  }

  lemma ResultsBegin(s: Bytes, max: int, end: Ending)
    ensures var (r, rest) := NextLine(s, max, end);
            && Results(s, max, end) == [r] + (if r.Line? || r.TooLarge? then Results(rest, max, end) else [])
            && (r.Line? || r.TooLarge? ==> |rest| < |s|)
  {
  }

  lemma FirstFrame(body: Bytes, rest: Bytes, max: int, end: Ending)
    requires max > 0 && NEWLINE !in body
    ensures NextLine(Frame(body) + rest, max, end)
        == (if |Frame(body)| <= max then Line(Frame(body)) else TooLarge, rest)
  {
    var s := Frame(body) + rest;
    assert s[..|body|] == body && s[..|body| + 1] == Frame(body) && s[|body| + 1..] == rest;
    LineEndIs(s, |body|);
  }

  // ---------- The connection and its buffer ----------

  class Conn {
    /** Bytes not yet read; the network hands them over in pieces of its choice. */
    var src: Bytes
    const end: Ending

    constructor (src: Bytes, end: Ending)
      ensures this.src == src && this.end == end
    {
      this.src, this.end := src, end;
    }

    method Read(room: nat) returns (piece: Bytes)
      requires room > 0
      modifies this
      ensures old(src) == piece + src && |piece| <= room
      ensures old(src) != [] ==> piece != []
    {
      var n: nat :| n <= room && n <= |src| && (src != [] ==> n > 0);
      piece := src[..n];
      src := src[n..];
    }
  }

  datatype SliceError = NoError | BufferFull | AtEnd

  class BufReader {
    const conn: Conn
    const size: nat
    var buf: Bytes

    ghost predicate Valid()
      reads this
    {
      |buf| <= size && size > 0
    }

    ghost function Unread(): Bytes
      reads this, conn
    {
      buf + conn.src
    }

    constructor (conn: Conn, size: nat)
      requires size > 0
      ensures Valid() && this.conn == conn && this.size == size && buf == []
    {
      this.conn, this.size, this.buf := conn, size, [];
    }

    /** Up to and including the first newline, or as much as the buffer holds. */
    method ReadSlice() returns (chunk: Bytes, err: SliceError)
      requires Valid()
      modifies this, conn
      ensures Valid() && old(Unread()) == chunk + Unread()
      ensures err.NoError? ==> chunk != [] && LineEnd(chunk) == |chunk| - 1 && NEWLINE in chunk
      ensures !err.NoError? ==> NEWLINE !in chunk
      ensures err == BufferFull ==> |chunk| == size
      ensures err == AtEnd ==> Unread() == []
    {
      while true
        invariant Valid() && Unread() == old(Unread())
        decreases |conn.src|
      {
        var n := LineEnd(buf);
        if n < |buf| {
          chunk := buf[..n + 1];
          buf := buf[n + 1..];
          LineEndIs(chunk, n);
          return chunk, NoError;
        }
        if |buf| >= size {
          chunk := buf;
          buf := [];
          return chunk, BufferFull;
        }
        if conn.src == [] {
          chunk := buf;
          buf := [];
          return chunk, AtEnd;
        }
        var piece := conn.Read(size - |buf|);
        buf := buf + piece;
      }
    }
  }

  // ---------- The bounded line reader ----------

  /** Skips the rest of a line whose first part is `chunk`. */
  method DiscardLine(r: BufReader, chunk: Bytes, err: SliceError)
    requires r.Valid() && (err == AtEnd ==> r.Unread() == [])
    modifies r, r.conn
    ensures r.Valid()
    ensures err.NoError? ==> r.Unread() == old(r.Unread())
    ensures !err.NoError? && NEWLINE !in chunk ==> r.Unread() == AfterLine(old(r.Unread()))
  {
    if err.NoError? || (|chunk| > 0 && chunk[|chunk| - 1] == NEWLINE) { return; }
    while true
      invariant r.Valid() && AfterLine(r.Unread()) == AfterLine(old(r.Unread()))
      decreases |r.Unread()|
    {
      ghost var before := r.Unread();
      var piece, e := r.ReadSlice();
      AfterPiece(piece, r.Unread());
      assert before == piece + r.Unread();
      assert |piece| > 0 ==> piece[|piece| - 1] in piece;
      if e.NoError? || (|piece| > 0 && piece[|piece| - 1] == NEWLINE) || e != BufferFull {
        return;
      }
    }
  }

  /** What follows the first newline; nothing if there is none. */
  function AfterLine(s: Bytes): Bytes {
    var n := LineEnd(s);
    if n < |s| then s[n + 1..] else []
  }

  lemma AfterPiece(piece: Bytes, rest: Bytes)
    ensures NEWLINE !in piece ==> AfterLine(piece + rest) == AfterLine(rest)
    ensures piece != [] && LineEnd(piece) == |piece| - 1 ==> AfterLine(piece + rest) == rest
    ensures NEWLINE !in piece ==> LineEnd(piece + rest) == |piece| + LineEnd(rest)
    ensures piece != [] && LineEnd(piece) == |piece| - 1 ==> LineEnd(piece + rest) == |piece| - 1
  {
    var s := piece + rest;
    if NEWLINE !in piece {
      var n := |piece| + LineEnd(rest);
      assert s[..n] == piece + rest[..LineEnd(rest)];
      LineEndIs(s, n);
    }
    if piece != [] && LineEnd(piece) == |piece| - 1 {
      assert s[..|piece| - 1] == piece[..|piece| - 1];
      LineEndIs(s, |piece| - 1);
    }
  }

  /** Never retains more than `max` bytes of a line: `held` is the most it ever did. */
  method ReadLineBounded(r: BufReader, max: int) returns (result: LineResult, ghost held: int)
    requires r.Valid()
    modifies r, r.conn
    ensures r.Valid()
    ensures (result, r.Unread()) == NextLine(old(r.Unread()), max, r.conn.end)
    ensures held <= max || held == 0
  {
    held := 0;
    if max <= 0 { return InvalidLimit, 0; }
    hide LineEnd;
    hide NextLine;
    var line: Bytes := [];
    while true
      invariant r.Valid() && old(r.Unread()) == line + r.Unread()
      invariant NEWLINE !in line && |line| <= max && |line| == held
      decreases |r.Unread()|
    {
      var chunk, err := r.ReadSlice();
      ghost var rest := r.Unread();
      assert old(r.Unread()) == line + (chunk + rest) == line + chunk + rest;
      if |chunk| > max - |line| {
        DiscardLine(r, chunk, err);
        TooLargeHere(line, chunk, rest, max, r.conn.end);
        return TooLarge, held;
      }
      if err.NoError? { LineHere(line, chunk, rest, max, r.conn.end); }
      line := line + chunk;
      held := |line|;
      if err.NoError? { return Line(line), held; }
      if err == BufferFull { continue; }
      assert old(r.Unread()) == line;
      StreamEnds(line, max, r.conn.end);
      if r.conn.end == Closed {
        if |line| == 0 { return Eof, held; }
        return Truncated, held;
      }
      return Failed, held;
    }
  }

  lemma StreamEnds(line: Bytes, max: int, end: Ending)
    requires max > 0 && NEWLINE !in line && |line| <= max
    ensures NextLine(line, max, end) == (if end == Broken then Failed else if line == [] then Eof else Truncated, [])
  {
    assert line[..|line|] == line;
    LineEndIs(line, |line|);
  }

  lemma TooLargeHere(line: Bytes, chunk: Bytes, rest: Bytes, max: int, end: Ending)
    requires max > 0 && NEWLINE !in line && |line| + |chunk| > max
    requires NEWLINE !in chunk || (chunk != [] && LineEnd(chunk) == |chunk| - 1 && NEWLINE in chunk)
    ensures NextLine(line + (chunk + rest), max, end) ==
              (TooLarge, if NEWLINE in chunk then rest else AfterLine(rest))
  {
    AfterPiece(chunk, rest);
    AfterPiece(line, chunk + rest);
  }

  lemma LineHere(line: Bytes, chunk: Bytes, rest: Bytes, max: int, end: Ending)
    requires NEWLINE !in line && |line| + |chunk| <= max && chunk != [] && LineEnd(chunk) == |chunk| - 1
    ensures NextLine(line + chunk + rest, max, end) == (Line(line + chunk), rest)
  {
    hide LineEnd;
    hide NextLine;
    hide AfterLine;
    AfterPiece(chunk, rest);
    AfterPiece(line, chunk + rest);
    var head := line + chunk;
    assert head + rest == line + (chunk + rest);
    Cut(head + rest, head, rest, max, end);
  }

  lemma Cut(s: Bytes, head: Bytes, rest: Bytes, max: int, end: Ending)
    requires s == head + rest && head != [] && LineEnd(s) == |head| - 1 && |head| <= max
    ensures NextLine(s, max, end) == (Line(head), rest)
  {
    assert s[..|head|] == head && s[|head|..] == rest;
    hide LineEnd;
  }

  /** Reading on, as a device's read loop does, past oversized lines. */
  method ReadLines(r: BufReader, max: int) returns (results: seq<LineResult>)
    requires r.Valid()
    modifies r, r.conn
    ensures r.Valid() && results == Results(old(r.Unread()), max, r.conn.end)
  {
    hide NextLine;
    hide LineEnd;
    hide Results;
    results := [];
    assert [] + Results(r.Unread(), max, r.conn.end) == Results(r.Unread(), max, r.conn.end);
    while true
      invariant r.Valid()
      invariant results + Results(r.Unread(), max, r.conn.end) == Results(old(r.Unread()), max, r.conn.end)
      decreases |r.Unread()|
    {
      ghost var sofar := results;
      ResultsBegin(r.Unread(), max, r.conn.end);
      var result, _ := ReadLineBounded(r, max);
      results := results + [result];
      assert sofar + ([result] + Results(r.Unread(), max, r.conn.end))
          == results + Results(r.Unread(), max, r.conn.end);
      if !result.Line? && !result.TooLarge? { return; }
    }
  }

  // ---------- The plaintext packet before the TLS handshake ----------

  datatype PacketResult<P> = Packet(p: P) | Malformed | NoLine(why: LineResult)

  /** `decode` stands for the JSON decoder. */
  function Decoded<P>(r: LineResult, decode: Bytes -> Option<P>): PacketResult<P> {
    if !r.Line? then NoLine(r)
    else match decode(r.line) case None => Malformed case Some(p) => Packet(p)
  }

  method ReadPacketBounded<P>(r: BufReader, max: int, decode: Bytes -> Option<P>) returns (result: PacketResult<P>)
    requires r.Valid()
    modifies r, r.conn
    ensures r.Valid()
    ensures result == Decoded(NextLine(old(r.Unread()), max, r.conn.end).0, decode)
    ensures r.Unread() == NextLine(old(r.Unread()), max, r.conn.end).1
  {
    var line, _ := ReadLineBounded(r, max);
    if !line.Line? { return NoLine(line); }
    match decode(line.line)
    case None => return Malformed;
    case Some(p) => return Packet(p);
  }

  /** A connection that first replays `replay`. */
  class BufferedConn {
    const replay: Bytes
    const conn: Conn

    constructor (replay: Bytes, conn: Conn)
      ensures this.replay == replay && this.conn == conn
    {
      this.replay, this.conn := replay, conn;
    }

    /** All bytes a reader of this connection will get. */
    ghost function Remaining(): Bytes
      reads this, conn
    {
      replay + conn.src
    }
  }

  /**
   After a packet the returned connection yields exactly the bytes behind it.
   After a failure it yields what is left on the wire; bytes already buffered
   are not replayed.
   */
  method ReadPlaintextPacket<P>(conn: Conn, size: nat, decode: Bytes -> Option<P>)
    returns (result: PacketResult<P>, next: BufferedConn)
    requires size > 0
    modifies conn
    ensures next.conn == conn
    ensures result == Decoded(NextLine(old(conn.src), 524288, conn.end).0, decode)
    ensures result.Packet? ==> next.Remaining() == NextLine(old(conn.src), 524288, conn.end).1
    ensures !result.Packet? ==> exists lost ::
              lost + next.Remaining() == NextLine(old(conn.src), 524288, conn.end).1
  {
    var reader := new BufReader(conn, size);
    assert reader.Unread() == conn.src;
    result := ReadPacketBounded(reader, MAX_IDENTITY_PACKET_SIZE, decode);
    if !result.Packet? {
      next := new BufferedConn([], conn);
      assert reader.buf + next.Remaining() == reader.Unread();
      return;
    }
    next := new BufferedConn(reader.buf, conn);
  }
}
