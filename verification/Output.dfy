/**
 The output of one remote command: lines are buffered per stream, flushed in
 batches, cut off after 2000, and summed up in a short transcript.
 */
module Output {
  import opened Bytes
  import Utf8

  const STREAM_MAX_LINES: nat := 2000
  const STREAM_MAX_LINE_LEN: nat := 1024
  const STREAM_NOTIF_MAX_BYTES: nat := 4000

  const ELLIPSIS: Bytes := [46, 46, 46]
  /** "\n...[output truncated]" */
  const SUMMARY_SUFFIX: Bytes := [10, 46, 46, 46, 91, 111, 117, 116, 112, 117, 116, 32,
                                  116, 114, 117, 110, 99, 97, 116, 101, 100, 93]

  /** A scanned line, tagged with the stream it came from. */
  datatype Line = Line(isStderr: bool, text: Bytes)

  /** A batch; `truncated` stands for the marker line appended to its stderr. */
  datatype Packet = Packet(stdout: seq<Bytes>, stderr: seq<Bytes>, truncated: bool)

  datatype State = State(
    stdout: seq<Bytes>, stderr: seq<Bytes>, total: nat,
    notif: seq<Bytes>, notifBytes: nat, dropped: bool,
    sent: seq<Packet>)

  const EMPTY: State := State([], [], 0, [], 0, false, [])

  function Clip(text: Bytes): Bytes {
    if |text| > STREAM_MAX_LINE_LEN then text[..STREAM_MAX_LINE_LEN] + ELLIPSIS else text
  }

  /** The cut ignores rune boundaries: of well-formed text it is well formed exactly if a rune starts behind it. */
  lemma ClipKeepsRunes(text: Bytes)
    requires Utf8.ValidUtf8(text)
    ensures Utf8.ValidUtf8(Clip(text))
            <==> |text| <= STREAM_MAX_LINE_LEN || Utf8.RuneStart(text[STREAM_MAX_LINE_LEN])
  {
    if |text| > STREAM_MAX_LINE_LEN {
      Utf8.ValidPrefix(text, STREAM_MAX_LINE_LEN);
      Utf8.ValidConcat(text[..STREAM_MAX_LINE_LEN], ELLIPSIS);
    }
  }

  function Added(s: State, l: Line): State {
    if s.total >= STREAM_MAX_LINES then s.(dropped := true)
    else
      var text := Clip(l.text);
      var s' := s.(total := s.total + 1,
                   stdout := if l.isStderr then s.stdout else s.stdout + [text],
                   stderr := if l.isStderr then s.stderr + [text] else s.stderr);
      if s.notifBytes < STREAM_NOTIF_MAX_BYTES
      then s'.(notif := s.notif + [text], notifBytes := s.notifBytes + |text| + 1)
      else s'
  }

  function Flushed(s: State): State {
    if s.stdout == [] && s.stderr == [] then s
    else s.(stdout := [], stderr := [], sent := s.sent + [Packet(s.stdout, s.stderr, s.dropped)])
  }

  class OutputStream {
    var stdout: seq<Bytes>
    var stderr: seq<Bytes>
    var total: nat
    var notif: seq<Bytes>
    var notifBytes: nat
    var dropped: bool
    /** The packets handed to the device. */
    var sent: seq<Packet>

    ghost function Snapshot(): State
      reads this
    {
      State(stdout, stderr, total, notif, notifBytes, dropped, sent)
    }

    constructor ()
      ensures Snapshot() == EMPTY
      ensures stdout == [] && stderr == [] && total == 0 && notif == [] && notifBytes == 0 && !dropped && sent == []
    {
      stdout, stderr, total, notif, notifBytes, dropped, sent := [], [], 0, [], 0, false, [];
    }

    method Add(isStderr: bool, text: Bytes)
      modifies this
      ensures Snapshot() == Added(old(Snapshot()), Line(isStderr, text))
      ensures old(total) < 2000 ==>
                var line := if |text| <= 1024 then text else text[..1024] + [46, 46, 46];
                && stdout == old(stdout) + (if isStderr then [] else [line])
                && stderr == old(stderr) + (if isStderr then [line] else [])
                && total == old(total) + 1 && dropped == old(dropped)
                && notif == old(notif) + (if old(notifBytes) < 4000 then [line] else [])
                && notifBytes == old(notifBytes) + (if old(notifBytes) < 4000 then |line| + 1 else 0)
      ensures old(total) >= 2000 ==>
                && stdout == old(stdout) && stderr == old(stderr) && total == old(total) && dropped
                && notif == old(notif) && notifBytes == old(notifBytes)
      ensures sent == old(sent)
    {
      var line := text;
      if |line| > STREAM_MAX_LINE_LEN { line := line[..STREAM_MAX_LINE_LEN] + ELLIPSIS; }
      if total >= STREAM_MAX_LINES {
        dropped := true;
        return;
      }
      total := total + 1;
      if isStderr { stderr := stderr + [line]; } else { stdout := stdout + [line]; }
      if notifBytes < STREAM_NOTIF_MAX_BYTES {
        notif := notif + [line];
        notifBytes := notifBytes + |line| + 1;
      }
    }

    method Pending() returns (any: bool)
      ensures any <==> stdout != [] || stderr != []
    {
      return |stdout| > 0 || |stderr| > 0;
    }

    method Take() returns (out: seq<Bytes>, err: seq<Bytes>, cut: bool)
      modifies this`stdout, this`stderr
      ensures out == old(stdout) && err == old(stderr) && cut == dropped
      ensures stdout == [] && stderr == []
    {
      out, err, cut := stdout, stderr, dropped;
      stdout, stderr := [], [];
    }

    method Flush()
      modifies this
      ensures Snapshot() == Flushed(old(Snapshot()))
      ensures stdout == [] && stderr == []
      ensures sent == old(sent) + (if old(stdout) == [] && old(stderr) == [] then []
                                   else [Packet(old(stdout), old(stderr), old(dropped))])
      ensures total == old(total) && dropped == old(dropped)
      ensures notif == old(notif) && notifBytes == old(notifBytes)
    {
      var any := Pending();
      if !any { return; }
      var out, err, cut := Take();
      sent := sent + [Packet(out, err, cut)];
    }

    /** Empties the channel of scanned lines into the stream. */
    method DrainLines(lines: seq<Line>)
      modifies this
      ensures Snapshot() == AllAdded(old(Snapshot()), lines)
      ensures sent == old(sent)
      ensures old(total) <= 2000 ==>
                && total == (if old(total) + |lines| <= 2000 then old(total) + |lines| else 2000)
                && (dropped <==> old(dropped) || old(total) + |lines| > 2000)
      // lines of at most 1024 bytes are buffered as they are, up to the cap
      ensures old(total) <= 2000 && (forall l | l in lines :: |l.text| <= 1024) ==>
                var taken := if old(total) + |lines| <= 2000 then lines else lines[..2000 - old(total)];
                && stdout == old(stdout) + Texts(taken, false)
                && stderr == old(stderr) + Texts(taken, true)
    {
      hide Added;
      hide AllAdded;
      hide Texts;
      FirstAdded(Snapshot(), lines);
      ghost var before := Snapshot();
      for i := 0 to |lines|
        invariant Snapshot() == AllAdded(before, lines[..i]) && sent == before.sent
      {
        NextAdded(before, lines, i);
        Add(lines[i].isStderr, lines[i].text);
      }
      assert lines[..|lines|] == lines;
      if before.total <= 2000 { AllAddedExactly(before, lines); }
    }

    method Summary() returns (text: Bytes)
      ensures text == SummaryOf(Snapshot())
      ensures !dropped ==> text == Join(notif)
      ensures dropped ==> text == Join(notif) + [10, 46, 46, 46, 91, 111, 117, 116, 112, 117, 116, 32,
                                                 116, 114, 117, 110, 99, 97, 116, 101, 100, 93]
    {
      text := Join(notif);
      if dropped { text := text + SUMMARY_SUFFIX; }
    }
  }

  function AllAdded(s: State, lines: seq<Line>): State {
    if lines == [] then s else Added(AllAdded(s, lines[..|lines| - 1]), lines[|lines| - 1])
  }

  lemma FirstAdded(s: State, lines: seq<Line>)
    ensures AllAdded(s, lines[..0]) == s
  {
  }

  lemma NextAdded(s: State, lines: seq<Line>, i: nat)
    requires i < |lines|
    ensures AllAdded(s, lines[..i + 1]) == Added(AllAdded(s, lines[..i]), lines[i])
    ensures lines[i] == Line(lines[i].isStderr, lines[i].text)
  {
    assert lines[..i + 1][..i] == lines[..i];
  }

  /** What many lines in a row add. */
  lemma AllAddedExactly(s: State, lines: seq<Line>)
    requires s.total <= 2000
    ensures var s' := AllAdded(s, lines);
            && s'.total == (if s.total + |lines| <= 2000 then s.total + |lines| else 2000)
            && (s'.dropped <==> s.dropped || s.total + |lines| > 2000)
            && ((forall l | l in lines :: |l.text| <= 1024) ==>
                  var taken := if s.total + |lines| <= 2000 then lines else lines[..2000 - s.total];
                  s'.stdout == s.stdout + Texts(taken, false) && s'.stderr == s.stderr + Texts(taken, true))
  {
    hide AllAdded;
    AllAddedCounts(s, lines);
    if forall l | l in lines :: |l.text| <= 1024 {
      AllAddedTexts(s, lines);
    }
  }

  lemma {:induction false} AllAddedCounts(s: State, lines: seq<Line>)
    requires s.total <= 2000
    ensures var s' := AllAdded(s, lines);
            && s'.total == (if s.total + |lines| <= 2000 then s.total + |lines| else 2000)
            && (s'.dropped <==> s.dropped || s.total + |lines| > 2000)
  {
    hide Added;
    if lines != [] {
      AllAddedCounts(s, lines[..|lines| - 1]);
      AddGrows(AllAdded(s, lines[..|lines| - 1]), lines[|lines| - 1]);
      AddedFlags(AllAdded(s, lines[..|lines| - 1]), lines[|lines| - 1]);
    }
  }

  /** The lines that still fit under the cap. */
  function Taken(total: nat, lines: seq<Line>): seq<Line>
    requires total <= 2000
  {
    if total + |lines| <= 2000 then lines else lines[..2000 - total]
  }

  lemma TakenGrows(total: nat, front: seq<Line>, l: Line)
    requires total <= 2000
    ensures Taken(total, front + [l])
            == if total + |front| < 2000 then Taken(total, front) + [l] else Taken(total, front)
  {
  }

  lemma {:induction false} AllAddedTexts(s: State, lines: seq<Line>)
    requires s.total <= 2000 && forall l | l in lines :: |l.text| <= 1024
    ensures AllAdded(s, lines).stdout == s.stdout + Texts(Taken(s.total, lines), false)
    ensures AllAdded(s, lines).stderr == s.stderr + Texts(Taken(s.total, lines), true)
  {
    hide Added;
    hide Texts;
    hide Taken;
    NoTexts(s);
    if lines != [] {
      var front, l := lines[..|lines| - 1], lines[|lines| - 1];
      assert lines == front + [l];
      AllAddedTexts(s, front);
      AllAddedCounts(s, front);
      AddGrows(AllAdded(s, front), l);
      TakenGrows(s.total, front, l);
      TextsSnoc(Taken(s.total, front), l, false);
      TextsSnoc(Taken(s.total, front), l, true);
    }
  }

  lemma NoTexts(s: State)
    requires s.total <= 2000
    ensures s.stdout + Texts(Taken(s.total, []), false) == s.stdout
    ensures s.stderr + Texts(Taken(s.total, []), true) == s.stderr
  {
  }

  lemma AddedFlags(s: State, l: Line)
    ensures Added(s, l).dropped <==> s.dropped || s.total >= 2000
  {
  }

  /** The lines, separated by newlines. */
  function Join(lines: seq<Bytes>): Bytes {
    if lines == [] then []
    else if |lines| == 1 then lines[0]
    else Join(lines[..|lines| - 1]) + [10] + lines[|lines| - 1]
  }

  /** What stands before, between and after the newlines. */
  function Split(text: Bytes): (lines: seq<Bytes>)
    ensures lines != []
  {
    if text == [] then [[]]
    else
      var front, b := Split(text[..|text| - 1]), text[|text| - 1];
      if b == 10 then front + [[]] else front[..|front| - 1] + [front[|front| - 1] + [b]]
  }

  function SummaryOf(s: State): Bytes {
    Join(s.notif) + if s.dropped then SUMMARY_SUFFIX else []
  }

  // ---------- Any interleaving of additions and flushes ----------

  datatype Op = Add(l: Line) | Flush

  function Run(ops: seq<Op>): State {
    if ops == [] then EMPTY
    else
      var s := Run(ops[..|ops| - 1]);
      match ops[|ops| - 1]
      case Add(l) => Added(s, l)
      case Flush => Flushed(s)
  }

  /** All lines ever added, in order. */
  function Lines(ops: seq<Op>): seq<Line> {
    if ops == [] then []
    else Lines(ops[..|ops| - 1]) + (if ops[|ops| - 1].Add? then [ops[|ops| - 1].l] else [])
  }

  function Accepted(lines: seq<Line>): seq<Line> {
    if |lines| <= STREAM_MAX_LINES then lines else lines[..STREAM_MAX_LINES]
  }

  /** The clipped lines of one stream, in order. */
  function Of(lines: seq<Line>, isStderr: bool): seq<Bytes> {
    if lines == [] then []
    else
      var l := lines[|lines| - 1];
      Of(lines[..|lines| - 1], isStderr) + if l.isStderr == isStderr then [Clip(l.text)] else []
  }

  function Clipped(lines: seq<Line>): seq<Bytes> {
    seq(|lines|, i requires 0 <= i < |lines| => Clip(lines[i].text))
  }

  function Batches(sent: seq<Packet>, isStderr: bool): seq<Bytes> {
    if sent == [] then []
    else Batches(sent[..|sent| - 1], isStderr)
         + if isStderr then sent[|sent| - 1].stderr else sent[|sent| - 1].stdout
  }

  function Size(lines: seq<Bytes>): nat {
    if lines == [] then 0 else Size(lines[..|lines| - 1]) + |lines[|lines| - 1]| + 1
  }

  /** Nothing is lost, duplicated or reordered within the first 2000 lines. */
  ghost predicate Conserves(s: State, lines: seq<Line>) {
    && s.total == |Accepted(lines)|
    && Batches(s.sent, false) + s.stdout == Of(Accepted(lines), false)
    && Batches(s.sent, true) + s.stderr == Of(Accepted(lines), true)
    && (s.dropped <==> |lines| > STREAM_MAX_LINES)
  }

  /** Only the last packet may carry the marker, and nothing can follow it. */
  ghost predicate MarkedLast(s: State) {
    forall i | 0 <= i < |s.sent| && s.sent[i].truncated ::
      i == |s.sent| - 1 && s.dropped && s.total >= STREAM_MAX_LINES && s.stdout == s.stderr == []
  }

  /** The transcript is the longest prefix begun within its byte budget. */
  ghost predicate Transcribes(s: State, lines: seq<Line>) {
    && s.notif <= Clipped(Accepted(lines))
    && s.notifBytes == Size(s.notif) < STREAM_NOTIF_MAX_BYTES + STREAM_MAX_LINE_LEN + |ELLIPSIS| + 1
    && (s.notifBytes < STREAM_NOTIF_MAX_BYTES ==> s.notif == Clipped(Accepted(lines)))
    && (s.notif != [] ==> Size(s.notif[..|s.notif| - 1]) < STREAM_NOTIF_MAX_BYTES)
  }

  lemma AddConserves(s: State, lines: seq<Line>, l: Line)
    requires Conserves(s, lines)
    ensures Conserves(Added(s, l), lines + [l])
  {
    if s.total < STREAM_MAX_LINES {
      assert Accepted(lines + [l])[..|Accepted(lines + [l])| - 1] == Accepted(lines);
    } else {
      assert Accepted(lines + [l]) == Accepted(lines);
    }
  }

  lemma FlushConserves(s: State, lines: seq<Line>)
    requires Conserves(s, lines)
    ensures Conserves(Flushed(s), lines)
  {
    var p := Packet(s.stdout, s.stderr, s.dropped);
    assert (s.sent + [p])[..|s.sent + [p]| - 1] == s.sent;
  }

  lemma AcceptedGrows(lines: seq<Line>, l: Line)
    ensures Accepted(lines + [l]) == if |lines| < STREAM_MAX_LINES then lines + [l] else Accepted(lines)
    ensures |lines| < STREAM_MAX_LINES ==>
              Clipped(Accepted(lines + [l])) == Clipped(Accepted(lines)) + [Clip(l.text)]
    ensures |Accepted(lines)| < STREAM_MAX_LINES <==> |lines| < STREAM_MAX_LINES
    ensures |Clip(l.text)| <= STREAM_MAX_LINE_LEN + |ELLIPSIS|
  {
  }

  lemma AddTranscribes(s: State, lines: seq<Line>, l: Line)
    requires s.total == |Accepted(lines)| && Transcribes(s, lines)
    ensures Transcribes(Added(s, l), lines + [l])
  {
    hide Clip;
    hide Clipped;
    hide Size;
    hide Accepted;
    AcceptedGrows(lines, l);
    SizeGrows(s.notif, Clip(l.text));
  }

  lemma SizeGrows(notif: seq<Bytes>, text: Bytes)
    ensures Size(notif + [text]) == Size(notif) + |text| + 1
    ensures (notif + [text])[..|notif + [text]| - 1] == notif
  {
    assert (notif + [text])[..|notif + [text]| - 1] == notif;
  }

  lemma StepMarks(s: State, l: Line)
    requires MarkedLast(s) && (s.dropped ==> s.total >= STREAM_MAX_LINES)
    ensures MarkedLast(Added(s, l)) && MarkedLast(Flushed(s))
  {
    hide Clip;
  }

  /** Every interleaving conserves the accepted lines, marks at most the last packet, and keeps the transcript. */
  lemma {:induction false} RunIsSound(ops: seq<Op>)
    ensures Conserves(Run(ops), Lines(ops))
    ensures MarkedLast(Run(ops))
    ensures Transcribes(Run(ops), Lines(ops))
  {
    if ops != [] {
      var front, op := ops[..|ops| - 1], ops[|ops| - 1];
      RunIsSound(front);
      var s, lines := Run(front), Lines(front);
      assert Lines(ops) == if op.Add? then lines + [op.l] else lines;
      assert Run(ops) == if op.Add? then Added(s, op.l) else Flushed(s);
      hide Run;
      hide Lines;
      StepMarks(s, if op.Add? then op.l else Line(false, []));
      hide MarkedLast;
      if op.Add? {
        AddConserves(s, lines, op.l);
        AddTranscribes(s, lines, op.l);
      } else {
        FlushConserves(s, lines);
        FlushTranscribes(s, lines);
      }
      hide Conserves;
      hide Transcribes;
      hide Added;
      hide Flushed;
    }
  }

  lemma FlushTranscribes(s: State, lines: seq<Line>)
    requires Transcribes(s, lines)
    ensures Transcribes(Flushed(s), lines)
  {
  }

  lemma {:induction false} JoinSize(lines: seq<Bytes>)
    requires lines != []
    ensures |Join(lines)| + 1 == Size(lines)
  {
    if |lines| > 1 {
      JoinSize(lines[..|lines| - 1]);
    }
  }

  lemma SplitSnoc(text: Bytes, b: byte)
    ensures var lines := Split(text);
            Split(text + [b])
            == if b == 10 then lines + [[]] else lines[..|lines| - 1] + [lines[|lines| - 1] + [b]]
    ensures Split([]) == [[]]
  {
    assert (text + [b])[..|text|] == text;
  }

  lemma JoinSnoc(lines: seq<Bytes>, line: Bytes)
    ensures Join(lines + [line]) == if lines == [] then line else Join(lines) + [10] + line
    ensures Join([]) == []
  {
    assert (lines + [line])[..|lines|] == lines;
  }

  lemma {:induction false} SplitAppend(text: Bytes, line: Bytes)
    requires 10 !in line
    ensures var lines := Split(text);
            Split(text + line) == lines[..|lines| - 1] + [lines[|lines| - 1] + line]
    decreases |line|
  {
    hide Split;
    var lines := Split(text);
    if line == [] {
      assert text + line == text && lines[|lines| - 1] + line == lines[|lines| - 1];
      assert lines[..|lines| - 1] + [lines[|lines| - 1]] == lines;
    } else {
      var front, b := line[..|line| - 1], line[|line| - 1];
      SplitAppend(text, front);
      SplitSnoc(text + front, b);
      assert text + line == (text + front) + [b] && line == front + [b];
      assert (lines[|lines| - 1] + front) + [b] == lines[|lines| - 1] + line;
    }
  }

  /** Joined lines can be told apart again, being scanned without their newlines. */
  lemma {:induction false} SplitUndoesJoin(lines: seq<Bytes>)
    requires lines != [] && forall line | line in lines :: 10 !in line
    ensures Split(Join(lines)) == lines
  {
    hide Split;
    hide Join;
    var front, last := lines[..|lines| - 1], lines[|lines| - 1];
    assert lines == front + [last] && [] + last == last;
    JoinSnoc(front, last);
    if front == [] {
      SplitSnoc([], 10);
      SplitAppend([], last);
    } else {
      SplitUndoesJoin(front);
      SplitSnoc(Join(front), 10);
      SplitAppend(Join(front) + [10], last);
    }
  }

  /** Every text is the join of what it splits into. */
  lemma {:induction false} JoinUndoesSplit(text: Bytes)
    ensures Join(Split(text)) == text
  {
    hide Split;
    hide Join;
    if text == [] {
      SplitSnoc([], 10);
      var none: seq<Bytes> := [];
      JoinSnoc(none, []);
      assert none + [[]] == [[]];
    } else {
      var front, b := text[..|text| - 1], text[|text| - 1];
      JoinUndoesSplit(front);
      SplitSnoc(front, b);
      assert text == front + [b];
      var lines := Split(front);
      var begun, last := lines[..|lines| - 1], lines[|lines| - 1];
      if b == 10 {
        JoinSnoc(lines, []);
        assert Join(lines) + [10] + [] == Join(lines) + [10];
      } else {
        assert lines == begun + [last];
        JoinSnoc(begun, last);
        JoinSnoc(begun, last + [b]);
        assert begun != [] ==> Join(begun) + [10] + (last + [b]) == (Join(begun) + [10] + last) + [b];
      }
    }
  }

  lemma AddGrows(s: State, l: Line)
    ensures var s' := Added(s, l);
            var line := if |l.text| <= 1024 then l.text else l.text[..1024] + [46, 46, 46];
            && s'.sent == s.sent
            && s'.stdout == s.stdout + (if !l.isStderr && s.total < 2000 then [line] else [])
            && s'.stderr == s.stderr + (if l.isStderr && s.total < 2000 then [line] else [])
            && s'.total == s.total + (if s.total < 2000 then 1 else 0)
  {
  }

  lemma FlushEmpties(s: State)
    ensures var s' := Flushed(s);
            && Batches(s'.sent, false) == Batches(s.sent, false) + s.stdout && s'.stdout == []
            && Batches(s'.sent, true) == Batches(s.sent, true) + s.stderr && s'.stderr == []
            && s'.total == s.total
  {
    var p := Packet(s.stdout, s.stderr, s.dropped);
    assert (s.sent + [p])[..|s.sent + [p]| - 1] == s.sent;
  }

  /** A line joins its own stream, behind the batches and the buffer; a flush moves the buffer into a batch. */
  lemma RunGrows(ops: seq<Op>, l: Line)
    ensures var s, s' := Run(ops), Run(ops + [Add(l)]);
            var line := if |l.text| <= 1024 then l.text else l.text[..1024] + [46, 46, 46];
            && s'.sent == s.sent
            && s'.stdout == s.stdout + (if !l.isStderr && s.total < 2000 then [line] else [])
            && s'.stderr == s.stderr + (if l.isStderr && s.total < 2000 then [line] else [])
            && s'.total == s.total + (if s.total < 2000 then 1 else 0)
    ensures var s, s' := Run(ops), Run(ops + [Flush]);
            && Batches(s'.sent, false) == Batches(s.sent, false) + s.stdout && s'.stdout == []
            && Batches(s'.sent, true) == Batches(s.sent, true) + s.stderr && s'.stderr == []
            && s'.total == s.total
  {
    assert (ops + [Add(l)])[..|ops|] == ops && (ops + [Flush])[..|ops|] == ops;
    assert Run(ops + [Add(l)]) == Added(Run(ops), l) && Run(ops + [Flush]) == Flushed(Run(ops));
    hide Run;
    hide Added;
    hide Flushed;
    hide Batches;
    AddGrows(Run(ops), l);
    FlushEmpties(Run(ops));
  }

  /** The texts of one stream, in order. */
  function Texts(lines: seq<Line>, isStderr: bool): seq<Bytes> {
    if lines == [] then []
    else if lines[0].isStderr == isStderr then [lines[0].text] + Texts(lines[1..], isStderr)
    else Texts(lines[1..], isStderr)
  }

  lemma {:induction false} TextsSnoc(lines: seq<Line>, l: Line, isStderr: bool)
    ensures Texts(lines + [l], isStderr)
            == Texts(lines, isStderr) + (if l.isStderr == isStderr then [l.text] else [])
  {
    if lines == [] {
      assert lines + [l] == [l];
    } else {
      assert (lines + [l])[1..] == lines[1..] + [l];
      TextsSnoc(lines[1..], l, isStderr);
    }
  }

  lemma {:induction false} ShortTexts(lines: seq<Line>, isStderr: bool)
    requires forall l | l in lines :: |l.text| <= 1024
    ensures Of(lines, isStderr) == Texts(lines, isStderr)
  {
    if lines != [] {
      var front, l := lines[..|lines| - 1], lines[|lines| - 1];
      ShortTexts(front, isStderr);
      TextsSnoc(front, l, isStderr);
      assert lines == front + [l];
    }
  }

  /** Lines of at most 1024 bytes arrive as they are: the first 2000, in order, each on its stream. */
  lemma ShortLinesArrive(ops: seq<Op>)
    requires forall l | l in Lines(ops) :: |l.text| <= 1024
    ensures var s, lines := Run(ops), if |Lines(ops)| <= 2000 then Lines(ops) else Lines(ops)[..2000];
            && Batches(s.sent, false) + s.stdout == Texts(lines, false)
            && Batches(s.sent, true) + s.stderr == Texts(lines, true)
  {
    RunIsSound(ops);
    ShortTexts(Accepted(Lines(ops)), false);
    ShortTexts(Accepted(Lines(ops)), true);
  }

  /** Whatever the command prints, the summary stays within a fixed number of bytes. */
  lemma SummaryIsBounded(ops: seq<Op>)
    ensures |SummaryOf(Run(ops))| <= 5048
  {
    RunIsSound(ops);
    if Run(ops).notif != [] {
      JoinSize(Run(ops).notif);
    }
  }
}
