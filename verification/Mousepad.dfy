/**
 The mousepad: motion is accumulated in fractions of a pixel and emitted in
 whole ones by a single worker, with clicks and keys kept in order.

 Accumulators are 64-bit floating-point numbers: an addition is exact up to a
 relative error of the step, at most half a unit in the last place. A conversion
 to a 32-bit integer outside its range gives whatever the machine gives,
 represented by an unknown of the step.
 */
module Mousepad {
  import opened Wrappers

  /** `action` names the click, key or hold of an event; empty for none. */
  datatype Body = Body(dx: real, dy: real, scroll: bool, action: string)

  /** What the queue mutex guards. */
  datatype Pad = Pad(moveX: real, moveY: real, queue: seq<Body>)

  predicate IsPointerMove(b: Body) {
    (b.dx != 0.0 || b.dy != 0.0) && !b.scroll && b.action == ""
  }

  /** The relative error of one rounding to 53 bits. */
  const HALF_ULP: real := 1.0 / 9007199254740992.0

  type Delta = d: real | -HALF_ULP <= d <= HALF_ULP

  /** The number nearest to `exact`, relative error `d`. Rounding is monotone and keeps one, so it does not cross it. */
  function Rounded(exact: real, d: Delta): real {
    var r := exact * (1.0 + d);
    if exact >= 1.0 && r < 1.0 then 1.0
    else if exact <= -1.0 && r > -1.0 then -1.0
    else r
  }

  function Abs(x: real): real {
    if x >= 0.0 then x else -x
  }

  lemma RoundingError(exact: real, d: Delta)
    ensures Abs(Rounded(exact, d) - exact) <= Abs(exact) * HALF_ULP
    ensures exact >= 1.0 ==> Rounded(exact, d) >= 1.0
    ensures exact <= -1.0 ==> Rounded(exact, d) <= -1.0
  {
    assert exact * (1.0 + d) == exact + exact * d;
    ScaledBound(exact, d, HALF_ULP);
  }

  lemma RoundingIsSmall(exact: real, d: Delta)
    ensures -Abs(exact) <= (Rounded(exact, d) - exact) * 9007199254740992.0 <= Abs(exact)
  {
    RoundingError(exact, d);
    hide Rounded;
    assert Abs(exact) * HALF_ULP * 9007199254740992.0 == Abs(exact);
  }

  lemma ScaledBound(x: real, d: real, bound: real)
    requires -bound <= d <= bound
    ensures Abs(x * d) <= Abs(x) * bound
  {
    NonNegative(Abs(x), bound - d);
    NonNegative(Abs(x), bound + d);
    assert Abs(x) * (bound - d) == Abs(x) * bound - Abs(x) * d;
    assert Abs(x) * (bound + d) == Abs(x) * bound + Abs(x) * d;
    if x < 0.0 { assert Abs(x) * d == -(x * d); }
  }

  lemma NonNegative(x: real, y: real)
    requires x >= 0.0 && y >= 0.0
    ensures x * y >= 0.0
  {
  }

  predicate InRange(x: real) {
    -2147483649.0 < x < 2147483648.0
  }

  type int32 = x: int | -2147483648 <= x < 2147483648

  /** Conversion to a 32-bit integer: towards zero in range, `unknown` out of it. */
  function ToInt32(x: real, unknown: int32): int32 {
    if !InRange(x) then unknown
    else if x >= 0.0 then x.Floor
    else -(-x).Floor
  }

  predicate BelowOnePixel(x: real) {
    -1.0 < x < 1.0
  }

  /** The accumulator less its converted steps; in range the difference needs no rounding. */
  function Residue(x: real, unknown: int32, d: Delta): real {
    var exact := x - ToInt32(x, unknown) as real;
    if InRange(x) then exact else Rounded(exact, d)
  }

  /** Taking off the converted steps leaves less than a pixel exactly when the conversion was in range. */
  lemma ResidueExactlyInRange(x: real, unknown: int32, d: Delta)
    ensures BelowOnePixel(Residue(x, unknown, d)) <==> InRange(x)
  {
    RoundingError(x - ToInt32(x, unknown) as real, d);
    hide Rounded;
  }

  /** No step to take: the accumulator holds less than a pixel. */
  lemma NoStepBelowOnePixel(x: real, unknown: int32)
    ensures InRange(x) ==> (ToInt32(x, unknown) == 0 <==> BelowOnePixel(x))
  {
  }

  /** What the machine makes of one step's arithmetic on each axis: conversions out of range, and roundings. */
  datatype Machine = Machine(ux: int32, uy: int32, dx: Delta, dy: Delta)

  function Received(p: Pad, b: Body, m: Machine): Pad {
    if IsPointerMove(b) then p.(moveX := Rounded(p.moveX + b.dx, m.dx), moveY := Rounded(p.moveY + b.dy, m.dy))
    else p.(queue := p.queue + [b])
  }

  /** The whole steps that are due, if any. */
  function Due(p: Pad, m: Machine): Option<(int32, int32)> {
    var x, y := ToInt32(p.moveX, m.ux), ToInt32(p.moveY, m.uy);
    if x == 0 && y == 0 then None else Some((x, y))
  }

  function Flushed(p: Pad, m: Machine): Pad {
    match Due(p, m)
    case None => p
    case Some(_) => p.(moveX := Residue(p.moveX, m.ux, m.dx), moveY := Residue(p.moveY, m.uy, m.dy))
  }

  class MousepadPlugin {
    var moveX: real
    var moveY: real
    var queue: seq<Body>
    /** The buffered wake-up of the worker. */
    var queueWake: bool

    ghost function Snapshot(): Pad
      reads this
    {
      Pad(moveX, moveY, queue)
    }

    constructor ()
      ensures Snapshot() == Pad(0.0, 0.0, []) && !queueWake
      ensures moveX == 0.0 && moveY == 0.0 && queue == []
    {
      moveX, moveY, queue, queueWake := 0.0, 0.0, [], false;
    }

    method Handle(body: Body, m: Machine)
      modifies this
      ensures Snapshot() == Received(old(Snapshot()), body, m) && queueWake
      // a click, a key, a hold, a scroll or an empty event is queued
      ensures body.scroll || body.action != "" || (body.dx == 0.0 && body.dy == 0.0) ==>
                queue == old(queue) + [body] && moveX == old(moveX) && moveY == old(moveY)
      // anything else is motion, added up to one rounding
      ensures !body.scroll && body.action == "" && (body.dx != 0.0 || body.dy != 0.0) ==>
                var x, y := old(moveX) + body.dx, old(moveY) + body.dy;
                && queue == old(queue)
                && -Abs(x) <= (moveX - x) * 9007199254740992.0 <= Abs(x)
                && -Abs(y) <= (moveY - y) * 9007199254740992.0 <= Abs(y)
    {
      RoundingIsSmall(moveX + body.dx, m.dx);
      RoundingIsSmall(moveY + body.dy, m.dy);
      hide Rounded;
      var isPointerMove := (body.dx != 0.0 || body.dy != 0.0) && !body.scroll && body.action == "";
      if isPointerMove {
        moveX := Rounded(moveX + body.dx, m.dx);
        moveY := Rounded(moveY + body.dy, m.dy);
      } else {
        queue := queue + [body];
      }
      queueWake := true;
    }

    method FlushMove(m: Machine) returns (move: Option<(int32, int32)>)
      modifies this`moveX, this`moveY
      ensures move == Due(old(Snapshot()), m)
      ensures Snapshot() == Flushed(old(Snapshot()), m)
      ensures InRange(old(moveX)) && InRange(old(moveY)) ==> BelowOnePixel(moveX) && BelowOnePixel(moveY)
      // in range: the whole pixels towards zero are emitted and taken off, if there are any
      ensures -2147483649.0 < old(moveX) < 2147483648.0 && -2147483649.0 < old(moveY) < 2147483648.0 ==>
                && (move.None? <==> -1.0 < old(moveX) < 1.0 && -1.0 < old(moveY) < 1.0)
                && moveX == old(moveX) - (if move.Some? then move.value.0 else 0) as real
                && moveY == old(moveY) - (if move.Some? then move.value.1 else 0) as real
                && -1.0 < moveX < 1.0 && -1.0 < moveY < 1.0
                && (old(moveX) >= 0.0 ==> moveX >= 0.0) && (old(moveX) <= 0.0 ==> moveX <= 0.0)
                && (old(moveY) >= 0.0 ==> moveY >= 0.0) && (old(moveY) <= 0.0 ==> moveY <= 0.0)
    {
      ResidueExactlyInRange(moveX, m.ux, m.dx);
      ResidueExactlyInRange(moveY, m.uy, m.dy);
      hide Rounded;
      var stepX := ToInt32(moveX, m.ux);
      var stepY := ToInt32(moveY, m.uy);
      if stepX == 0 && stepY == 0 { return None; }
      moveX := if InRange(moveX) then moveX - stepX as real else Rounded(moveX - stepX as real, m.dx);
      moveY := if InRange(moveY) then moveY - stepY as real else Rounded(moveY - stepY as real, m.dy);
      return Some((stepX, stepY));
    }

    /** The locked part of a turn of the worker's loop. */
    method TakeNext(m: Machine) returns (event: Option<Body>, hasPendingMove: bool)
      modifies this`queue
      ensures event == (if old(queue) == [] then None else Some(old(queue)[0]))
      ensures queue == (if old(queue) == [] then [] else old(queue)[1..])
      ensures hasPendingMove <==> Due(Snapshot(), m).Some?
      ensures -2147483649.0 < moveX < 2147483648.0 && -2147483649.0 < moveY < 2147483648.0 ==>
                (hasPendingMove <==> !(-1.0 < moveX < 1.0 && -1.0 < moveY < 1.0))
    {
      event := None;
      if |queue| > 0 {
        event := Some(queue[0]);
        queue := queue[1..];
      }
      hasPendingMove := ToInt32(moveX, m.ux) != 0 || ToInt32(moveY, m.uy) != 0;
    }
  }

  // ---------- Runs ----------

  /** Where the worker stands; `Ready` holds an event whose preceding motion has been dealt with. */
  datatype Worker =
    | Parked
    | Looping
    | Flushing
    | Holding(event: Body)
    | Ready(event: Body, seenX: real, seenY: real, inRange: bool)

  /**
   A handled event, with the motion received, as accumulated, when its preceding
   motion was dealt with, the motion emitted before it, and whether the
   accumulators were then in range.
   */
  datatype Done = Done(event: Body, seenX: real, seenY: real, emittedX: int, emittedY: int, inRange: bool)

  /** `roundX` and `roundY` sum up the rounding errors; `steady` while no accumulator left the range. */
  datatype World = World(
    pad: Pad, wake: bool, worker: Worker, timerMade: bool, timerArmed: bool,
    receivedX: real, receivedY: real, emittedX: int, emittedY: int,
    roundX: real, roundY: real, moves: nat, steady: bool,
    events: seq<Body>, handled: seq<Done>)

  const START: World :=
    World(Pad(0.0, 0.0, []), false, Parked, false, false, 0.0, 0.0, 0, 0, 0.0, 0.0, 0, true, [], [])

  datatype Step =
    | Receive(b: Body, m: Machine)
    | WakeUp
    | TimerFires(m: Machine)
    | Turn(m: Machine, rested: bool)   // `rested`: the last flush is at least 8 ms ago
    | FlushMove(m: Machine)
    | HandleEvent

  predicate PadInRange(p: Pad) {
    InRange(p.moveX) && InRange(p.moveY)
  }

  /** The error of taking `x` converted off `x`. */
  function ResidueError(x: real, unknown: int32, d: Delta): real {
    Residue(x, unknown, d) - (x - ToInt32(x, unknown) as real)
  }

  function Flush(w: World, m: Machine): World {
    match Due(w.pad, m)
    case None => w
    case Some((x, y)) =>
      w.(pad := Flushed(w.pad, m), emittedX := w.emittedX + x, emittedY := w.emittedY + y,
         roundX := w.roundX + ResidueError(w.pad.moveX, m.ux, m.dx),
         roundY := w.roundY + ResidueError(w.pad.moveY, m.uy, m.dy),
         steady := w.steady && PadInRange(w.pad))
  }

  function Receipt(w: World, b: Body, m: Machine): World {
    var w' := w.(pad := Received(w.pad, b, m), wake := true);
    if IsPointerMove(b) then
      w'.(receivedX := w.receivedX + b.dx, receivedY := w.receivedY + b.dy,
          roundX := w.roundX + (w'.pad.moveX - (w.pad.moveX + b.dx)),
          roundY := w.roundY + (w'.pad.moveY - (w.pad.moveY + b.dy)),
          moves := w.moves + 1,
          steady := w.steady && InRange(w.pad.moveX + b.dx) && InRange(w.pad.moveY + b.dy))
    else w'.(events := w.events + [b])
  }

  /** The motion before `event` is dealt with. */
  function MadeReady(w: World, event: Body, inRange: bool): World {
    w.(worker := Ready(event, w.receivedX + w.roundX, w.receivedY + w.roundY, inRange))
  }

  function TurnTaken(w: World, m: Machine, rested: bool): World {
    if w.pad.queue != [] then
      var event := w.pad.queue[0];
      var w' := w.(pad := w.pad.(queue := w.pad.queue[1..]), timerArmed := false);
      if Due(w.pad, m).Some? then w'.(worker := Holding(event)) else MadeReady(w', event, PadInRange(w.pad))
    else if Due(w.pad, m).None? then w.(worker := Parked)
    else if rested then w.(worker := Flushing, timerArmed := false)
    // a timer is only ever made once
    else w.(worker := Parked, timerMade := true, timerArmed := w.timerArmed || !w.timerMade)
  }

  function Next(w: World, p: Step): World {
    match (p, w.worker)
    case (Receive(b, m), _) => Receipt(w, b, m)
    case (WakeUp, Parked) => if w.wake then w.(wake := false, worker := Looping) else w
    case (TimerFires(m), Parked) => if w.timerArmed then Flush(w.(timerArmed := false), m) else w
    case (Turn(m, rested), Looping) => TurnTaken(w, m, rested)
    case (FlushMove(m), Flushing) => Flush(w, m).(worker := Looping)
    case (FlushMove(m), Holding(event)) => MadeReady(Flush(w, m), event, PadInRange(w.pad))
    case (HandleEvent, Ready(event, x, y, inRange)) =>
      w.(worker := Looping, handled := w.handled + [Done(event, x, y, w.emittedX, w.emittedY, inRange)])
    case _ => w
  }

  function Run(steps: seq<Step>): World {
    if steps == [] then START else Next(Run(steps[..|steps| - 1]), steps[|steps| - 1])
  }

  /** A received event joins the queue and the events; received motion is counted; either wakes the worker. */
  lemma ReceiptExactly(w: World, b: Body, m: Machine)
    ensures var w' := Next(w, Receive(b, m));
            && w'.wake && w'.worker == w.worker && w'.handled == w.handled
            && w'.emittedX == w.emittedX && w'.emittedY == w.emittedY
            && (if b.scroll || b.action != "" || (b.dx == 0.0 && b.dy == 0.0) then
                  && w'.pad == w.pad.(queue := w.pad.queue + [b]) && w'.events == w.events + [b]
                  && w'.receivedX == w.receivedX && w'.receivedY == w.receivedY && w'.moves == w.moves
                  && w'.steady == w.steady
                else
                  && w'.pad.queue == w.pad.queue && w'.events == w.events && w'.moves == w.moves + 1
                  && w'.receivedX == w.receivedX + b.dx && w'.receivedY == w.receivedY + b.dy
                  && (w'.steady <==> w.steady && -2147483649.0 < w.pad.moveX + b.dx < 2147483648.0
                                     && -2147483649.0 < w.pad.moveY + b.dy < 2147483648.0))
  {
    hide Rounded;
  }

  /** A woken worker takes the oldest event, deals with the motion before it, and handles it. */
  lemma HeadIsHandled(w: World, m1: Machine, rested: bool, m2: Machine)
    requires w.worker.Looping? && w.pad.queue != []
    ensures var w' := Next(Next(Next(w, Turn(m1, rested)), FlushMove(m2)), HandleEvent);
            && w'.worker == Looping && w'.pad.queue == w.pad.queue[1..]
            && |w'.handled| == |w.handled| + 1 && w'.handled[..|w.handled|] == w.handled
            && var d := w'.handled[|w.handled|];
               && d.event == w.pad.queue[0] && d.emittedX == w'.emittedX && d.emittedY == w'.emittedY
               && d.seenX == w'.receivedX + w'.roundX && d.seenY == w'.receivedY + w'.roundY
               && (d.inRange <==> -2147483649.0 < w.pad.moveX < 2147483648.0
                                  && -2147483649.0 < w.pad.moveY < 2147483648.0)
  {
    hide Next;
    HeadIsTaken(w, m1, rested);
    MotionIsDealtWith(Next(w, Turn(m1, rested)), m2);
    ReadyIsHandled(Next(Next(w, Turn(m1, rested)), FlushMove(m2)));
  }

  lemma HeadIsTaken(w: World, m: Machine, rested: bool)
    requires w.worker.Looping? && w.pad.queue != []
    ensures var w' := Next(w, Turn(m, rested));
            && InHand(w'.worker) == [w.pad.queue[0]] && w'.pad.queue == w.pad.queue[1..] && w'.handled == w.handled
            && w'.pad.moveX == w.pad.moveX && w'.pad.moveY == w.pad.moveY
            && (w'.worker.Ready? ==> Seen(w', w.pad))
  {
    hide Due;
    hide InRange;
  }

  lemma MotionIsDealtWith(w: World, m: Machine)
    requires InHand(w.worker) != []
    ensures var w' := Next(w, FlushMove(m));
            && w'.worker.Ready? && InHand(w'.worker) == InHand(w.worker)
            && w'.pad.queue == w.pad.queue && w'.handled == w.handled
            && (w.worker.Ready? ==> w' == w) && (w.worker.Holding? ==> Seen(w', w.pad))
  {
    hide Residue;
    hide ToInt32;
    hide InRange;
  }

  lemma ReadyIsHandled(w: World)
    requires w.worker.Ready?
    ensures var w' := Next(w, HandleEvent);
            && w'.worker == Looping && w'.pad.queue == w.pad.queue
            && |w'.handled| == |w.handled| + 1 && w'.handled[..|w.handled|] == w.handled
            && w'.handled[|w.handled|]
               == Done(w.worker.event, w.worker.seenX, w.worker.seenY, w'.emittedX, w'.emittedY, w.worker.inRange)
            && w'.receivedX == w.receivedX && w'.receivedY == w.receivedY
            && w'.roundX == w.roundX && w'.roundY == w.roundY
  {
  }

  /** The motion before the event in hand was just dealt with, the accumulators having been those of `p`. */
  ghost predicate Seen(w: World, p: Pad)
    requires w.worker.Ready?
  {
    && w.worker.seenX == w.receivedX + w.roundX && w.worker.seenY == w.receivedY + w.roundY
    && (w.worker.inRange <==> PadInRange(p))
  }

  /**
   With no event waiting the worker parks; but if whole pixels are due it emits
   them, or if it just did leaves that to the timer.
   */
  lemma IdleTurn(w: World, m: Machine, rested: bool, m': Machine)
    requires w.worker.Looping? && w.pad.queue == []
    requires -2147483649.0 < w.pad.moveX < 2147483648.0 && -2147483649.0 < w.pad.moveY < 2147483648.0
    ensures var w' := Next(w, Turn(m, rested));
            if -1.0 < w.pad.moveX < 1.0 && -1.0 < w.pad.moveY < 1.0 then w' == w.(worker := Parked)
            else if !rested then
              w' == w.(worker := Parked, timerMade := true, timerArmed := w.timerArmed || !w.timerMade)
            else
              && !w'.timerArmed
              && var after := Next(w', FlushMove(m'));
                 && after.worker == Looping && after.pad.queue == []
                 && -1.0 < after.pad.moveX < 1.0 && -1.0 < after.pad.moveY < 1.0
                 && w.pad.moveX == after.pad.moveX + (after.emittedX - w.emittedX) as real
                 && w.pad.moveY == after.pad.moveY + (after.emittedY - w.emittedY) as real
  {
    hide ToInt32;
    hide Flush;
    NoStepBelowOnePixel(w.pad.moveX, m.ux);
    NoStepBelowOnePixel(w.pad.moveY, m.uy);
    FlushExactly(Next(w, Turn(m, rested)), m');
  }

  /** A parked worker is woken by what was received meanwhile; the timer, if armed, emits the pixels that are due. */
  lemma ParkedMoves(w: World, m: Machine)
    requires w.worker.Parked?
    requires -2147483649.0 < w.pad.moveX < 2147483648.0 && -2147483649.0 < w.pad.moveY < 2147483648.0
    ensures Next(w, WakeUp) == if w.wake then w.(wake := false, worker := Looping) else w
    ensures var w' := Next(w, TimerFires(m));
            if w.timerArmed then
              && !w'.timerArmed && w'.pad.queue == w.pad.queue
              && -1.0 < w'.pad.moveX < 1.0 && -1.0 < w'.pad.moveY < 1.0
              && w.pad.moveX == w'.pad.moveX + (w'.emittedX - w.emittedX) as real
              && w.pad.moveY == w'.pad.moveY + (w'.emittedY - w.emittedY) as real
            else w' == w
  {
    hide Flush;
    FlushExactly(w.(timerArmed := false), m);
  }

  lemma FlushExactly(w: World, m: Machine)
    ensures var w' := Flush(w, m);
            w'.worker == w.worker && w'.pad.queue == w.pad.queue && w'.timerArmed == w.timerArmed
    ensures InRange(w.pad.moveX) && InRange(w.pad.moveY) ==>
              var w' := Flush(w, m);
              && -1.0 < w'.pad.moveX < 1.0 && -1.0 < w'.pad.moveY < 1.0
              && w.pad.moveX == w'.pad.moveX + (w'.emittedX - w.emittedX) as real
              && w.pad.moveY == w'.pad.moveY + (w'.emittedY - w.emittedY) as real
              && w'.steady == w.steady
  {
    hide Rounded;
  }

  function Events(handled: seq<Done>): seq<Body> {
    seq(|handled|, i requires 0 <= i < |handled| => handled[i].event)
  }

  function InHand(w: Worker): seq<Body> {
    if w.Holding? || w.Ready? then [w.event] else []
  }

  /** What one rounding of an accumulator in range may cost, a quarter of a millionth of a pixel. */
  const MOVE_ERROR: real := 2147483649.0 / 9007199254740992.0

  /**
   Every delta received is emitted or still accumulated, but for rounding, which is
   bounded per move while the accumulators stay in range; every event is handled,
   in hand or queued, in order.
   */
  ghost predicate Conserved(w: World) {
    && w.receivedX + w.roundX == w.emittedX as real + w.pad.moveX
    && w.receivedY + w.roundY == w.emittedY as real + w.pad.moveY
    && (w.steady ==> Abs(w.roundX) <= w.moves as real * MOVE_ERROR && Abs(w.roundY) <= w.moves as real * MOVE_ERROR)
    && w.events == Events(w.handled) + InHand(w.worker) + w.pad.queue
  }

  ghost predicate CaughtUp(seenX: real, seenY: real, emittedX: int, emittedY: int) {
    BelowOnePixel(seenX - emittedX as real) && BelowOnePixel(seenY - emittedY as real)
  }

  /** Before an event, all whole pixels received until its motion was dealt with are emitted. */
  ghost predicate Ordered(w: World) {
    && (forall d | d in w.handled && d.inRange :: CaughtUp(d.seenX, d.seenY, d.emittedX, d.emittedY))
    && (w.worker.Ready? && w.worker.inRange ==>
          CaughtUp(w.worker.seenX, w.worker.seenY, w.emittedX, w.emittedY))
  }

  lemma FlushConserves(w: World, m: Machine)
    requires Conserved(w)
    ensures Conserved(Flush(w, m))
    ensures Flush(w, m).worker == w.worker && Flush(w, m).handled == w.handled
    ensures PadInRange(w.pad) ==> Flush(w, m).roundX == w.roundX && Flush(w, m).roundY == w.roundY
    ensures PadInRange(w.pad) ==>
              BelowOnePixel(Flush(w, m).pad.moveX) && BelowOnePixel(Flush(w, m).pad.moveY)
  {
    NothingDue(w.pad, m);
    ResidueExactlyInRange(w.pad.moveX, m.ux, m.dx);
    ResidueExactlyInRange(w.pad.moveY, m.uy, m.dy);
    hide ToInt32;
    hide InRange;
    hide Rounded;
    hide Abs;
  }

  lemma NothingDue(p: Pad, m: Machine)
    ensures PadInRange(p) && Due(p, m).None? ==> BelowOnePixel(p.moveX) && BelowOnePixel(p.moveY)
  {
    NoStepBelowOnePixel(p.moveX, m.ux);
    NoStepBelowOnePixel(p.moveY, m.uy);
    hide ToInt32;
    hide InRange;
  }

  /** One addition in range adds at most its share to the rounding error. */
  lemma ErrorGrows(round: real, moves: nat, exact: real, d: Delta)
    requires Abs(round) <= moves as real * MOVE_ERROR && InRange(exact)
    ensures Abs(round + (Rounded(exact, d) - exact)) <= (moves + 1) as real * MOVE_ERROR
  {
    RoundingError(exact, d);
    hide Rounded;
    assert Abs(exact) * HALF_ULP <= MOVE_ERROR;
  }

  lemma ReceiptConserves(w: World, b: Body, m: Machine)
    requires Conserved(w)
    ensures Conserved(Receipt(w, b, m))
  {
    if IsPointerMove(b) && Receipt(w, b, m).steady {
      ErrorGrows(w.roundX, w.moves, w.pad.moveX + b.dx, m.dx);
      ErrorGrows(w.roundY, w.moves, w.pad.moveY + b.dy, m.dy);
    }
    hide Rounded;
    hide Abs;
    hide InRange;
    hide Events;
  }

  lemma TurnKeeps(w: World, m: Machine, rested: bool)
    requires Conserved(w) && Ordered(w) && w.worker.Looping?
    ensures Conserved(TurnTaken(w, m, rested)) && Ordered(TurnTaken(w, m, rested))
  {
    hide Due;
    hide InRange;
    hide Events;
    hide Abs;
    hide BelowOnePixel;
    NothingDue(w.pad, m);
    if w.pad.queue != [] { HeadInHand(Events(w.handled), w.pad.queue); }
  }

  lemma HeadInHand(handled: seq<Body>, queue: seq<Body>)
    requires queue != []
    ensures handled + [] + queue == handled + [queue[0]] + queue[1..]
  {
  }

  lemma StepKeeps(w: World, p: Step)
    requires Conserved(w) && Ordered(w)
    ensures Conserved(Next(w, p)) && Ordered(Next(w, p))
  {
    hide Due;
    hide InRange;
    hide Receipt;
    hide Abs;
    match (p, w.worker)
    case (Receive(b, m), _) => ReceiptConserves(w, b, m); ReceiptSpares(w, b, m);
    case (TimerFires(m), Parked) => FlushConserves(w.(timerArmed := false), m);
    case (Turn(m, rested), Looping) => TurnKeeps(w, m, rested);
    case (FlushMove(m), Flushing) => FlushConserves(w, m);
    case (FlushMove(m), Holding(event)) => FlushConserves(w, m);
    case (HandleEvent, Ready(event, x, y, inRange)) => HandleKeeps(w);
    case _ =>
  }

  lemma ReceiptSpares(w: World, b: Body, m: Machine)
    ensures var w' := Receipt(w, b, m);
            w'.worker == w.worker && w'.handled == w.handled && w'.emittedX == w.emittedX && w'.emittedY == w.emittedY
  {
  }

  lemma HandleKeeps(w: World)
    requires Conserved(w) && Ordered(w) && w.worker.Ready?
    ensures Conserved(Next(w, HandleEvent)) && Ordered(Next(w, HandleEvent))
  {
    hide Abs;
    var d := Done(w.worker.event, w.worker.seenX, w.worker.seenY, w.emittedX, w.emittedY, w.worker.inRange);
    assert Events(w.handled + [d]) == Events(w.handled) + [d.event];
  }

  /** In every interleaving of received packets and worker steps. */
  lemma {:induction false} RunIsSound(steps: seq<Step>)
    ensures Conserved(Run(steps)) && Ordered(Run(steps))
    ensures var w := Run(steps);
            w.steady ==>
              && -0.00000024 * w.moves as real <= w.receivedX - w.emittedX as real - w.pad.moveX
                 <= 0.00000024 * w.moves as real
              && -0.00000024 * w.moves as real <= w.receivedY - w.emittedY as real - w.pad.moveY
                 <= 0.00000024 * w.moves as real
    ensures forall d | d in Run(steps).handled && d.inRange ::
              -1.0 < d.seenX - d.emittedX as real < 1.0 && -1.0 < d.seenY - d.emittedY as real < 1.0
  {
    hide Run;
    RunBegins(steps);
    if steps != [] {
      RunIsSound(steps[..|steps| - 1]);
      StepKeeps(Run(steps[..|steps| - 1]), steps[|steps| - 1]);
    }
    SmallErrors(Run(steps));
  }

  lemma RunBegins(steps: seq<Step>)
    ensures Conserved(START) && Ordered(START)
    ensures Run(steps) == if steps == [] then START else Next(Run(steps[..|steps| - 1]), steps[|steps| - 1])
  {
  }

  lemma SmallErrors(w: World)
    requires Conserved(w)
    ensures w.steady ==>
              && -0.00000024 * w.moves as real <= w.receivedX - w.emittedX as real - w.pad.moveX
                 <= 0.00000024 * w.moves as real
              && -0.00000024 * w.moves as real <= w.receivedY - w.emittedY as real - w.pad.moveY
                 <= 0.00000024 * w.moves as real
  {
    hide Events;
  }
}
