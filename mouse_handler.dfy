/**
 * The mouse handler shared by the controllers that pace their reports
 * (the JOYSTICK/JWAITING handler of the mode controller and of the
 * user-code controller): a paced pointer report, a paced wheel report and
 * the DPad left/right buttons as the mouse buttons.
 */
module MouseHandler {
  import opened Hid
  import opened Buttons

  /** The time of the last pointer report and of the last wheel report. */
  datatype Pacing = Pacing(lastMouse: real, lastMouseWheel: real)

  /** Minimum spacing of pointer reports, in seconds. */
  const MOVE_INTERVAL: real := 0.005

  /** Minimum spacing of wheel reports, in seconds. */
  const WHEEL_INTERVAL: real := 0.1

  /** The wheel direction: up held scrolls by -1, otherwise down held by +1. */
  function Wheel(dpad: Dpad): (w: int)
    ensures w == -1 <==> dpad.up.Pressed()
    ensures w == 1 <==> !dpad.up.Pressed() && dpad.down.Pressed()
    ensures w == 0 <==> !dpad.up.Pressed() && !dpad.down.Pressed()
  {
    if dpad.up.Pressed() then -1
    else if dpad.down.Pressed() then 1
    else 0
  }

  /** A paced report at `now`: it fires when more than `interval` has passed since `last`. */
  predicate Due(last: real, now: real, interval: real) {
    now - last > interval
  }

  /** The timestamp after a paced report is considered at `now`. */
  function Paced(last: real, now: real, interval: real): real {
    if Due(last, now, interval) then now else last
  }

  /** The pointer report and the wheel report of one tick, in that order. */
  function MotionReports(p: Pacing, dpad: Dpad, dx: int, dy: int, now: real): seq<Event> {
    (if Due(p.lastMouse, now, MOVE_INTERVAL) then [Move(dx, dy, 0)] else [])
    + (if Due(p.lastMouseWheel, now, WHEEL_INTERVAL) then [Move(0, 0, Wheel(dpad))] else [])
  }

  /** The DPad left/right edges as presses and releases of the LEFT/RIGHT mouse buttons. */
  function ButtonReports(dpad: Dpad): seq<Event> {
    ButtonEdgeReports(dpad.left.PressedEvent(), dpad.left.ReleasedEvent(), LeftButton)
    + ButtonEdgeReports(dpad.right.PressedEvent(), dpad.right.ReleasedEvent(), RightButton)
  }

  /** The paced pointer and wheel reports. */
  function Motion(p: Pacing, h: Hid, dpad: Dpad, dx: int, dy: int, now: real): (r: (Pacing, Hid))
    ensures r.1.log == h.log + MotionReports(p, dpad, dx, dy, now)
    ensures r.0 == Pacing(Paced(p.lastMouse, now, MOVE_INTERVAL), Paced(p.lastMouseWheel, now, WHEEL_INTERVAL))
    ensures r.1.keys == h.keys && r.1.buttons == h.buttons
  {
    var moved := Due(p.lastMouse, now, MOVE_INTERVAL);
    var p1 := if moved then p.(lastMouse := now) else p;
    var h1 := if moved then h.MoveMouse(dx, dy, 0) else h;
    var wheeled := Due(p1.lastMouseWheel, now, WHEEL_INTERVAL);
    var p2 := if wheeled then p1.(lastMouseWheel := now) else p1;
    var h2 := if wheeled then h1.MoveMouse(0, 0, Wheel(dpad)) else h1;
    var pointer := if moved then [Move(dx, dy, 0)] else [];
    var wheel := if wheeled then [Move(0, 0, Wheel(dpad))] else [];
    assert h1.log == h.log + pointer;
    assert h2.log == h.log + (pointer + wheel);
    (p2, h2)
  }

  /** One run of the handler. */
  function Handle(p: Pacing, h: Hid, dpad: Dpad, dx: int, dy: int, now: real): (r: (Pacing, Hid))
    ensures Extends(r.1, h)
    ensures Sent(h, r.1) == MotionReports(p, dpad, dx, dy, now) + ButtonReports(dpad)
    ensures r.0 == Pacing(Paced(p.lastMouse, now, MOVE_INTERVAL), Paced(p.lastMouseWheel, now, WHEEL_INTERVAL))
    ensures r.1.keys == h.keys
    ensures (LeftButton in r.1.buttons) == HeldAfter(LeftButton in h.buttons, dpad.left.PressedEvent(), dpad.left.ReleasedEvent())
    ensures (RightButton in r.1.buttons) == HeldAfter(RightButton in h.buttons, dpad.right.PressedEvent(), dpad.right.ReleasedEvent())
    ensures MiddleButton in r.1.buttons <==> MiddleButton in h.buttons
  {
    var m := Motion(p, h, dpad, dx, dy, now);
    var h3 := m.1.ButtonOnEdges(dpad.left.PressedEvent(), dpad.left.ReleasedEvent(), LeftButton);
    var h4 := h3.ButtonOnEdges(dpad.right.PressedEvent(), dpad.right.ReleasedEvent(), RightButton);
    assert h4.log == h.log + (MotionReports(p, dpad, dx, dy, now) + ButtonReports(dpad));
    Appended(h, h4, MotionReports(p, dpad, dx, dy, now) + ButtonReports(dpad));
    (m.0, h4)
  }

  /**
   * The pacing timestamps move only when their report goes out: the pointer
   * timestamp changes exactly when a pointer report is sent, and then to the
   * current time, which is more than 5 ms after the previous one; the same
   * for the wheel with 100 ms.
   */
  lemma TimestampsMoveOnlyWithReports(p: Pacing, h: Hid, dpad: Dpad, dx: int, dy: int, now: real)
    ensures var r := Handle(p, h, dpad, dx, dy, now);
      (r.0.lastMouse != p.lastMouse <==> Due(p.lastMouse, now, MOVE_INTERVAL))
      && (r.0.lastMouse != p.lastMouse ==>
            r.0.lastMouse == now && now > p.lastMouse + MOVE_INTERVAL && Sent(h, r.1)[0] == Move(dx, dy, 0))
    ensures var r := Handle(p, h, dpad, dx, dy, now);
      (r.0.lastMouseWheel != p.lastMouseWheel <==> Due(p.lastMouseWheel, now, WHEEL_INTERVAL))
      && (r.0.lastMouseWheel != p.lastMouseWheel ==>
            r.0.lastMouseWheel == now && Move(0, 0, Wheel(dpad)) in Sent(h, r.1))
    ensures var r := Handle(p, h, dpad, dx, dy, now);
      |Sent(h, r.1)| - |ButtonReports(dpad)|
      == (if r.0.lastMouse != p.lastMouse then 1 else 0) + (if r.0.lastMouseWheel != p.lastMouseWheel then 1 else 0)
  {
    var r := Handle(p, h, dpad, dx, dy, now);
    if Due(p.lastMouseWheel, now, WHEEL_INTERVAL) {
      var m := MotionReports(p, dpad, dx, dy, now);
      assert m[|m| - 1] == Move(0, 0, Wheel(dpad));
      assert Sent(h, r.1)[|m| - 1] == m[|m| - 1];
    }
  }

  /** The times at which a pacer with spacing `interval` fires, starting from `last`, over the tick times `nows`. */
  function FiringTimes(last: real, nows: seq<real>, interval: real): seq<real>
    decreases |nows|
  {
    if nows == [] then []
    else if Due(last, nows[0], interval) then [nows[0]] + FiringTimes(nows[0], nows[1..], interval)
    else FiringTimes(last, nows[1..], interval)
  }

  /**
   * The rate limit over any run of ticks: the first report comes more than
   * `interval` after the starting timestamp, and any two consecutive reports
   * are more than `interval` apart, whatever the tick times.
   */
  lemma {:induction false} RateLimited(last: real, nows: seq<real>, interval: real)
    ensures var ts := FiringTimes(last, nows, interval);
      (|ts| > 0 ==> ts[0] - last > interval)
      && forall i :: 0 <= i < |ts| - 1 ==> ts[i + 1] - ts[i] > interval
    decreases |nows|
  {
    if nows != [] {
      RateLimited(if Due(last, nows[0], interval) then nows[0] else last, nows[1..], interval);
      if Due(last, nows[0], interval) {
        var rest := FiringTimes(nows[0], nows[1..], interval);
        var ts := [nows[0]] + rest;
        forall i | 0 <= i < |ts| - 1
          ensures ts[i + 1] - ts[i] > interval
        {
          if i > 0 {
            assert ts[i] == rest[i - 1] && ts[i + 1] == rest[i];
          }
        }
      }
    }
  }

  /** One pass of the handler: the DPad, the two axis deltas and the time of the pass. */
  datatype Pass = Pass(dpad: Dpad, dx: int, dy: int, now: real)

  /** The times of the passes, in order. */
  function Nows(passes: seq<Pass>): (ts: seq<real>)
    ensures |ts| == |passes|
    ensures forall i :: 0 <= i < |passes| ==> ts[i] == passes[i].now
  {
    seq(|passes|, i requires 0 <= i < |passes| => passes[i].now)
  }

  /** The number of DPad left/right button reports over the passes. */
  function ButtonReportCount(passes: seq<Pass>): nat
    decreases |passes|
  {
    if passes == [] then 0 else |ButtonReports(passes[0].dpad)| + ButtonReportCount(passes[1..])
  }

  /**
   * The handler run over a sequence of passes: the final pacing and sink,
   * the times of the passes at which the pointer timestamp moved (and so,
   * by `TimestampsMoveOnlyWithReports`, a pointer report went out), and the
   * same for the wheel.
   */
  function HandleRun(p: Pacing, h: Hid, passes: seq<Pass>): (r: (Pacing, Hid, seq<real>, seq<real>))
    decreases |passes|
  {
    if passes == [] then (p, h, [], [])
    else
      var x := passes[0];
      var s := Handle(p, h, x.dpad, x.dx, x.dy, x.now);
      var rest := HandleRun(s.0, s.1, passes[1..]);
      (rest.0, rest.1,
       (if s.0.lastMouse != p.lastMouse then [x.now] else []) + rest.2,
       (if s.0.lastMouseWheel != p.lastMouseWheel then [x.now] else []) + rest.3)
  }

  /**
   * Over any run of handler passes the pointer reports go out exactly at the
   * firing times of a 5 ms pacer started at the pointer timestamp, and the
   * wheel reports at those of a 100 ms pacer started at the wheel timestamp.
   */
  lemma {:induction false} HandleRunTimes(p: Pacing, h: Hid, passes: seq<Pass>)
    ensures HandleRun(p, h, passes).2 == FiringTimes(p.lastMouse, Nows(passes), MOVE_INTERVAL)
    ensures HandleRun(p, h, passes).3 == FiringTimes(p.lastMouseWheel, Nows(passes), WHEEL_INTERVAL)
    decreases |passes|
  {
    if passes != [] {
      var x := passes[0];
      var s := Handle(p, h, x.dpad, x.dx, x.dy, x.now);
      HandleRunTimes(s.0, s.1, passes[1..]);
      var ns := Nows(passes);
      assert ns[0] == x.now;
      assert ns[1..] == Nows(passes[1..]);
      assert s.0.lastMouse != p.lastMouse <==> Due(p.lastMouse, x.now, MOVE_INTERVAL);
      assert s.0.lastMouseWheel != p.lastMouseWheel <==> Due(p.lastMouseWheel, x.now, WHEEL_INTERVAL);
    }
  }

  /**
   * Over any run of handler passes the sink only grows, and the reports sent
   * are one per pointer time, one per wheel time and the DPad button reports.
   */
  lemma {:induction false} HandleRunSends(p: Pacing, h: Hid, passes: seq<Pass>)
    ensures var r := HandleRun(p, h, passes);
      Extends(r.1, h) && |Sent(h, r.1)| == |r.2| + |r.3| + ButtonReportCount(passes)
    decreases |passes|
  {
    if passes != [] {
      var x := passes[0];
      var s := Handle(p, h, x.dpad, x.dx, x.dy, x.now);
      TimestampsMoveOnlyWithReports(p, h, x.dpad, x.dx, x.dy, x.now);
      HandleRunSends(s.0, s.1, passes[1..]);
      var rest := HandleRun(s.0, s.1, passes[1..]);
      assert |rest.1.log| == |s.1.log| + |Sent(s.1, rest.1)|;
      assert |s.1.log| == |h.log| + |Sent(h, s.1)|;
      assert rest.1.log[..|h.log|] == rest.1.log[..|s.1.log|][..|h.log|];
    }
  }

  /**
   * The rate limit over any run of handler passes: consecutive pointer
   * reports are more than 5 ms apart and consecutive wheel reports more than
   * 100 ms apart, whatever the pass times.
   */
  lemma HandleRunRateLimited(p: Pacing, h: Hid, passes: seq<Pass>)
    ensures var r := HandleRun(p, h, passes);
      forall i :: 0 <= i < |r.2| - 1 ==> r.2[i + 1] - r.2[i] > MOVE_INTERVAL
    ensures var r := HandleRun(p, h, passes);
      forall i :: 0 <= i < |r.3| - 1 ==> r.3[i + 1] - r.3[i] > WHEEL_INTERVAL
  {
    HandleRunTimes(p, h, passes);
    RateLimited(p.lastMouse, Nows(passes), MOVE_INTERVAL);
    RateLimited(p.lastMouseWheel, Nows(passes), WHEEL_INTERVAL);
  }
}
