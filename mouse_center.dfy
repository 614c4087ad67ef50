/**
 * The three-state built-in controller: a plain mouse, armed after the
 * stick rested for more than a second, with no way back once armed and no
 * pacing of its reports.
 */
module MouseCenter {
  import opened Hid
  import opened Buttons
  import opened Indicator
  import opened JoystickAxis
  import MouseHandler

  datatype State = Unwired | Waiting | Joystick

  /** This controller waits a full second before arming. */
  const ARMING_DELAY: real := 1.0

  datatype Machine = Machine(state: State, timer: real, dpad: Dpad, hid: Hid)

  datatype Tick = Tick(dpad: DpadLevels, dx: int, dy: int, now: real, ns: nat)

  function Initial(now: real): (m: Machine)
    ensures m.state == Unwired && m.hid == Idle
  {
    Machine(Unwired, now, IdleDpad, Idle)
  }

  /**
   * The reports of one JOYSTICK tick, every tick: the pointer, the wheel,
   * then the DPad left/right edges as the mouse buttons.
   */
  function MouseReports(dpad: Dpad, dx: int, dy: int): seq<Event> {
    [Move(dx, dy, 0), Move(0, 0, MouseHandler.Wheel(dpad))] + MouseHandler.ButtonReports(dpad)
  }

  /** The JOYSTICK branch's mouse calls. */
  function MouseStep(h: Hid, dpad: Dpad, dx: int, dy: int): (g: Hid)
    ensures g.keys == h.keys
  {
    h.MoveMouse(dx, dy, 0).MoveMouse(0, 0, MouseHandler.Wheel(dpad))
     .ButtonOnEdges(dpad.left.PressedEvent(), dpad.left.ReleasedEvent(), LeftButton)
     .ButtonOnEdges(dpad.right.PressedEvent(), dpad.right.ReleasedEvent(), RightButton)
  }

  /** `process()` after the debouncers were updated; the mouse is driven inside the JOYSTICK branch itself. */
  function Transition(m: Machine, dx: int, dy: int, now: real): (r: Machine)
    ensures r.dpad == m.dpad
  {
    match m.state
    case Unwired =>
      if dx == 0 && dy == 0 then m.(state := Waiting, timer := now) else m
    case Waiting =>
      if dx != 0 || dy != 0 then m.(state := Unwired)
      else if now - m.timer > ARMING_DELAY then m.(state := Joystick)
      else m
    case Joystick =>
      m.(hid := MouseStep(m.hid, m.dpad, dx, dy))
  }

  function Step(m: Machine, t: Tick): (r: Machine)
    ensures r.dpad == m.dpad.Update(t.dpad)
  {
    Transition(m.(dpad := m.dpad.Update(t.dpad)), t.dx, t.dy, t.now)
  }

  /** Every tick writes the LED: pulsing red until armed, then green. */
  function Led(s: State, ns: nat): (c: Rgb)
    ensures IsColor(c)
    ensures c == Green <==> s == Joystick
  {
    if s == Joystick then Green else Pulse(ns)
  }

  function Run(m: Machine, ticks: seq<Tick>): Machine
    decreases |ticks|
  {
    if ticks == [] then m else Step(Run(m, ticks[..|ticks| - 1]), ticks[|ticks| - 1])
  }

  // ---------------------------------------------------------------------
  // Properties

  /** Each JOYSTICK tick sends the pointer and wheel reports unconditionally, then the button edges. */
  lemma MouseStepSends(h: Hid, dpad: Dpad, dx: int, dy: int)
    ensures var g := MouseStep(h, dpad, dx, dy);
      Extends(g, h) && Sent(h, g) == MouseReports(dpad, dx, dy)
      && (LeftButton in g.buttons) == HeldAfter(LeftButton in h.buttons, dpad.left.PressedEvent(), dpad.left.ReleasedEvent())
      && (RightButton in g.buttons) == HeldAfter(RightButton in h.buttons, dpad.right.PressedEvent(), dpad.right.ReleasedEvent())
  {
    var g := MouseStep(h, dpad, dx, dy);
    assert g.log == h.log + MouseReports(dpad, dx, dy);
    Appended(h, g, MouseReports(dpad, dx, dy));
  }

  /** UNWIRED moves to WAITING exactly when both readings are zero, resetting the timer; nothing is sent. */
  lemma UnwiredArms(m: Machine, t: Tick)
    requires m.state == Unwired
    ensures var r := Step(m, t);
      (r.state == Waiting <==> t.dx == 0 && t.dy == 0)
      && (r.state != Waiting ==> r.state == Unwired && r.timer == m.timer)
      && (r.state == Waiting ==> r.timer == t.now)
      && r.hid == m.hid
  {
  }

  /**
   * WAITING falls back on any movement and arms only more than 1 s after
   * the stick came to rest; the arming tick itself sends nothing.
   */
  lemma WaitingArms(m: Machine, t: Tick)
    requires m.state == Waiting
    ensures var r := Step(m, t);
      (t.dx != 0 || t.dy != 0 ==> r.state == Unwired)
      && (t.dx == 0 && t.dy == 0 && t.now - m.timer <= ARMING_DELAY ==> r.state == Waiting)
      && (t.dx == 0 && t.dy == 0 && t.now - m.timer > ARMING_DELAY ==> r.state == Joystick)
      && r.timer == m.timer && r.hid == m.hid
  {
  }
  /** The arming facts one tick contributes: only UNWIRED and WAITING lead to UNWIRED or WAITING. */
  lemma ArmingStep(m: Machine, t: Tick, r: Machine)
    requires r == Step(m, t)
    ensures m.state == Unwired ==> (r.state == Unwired || (r.state == Waiting && r.timer == t.now && t.dx == 0 && t.dy == 0))
    ensures m.state == Waiting ==>
      (r.state == Unwired || (r.state == Waiting && r.timer == m.timer && t.dx == 0 && t.dy == 0)
       || (r.state == Joystick && t.dx == 0 && t.dy == 0 && t.now - m.timer > ARMING_DELAY))
    ensures m.state != Unwired && m.state != Waiting ==> r.state != Unwired && r.state != Waiting
  {
  }

  /** The stick rested on every tick from i to j. */
  predicate Rested(ticks: seq<Tick>, i: int, j: int) {
    0 <= i && j < |ticks| && forall k :: i <= k <= j ==> ticks[k].dx == 0 && ticks[k].dy == 0
  }

  lemma RestedPrefix(ticks: seq<Tick>, n: nat, i: int, j: int)
    requires n <= |ticks| && Rested(ticks[..n], i, j)
    ensures Rested(ticks, i, j)
  {
    forall k | i <= k <= j
      ensures ticks[k].dx == 0 && ticks[k].dy == 0
    {
      assert ticks[..n][k] == ticks[k];
    }
  }

  /** A run from UNWIRED that ends in WAITING: the tick since which the stick rested, whose time the timer holds. */
  lemma {:induction false} RestingSince(m: Machine, ticks: seq<Tick>) returns (i: nat)
    requires m.state == Unwired
    requires Run(m, ticks).state == Waiting
    ensures i < |ticks| && Run(m, ticks).timer == ticks[i].now && Rested(ticks, i, |ticks| - 1)
    decreases |ticks|
  {
    var n := |ticks| - 1;
    var prev := Run(m, ticks[..n]);
    ArmingStep(prev, ticks[n], Run(m, ticks));
    if prev.state == Unwired {
      i := n;
    } else {
      i := RestingSince(m, ticks[..n]);
      assert ticks[..n][i] == ticks[i];
      RestedPrefix(ticks, n, i, n - 1);
    }
  }

  /** A run from UNWIRED that left UNWIRED/WAITING: the rest period that armed it. */
  lemma {:induction false} RestWitness(m: Machine, ticks: seq<Tick>) returns (i: nat, j: nat)
    requires m.state == Unwired
    requires Run(m, ticks).state != Unwired && Run(m, ticks).state != Waiting
    ensures i < j < |ticks| && ticks[j].now - ticks[i].now > ARMING_DELAY && Rested(ticks, i, j)
    decreases |ticks|
  {
    var n := |ticks| - 1;
    var prev := Run(m, ticks[..n]);
    ArmingStep(prev, ticks[n], Run(m, ticks));
    if prev.state == Waiting {
      i := RestingSince(m, ticks[..n]);
      j := n;
      assert ticks[..n][i] == ticks[i];
      RestedPrefix(ticks, n, i, n - 1);
    } else {
      i, j := RestWitness(m, ticks[..n]);
      assert ticks[..n][i] == ticks[i] && ticks[..n][j] == ticks[j];
      RestedPrefix(ticks, n, i, j);
    }
  }

  /**
   * The controller leaves UNWIRED/WAITING only after the stick rested (both
   * readings zero) on every tick from some tick i to some later tick j more
   * than 1 s after it.
   */
  lemma ArmingNeedsRest(m: Machine, ticks: seq<Tick>)
    requires m.state == Unwired
    requires Run(m, ticks).state != Unwired && Run(m, ticks).state != Waiting
    ensures exists i, j :: 0 <= i < j < |ticks| && ticks[j].now - ticks[i].now > ARMING_DELAY && Rested(ticks, i, j)
  {
    var i, j := RestWitness(m, ticks);
  }


  /** JOYSTICK has no way out, and each of its ticks sends exactly `MouseReports`. */
  lemma JoystickIsTerminal(m: Machine, t: Tick)
    requires m.state == Joystick
    ensures var r := Step(m, t);
      r.state == Joystick && r.timer == m.timer
      && Extends(r.hid, m.hid) && Sent(m.hid, r.hid) == MouseReports(r.dpad, t.dx, t.dy)
  {
    MouseStepSends(m.hid, m.dpad.Update(t.dpad), t.dx, t.dy);
  }

  /** Once armed, the controller stays a mouse for every later tick. */
  lemma {:induction false} JoystickForever(m: Machine, ticks: seq<Tick>)
    requires m.state == Joystick
    ensures Run(m, ticks).state == Joystick && Extends(Run(m, ticks).hid, m.hid)
    decreases |ticks|
  {
    if ticks != [] {
      var n := |ticks| - 1;
      var prev := Run(m, ticks[..n]);
      JoystickForever(m, ticks[..n]);
      JoystickIsTerminal(prev, ticks[n]);
      ExtendsTransitive(m.hid, prev.hid, Run(m, ticks).hid);
    }
  }

  lemma ExtendsTransitive(a: Hid, b: Hid, c: Hid)
    requires Extends(b, a) && Extends(c, b)
    ensures Extends(c, a)
  {
    assert c.log[..|a.log|] == c.log[..|b.log|][..|a.log|];
  }

  /** Nothing is sent before the controller is armed. */
  lemma UnarmedIsSilent(m: Machine, t: Tick)
    requires m.state != Joystick
    ensures Step(m, t).hid == m.hid
  {
  }

  // ---------------------------------------------------------------------
  // The object

  class MouseCommandCenter {
    const xAxis: Axis
    const yAxis: Axis
    var left: Debounced
    var right: Debounced
    var up: Debounced
    var down: Debounced
    /** The mouse. */
    var hid: Hid
    var state: State
    var timer: real

    predicate Valid()
    {
      SafeConfig(xAxis) && SafeConfig(yAxis)
    }

    function Snapshot(): Machine
      reads this
    {
      Machine(state, timer, Dpad(left, right, up, down), hid)
    }

    constructor(now: real, outputScale: real, deadbandCutoff: real, weight: real)
      requires SafeConfig(NewAxis(outputScale, deadbandCutoff, weight))
      ensures Valid()
      ensures xAxis == NewAxis(outputScale, deadbandCutoff, weight) && yAxis == xAxis
      ensures Snapshot() == Initial(now)
    {
      xAxis := NewAxis(outputScale, deadbandCutoff, weight);
      yAxis := NewAxis(outputScale, deadbandCutoff, weight);
      left := Released;
      right := Released;
      up := Released;
      down := Released;
      hid := Idle;
      state := Unwired;
      timer := now;
    }

    /** The JOYSTICK branch: pointer, wheel, then the two mouse buttons. */
    method DriveMouse(dx: int, dy: int)
      modifies this
      ensures Snapshot() == old(Snapshot()).(hid := MouseStep(old(hid), Dpad(left, right, up, down), dx, dy))
    {
      var dwheel := 0;
      if !up.value {
        dwheel := -1;
      } else if !down.value {
        dwheel := 1;
      }
      hid := hid.MoveMouse(dx, dy, 0);
      hid := hid.MoveMouse(0, 0, dwheel);
      if left.fell {
        hid := hid.PressButton(LeftButton);
      } else if left.rose {
        hid := hid.ReleaseButton(LeftButton);
      }
      if right.fell {
        hid := hid.PressButton(RightButton);
      } else if right.rose {
        hid := hid.ReleaseButton(RightButton);
      }
    }

    /** `process()`; the result is this pass's LED write. */
    method Process(dpadLevels: DpadLevels, rawX: int, rawY: int, now: real, ns: nat) returns (led: Rgb)
      requires Valid() && 0 <= rawX <= 65535 && 0 <= rawY <= 65535
      modifies this
      ensures Valid()
      ensures Snapshot() == Step(old(Snapshot()),
        Tick(dpadLevels, ReadJoystickAxis(xAxis, rawX), ReadJoystickAxis(yAxis, rawY), now, ns))
      ensures led == Led(old(state), ns)
    {
      left := left.Update(dpadLevels.left);
      right := right.Update(dpadLevels.right);
      up := up.Update(dpadLevels.up);
      down := down.Update(dpadLevels.down);
      var dx := ReadJoystickAxis(xAxis, rawX);
      var dy := ReadJoystickAxis(yAxis, rawY);
      if state == Unwired {
        led := Pulse(ns);
        if dx == 0 && dy == 0 {
          state := Waiting;
          timer := now;
        }
      } else if state == Waiting {
        led := Pulse(ns);
        if dx != 0 || dy != 0 {
          state := Unwired;
        } else if now - timer > ARMING_DELAY {
          state := Joystick;
        }
      } else {
        led := Green;
        DriveMouse(dx, dy);
      }
    }
  }
}
