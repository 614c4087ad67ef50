/**
 * The five-state controller of the start-up program: a mouse, armed like
 * the other controllers, whose joystick button held for more than a second
 * hands the board over to the user's program (USERCODE) for good.
 */
module UserCodeCenter {
  import opened Common
  import opened Hid
  import opened Buttons
  import opened Indicator
  import opened JoystickAxis
  import MouseHandler

  datatype State = Unwired | Waiting | Joystick | JWaiting | UserCode

  const ARMING_DELAY: real := 0.5

  const HOLD_DELAY: real := 1.0

  /** The joystick button and the DPad. */
  datatype Controls = Controls(joyZ: Debounced, dpad: Dpad)

  datatype Machine = Machine(state: State, timer: real, pacing: MouseHandler.Pacing, controls: Controls, hid: Hid)

  datatype Tick = Tick(z: bool, dpad: DpadLevels, dx: int, dy: int, now: real, ns: nat)

  function Initial(now: real): (m: Machine)
    ensures m.state == Unwired && m.hid == Idle
  {
    Machine(Unwired, now, MouseHandler.Pacing(now, now), Controls(Released, IdleDpad), Idle)
  }

  /** The if/elif chain on the state, after the debouncers were updated. USERCODE hands off and never returns. */
  function Transition(m: Machine, dx: int, dy: int, now: real): (r: Machine)
    ensures r.pacing == m.pacing && r.controls == m.controls
  {
    match m.state
    case Unwired =>
      if dx == 0 && dy == 0 then m.(state := Waiting, timer := now) else m
    case Waiting =>
      if dx != 0 || dy != 0 then m.(state := Unwired)
      else if now - m.timer > ARMING_DELAY then m.(state := Joystick)
      else m
    case Joystick =>
      if m.controls.joyZ.Pressed() then m.(timer := now, state := JWaiting) else m
    case JWaiting =>
      if !m.controls.joyZ.Pressed() then m.(state := Joystick)
      else if now - m.timer > HOLD_DELAY then
        m.(state := UserCode, hid := m.hid.ReleaseButton(LeftButton).ReleaseButton(RightButton))
      else m
    case UserCode => m
  }

  /** The mouse handler, in JOYSTICK and JWAITING only. */
  function Handlers(m: Machine, dx: int, dy: int, now: real): (r: Machine)
    ensures r.state == m.state && r.timer == m.timer && r.controls == m.controls
  {
    if m.state == Joystick || m.state == JWaiting then
      var p := MouseHandler.Handle(m.pacing, m.hid, m.controls.dpad, dx, dy, now);
      m.(pacing := p.0, hid := p.1)
    else m
  }

  function UpdateButtons(c: Controls, t: Tick): Controls {
    Controls(c.joyZ.Update(t.z), c.dpad.Update(t.dpad))
  }

  /** `process()`: the debouncers, the state machine, then the mouse handler of the new state. */
  function Step(m: Machine, t: Tick): (r: Machine)
    ensures r.controls == UpdateButtons(m.controls, t)
  {
    Handlers(Transition(m.(controls := UpdateButtons(m.controls, t)), t.dx, t.dy, t.now), t.dx, t.dy, t.now)
  }

  /** The LED write of a tick in state `s`: none in JWAITING, black on the hand-off. */
  function Led(s: State, ns: nat): (c: Option<Rgb>)
    ensures c.Some? ==> IsColor(c.value)
    ensures c.None? <==> s == JWaiting
    ensures s == UserCode ==> c == Some(Black)
  {
    match s
    case Unwired => Some(Pulse(ns))
    case Waiting => Some(Pulse(ns))
    case Joystick => Some(Green)
    case JWaiting => None
    case UserCode => Some(Black)
  }

  function Run(m: Machine, ticks: seq<Tick>): Machine
    decreases |ticks|
  {
    if ticks == [] then m else Step(Run(m, ticks[..|ticks| - 1]), ticks[|ticks| - 1])
  }

  // ---------------------------------------------------------------------
  // Properties

  /** UNWIRED moves to WAITING exactly when both readings are zero, resetting the timer, and sends nothing. */
  lemma UnwiredArms(m: Machine, t: Tick)
    requires m.state == Unwired
    ensures var r := Step(m, t);
      (r.state == Waiting <==> t.dx == 0 && t.dy == 0)
      && (r.state != Waiting ==> r.state == Unwired && r.timer == m.timer)
      && (r.state == Waiting ==> r.timer == t.now)
      && r.hid == m.hid
  {
  }

  /** WAITING falls back on any movement and arms only more than 0.5 s after the stick came to rest. */
  lemma WaitingArms(m: Machine, t: Tick)
    requires m.state == Waiting
    ensures var r := Step(m, t);
      (t.dx != 0 || t.dy != 0 ==> r.state == Unwired && r.hid == m.hid)
      && (t.dx == 0 && t.dy == 0 && t.now - m.timer <= ARMING_DELAY ==> r.state == Waiting && r.hid == m.hid)
      && (t.dx == 0 && t.dy == 0 && t.now - m.timer > ARMING_DELAY ==> r.state == Joystick)
      && r.timer == m.timer
  {
  }
  /** The arming facts one tick contributes: only UNWIRED and WAITING lead to UNWIRED or WAITING. */
  lemma ArmingStep(m: Machine, t: Tick, r: Machine)
    requires r == Step(m, t)
    ensures m.state == Unwired ==> (r.state == Unwired || (r.state == Waiting && r.timer == t.now && t.dx == 0 && t.dy == 0))
    ensures m.state == Waiting ==>
      (r.state == Unwired || (r.state == Waiting && r.timer == m.timer && t.dx == 0 && t.dy == 0)
       || (r.state == Joystick && t.dx == 0 && t.dy == 0 && t.now - m.timer > ARMING_DELAY))
    ensures m.state != Unwired && m.state != Waiting ==> r.state != Unwired && r.state != Waiting
  {
  }

  /** The stick rested on every tick from i to j. */
  predicate Rested(ticks: seq<Tick>, i: int, j: int) {
    0 <= i && j < |ticks| && forall k :: i <= k <= j ==> ticks[k].dx == 0 && ticks[k].dy == 0
  }

  lemma RestedPrefix(ticks: seq<Tick>, n: nat, i: int, j: int)
    requires n <= |ticks| && Rested(ticks[..n], i, j)
    ensures Rested(ticks, i, j)
  {
    forall k | i <= k <= j
      ensures ticks[k].dx == 0 && ticks[k].dy == 0
    {
      assert ticks[..n][k] == ticks[k];
    }
  }

  /** A run from UNWIRED that ends in WAITING: the tick since which the stick rested, whose time the timer holds. */
  lemma {:induction false} RestingSince(m: Machine, ticks: seq<Tick>) returns (i: nat)
    requires m.state == Unwired
    requires Run(m, ticks).state == Waiting
    ensures i < |ticks| && Run(m, ticks).timer == ticks[i].now && Rested(ticks, i, |ticks| - 1)
    decreases |ticks|
  {
    var n := |ticks| - 1;
    var prev := Run(m, ticks[..n]);
    ArmingStep(prev, ticks[n], Run(m, ticks));
    if prev.state == Unwired {
      i := n;
    } else {
      i := RestingSince(m, ticks[..n]);
      assert ticks[..n][i] == ticks[i];
      RestedPrefix(ticks, n, i, n - 1);
    }
  }

  /** A run from UNWIRED that left UNWIRED/WAITING: the rest period that armed it. */
  lemma {:induction false} RestWitness(m: Machine, ticks: seq<Tick>) returns (i: nat, j: nat)
    requires m.state == Unwired
    requires Run(m, ticks).state != Unwired && Run(m, ticks).state != Waiting
    ensures i < j < |ticks| && ticks[j].now - ticks[i].now > ARMING_DELAY && Rested(ticks, i, j)
    decreases |ticks|
  {
    var n := |ticks| - 1;
    var prev := Run(m, ticks[..n]);
    ArmingStep(prev, ticks[n], Run(m, ticks));
    if prev.state == Waiting {
      i := RestingSince(m, ticks[..n]);
      j := n;
      assert ticks[..n][i] == ticks[i];
      RestedPrefix(ticks, n, i, n - 1);
    } else {
      i, j := RestWitness(m, ticks[..n]);
      assert ticks[..n][i] == ticks[i] && ticks[..n][j] == ticks[j];
      RestedPrefix(ticks, n, i, j);
    }
  }

  /**
   * The controller leaves UNWIRED/WAITING only after the stick rested (both
   * readings zero) on every tick from some tick i to some later tick j more
   * than 0.5 s after it.
   */
  lemma ArmingNeedsRest(m: Machine, ticks: seq<Tick>)
    requires m.state == Unwired
    requires Run(m, ticks).state != Unwired && Run(m, ticks).state != Waiting
    ensures exists i, j :: 0 <= i < j < |ticks| && ticks[j].now - ticks[i].now > ARMING_DELAY && Rested(ticks, i, j)
  {
    var i, j := RestWitness(m, ticks);
  }


  /**
   * JWAITING: back to JOYSTICK on release; held for more than 1 s, the left
   * and right mouse buttons are released and the controller enters USERCODE
   * without running the mouse handler again.
   */
  lemma JWaitingOutcome(m: Machine, t: Tick)
    requires m.state == JWaiting
    ensures var z := UpdateButtons(m.controls, t).joyZ.Pressed(); var r := Step(m, t);
      (!z ==> r.state == Joystick)
      && (z && t.now - m.timer <= HOLD_DELAY ==> r.state == JWaiting)
      && (z && t.now - m.timer > HOLD_DELAY ==>
            r.state == UserCode && r.pacing == m.pacing
            && r.hid.buttons == m.hid.buttons - {LeftButton, RightButton} && r.hid.keys == m.hid.keys
            && r.hid.log == m.hid.log + [ButtonRelease(LeftButton), ButtonRelease(RightButton)])
  {
  }

  /** USERCODE is terminal: nothing changes but the debouncers, and nothing is sent. */
  lemma UserCodeIsTerminal(m: Machine, t: Tick)
    requires m.state == UserCode
    ensures Step(m, t) == m.(controls := UpdateButtons(m.controls, t))
  {
  }

  /** Once in USERCODE, every later tick stays there and sends nothing. */
  lemma {:induction false} UserCodeForever(m: Machine, ticks: seq<Tick>)
    requires m.state == UserCode
    ensures Run(m, ticks).state == UserCode && Run(m, ticks).hid == m.hid && Run(m, ticks).pacing == m.pacing
    decreases |ticks|
  {
    if ticks != [] {
      UserCodeForever(m, ticks[..|ticks| - 1]);
      UserCodeIsTerminal(Run(m, ticks[..|ticks| - 1]), ticks[|ticks| - 1]);
    }
  }

  /**
   * The mouse is driven only in JOYSTICK and JWAITING: in any other state
   * after the tick nothing was sent, except the two button releases of the
   * hand-off itself.
   */
  lemma MouseOnlyInJoystickStates(m: Machine, t: Tick)
    ensures var r := Step(m, t);
      (r.state == Unwired || r.state == Waiting ==> r.hid == m.hid)
      && (r.state == UserCode ==>
            r.hid == m.hid || (m.state == JWaiting && r.hid == m.hid.ReleaseButton(LeftButton).ReleaseButton(RightButton)))
      && (r.state == Joystick || r.state == JWaiting ==>
            Extends(r.hid, m.hid)
            && Sent(m.hid, r.hid) == MouseHandler.MotionReports(m.pacing, r.controls.dpad, t.dx, t.dy, t.now)
                                     + MouseHandler.ButtonReports(r.controls.dpad))
  {
    var c := UpdateButtons(m.controls, t);
    var m1 := Transition(m.(controls := c), t.dx, t.dy, t.now);
    if m1.state == Joystick || m1.state == JWaiting {
      assert m1.hid == m.hid;
    }
  }

  // ---------------------------------------------------------------------
  // The object

  class UserCodeCommandCenter {
    const xAxis: Axis
    const yAxis: Axis
    var joyZ: Debounced
    var dpad: Dpad
    /** The mouse. */
    var hid: Hid
    var state: State
    var timer: real
    var lastMouseWheel: real
    var lastMouse: real

    predicate Valid()
    {
      SafeConfig(xAxis) && SafeConfig(yAxis)
    }

    function Snapshot(): Machine
      reads this
    {
      Machine(state, timer, MouseHandler.Pacing(lastMouse, lastMouseWheel), Controls(joyZ, dpad), hid)
    }

    constructor(now: real, outputScale: real, deadbandCutoff: real, weight: real)
      requires SafeConfig(NewAxis(outputScale, deadbandCutoff, weight))
      ensures Valid()
      ensures xAxis == NewAxis(outputScale, deadbandCutoff, weight) && yAxis == xAxis
      ensures Snapshot() == Initial(now)
    {
      xAxis := NewAxis(outputScale, deadbandCutoff, weight);
      yAxis := NewAxis(outputScale, deadbandCutoff, weight);
      joyZ := Released;
      dpad := IdleDpad;
      hid := Idle;
      state := Unwired;
      timer := now;
      lastMouseWheel := now;
      lastMouse := now;
    }

    /** The state machine, with its LED write. */
    method StateMachine(dx: int, dy: int, now: real, ns: nat) returns (led: Option<Rgb>)
      modifies this
      ensures Snapshot() == Transition(old(Snapshot()), dx, dy, now)
      ensures led == Led(old(state), ns)
    {
      led := None;
      if state == Unwired {
        led := Some(Pulse(ns));
        if dx == 0 && dy == 0 {
          state := Waiting;
          timer := now;
        }
      } else if state == Waiting {
        led := Some(Pulse(ns));
        if dx != 0 || dy != 0 {
          state := Unwired;
        } else if now - timer > ARMING_DELAY {
          state := Joystick;
        }
      } else if state == Joystick {
        led := Some(Green);
        if joyZ.Pressed() {
          timer := now;
          state := JWaiting;
        }
      } else if state == JWaiting {
        if !joyZ.Pressed() {
          state := Joystick;
        } else if now - timer > HOLD_DELAY {
          hid := hid.ReleaseButton(LeftButton);
          hid := hid.ReleaseButton(RightButton);
          state := UserCode;
        }
      } else {
        led := Some(Black);
      }
    }

    /** The paced pointer report, then the paced wheel report. */
    method Motion(dx: int, dy: int, now: real)
      modifies this
      ensures var r := MouseHandler.Motion(old(Snapshot()).pacing, old(hid), dpad, dx, dy, now);
        Snapshot() == old(Snapshot()).(pacing := r.0, hid := r.1)
    {
      var dwheel := 0;
      if dpad.up.Pressed() {
        dwheel := -1;
      } else if dpad.down.Pressed() {
        dwheel := 1;
      }
      if now - lastMouse > MouseHandler.MOVE_INTERVAL {
        lastMouse := now;
        hid := hid.MoveMouse(dx, dy, 0);
      }
      if now - lastMouseWheel > MouseHandler.WHEEL_INTERVAL {
        lastMouseWheel := now;
        hid := hid.MoveMouse(0, 0, dwheel);
      }
    }

    /** The mouse handler of JOYSTICK and JWAITING. */
    method RunHandlers(dx: int, dy: int, now: real)
      modifies this
      ensures Snapshot() == Handlers(old(Snapshot()), dx, dy, now)
    {
      if state == Joystick || state == JWaiting {
        Motion(dx, dy, now);
        hid := hid.ButtonOnEdges(dpad.left.PressedEvent(), dpad.left.ReleasedEvent(), LeftButton);
        hid := hid.ButtonOnEdges(dpad.right.PressedEvent(), dpad.right.ReleasedEvent(), RightButton);
      }
    }

    /** `process()`; the result is this pass's LED write, if any. */
    method Process(z: bool, dpadLevels: DpadLevels, rawX: int, rawY: int, now: real, ns: nat)
      returns (led: Option<Rgb>)
      requires Valid() && 0 <= rawX <= 65535 && 0 <= rawY <= 65535
      modifies this
      ensures Valid()
      ensures Snapshot() == Step(old(Snapshot()),
        Tick(z, dpadLevels, ReadJoystickAxis(xAxis, rawX), ReadJoystickAxis(yAxis, rawY), now, ns))
      ensures led == Led(old(state), ns)
    {
      joyZ := joyZ.Update(z);
      dpad := dpad.Update(dpadLevels);
      var dx := ReadJoystickAxis(xAxis, rawX);
      var dy := ReadJoystickAxis(yAxis, rawY);
      led := StateMachine(dx, dy, now, ns);
      RunHandlers(dx, dy, now);
    }
  }
}
