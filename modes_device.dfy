/**
 * The nine-state controller as the object the firmware keeps: its fields
 * are updated in place by `Process`, one call per pass of the main loop.
 *
 * Every method is proved against the step function of `CommandCenterModes`:
 * the snapshot of the fields after the call is that function of the
 * snapshot before it, so every property proved there holds of the object.
 */
module CommandCenterModesDevice {
  import opened Common
  import opened Hid
  import opened Buttons
  import opened Indicator
  import opened JoystickAxis
  import MouseHandler
  import opened CommandCenterModes

  class PiperCommandCenter {
    const xAxis: Axis
    const yAxis: Axis
    var joyZ: Debounced
    var dpad: Dpad
    var minecraftButtons: AuxButtons
    /** The keyboard and the mouse. */
    var hid: Hid
    var state: State
    var timer: real
    var lastMouseWheel: real
    var lastMouse: real
    var upPressed: bool
    var downPressed: bool
    var leftPressed: bool
    var rightPressed: bool
    var mcMode: McMode
    var mcFlyingDownReq: bool
    var mcSprintingReq: bool
    var mcCrouchingReq: bool
    var mcUtilityReq: bool

    /** Both axes can be read without a division by zero. */
    predicate Valid()
    {
      SafeConfig(xAxis) && SafeConfig(yAxis)
    }

    /** The fields as a value of the step function's state. */
    function Snapshot(): Machine
      reads this
    {
      Machine(state, timer, MouseHandler.Pacing(lastMouse, lastMouseWheel),
              Latches(upPressed, downPressed, leftPressed, rightPressed),
              McState(mcMode, mcFlyingDownReq, mcSprintingReq, mcCrouchingReq, mcUtilityReq),
              Controls(joyZ, dpad, minecraftButtons), hid)
    }

    /** `__init__` at time `now`; a pin of `None` leaves that auxiliary button absent. */
    constructor(now: real, topWired: bool, middleWired: bool, bottomWired: bool,
                outputScale: real, deadbandCutoff: real, weight: real)
      requires SafeConfig(NewAxis(outputScale, deadbandCutoff, weight))
      ensures Valid()
      ensures xAxis == NewAxis(outputScale, deadbandCutoff, weight) && yAxis == xAxis
      ensures Snapshot() == Initial(now, topWired, middleWired, bottomWired)
    {
      xAxis := NewAxis(outputScale, deadbandCutoff, weight);
      yAxis := NewAxis(outputScale, deadbandCutoff, weight);
      joyZ := Released;
      dpad := IdleDpad;
      minecraftButtons := NewAuxButtons(topWired, middleWired, bottomWired);
      hid := Idle;
      state := Unwired;
      timer := now;
      lastMouseWheel := now;
      lastMouse := now;
      upPressed := false;
      downPressed := false;
      leftPressed := false;
      rightPressed := false;
      mcMode := McDefault;
      mcFlyingDownReq := false;
      mcSprintingReq := false;
      mcCrouchingReq := false;
      mcUtilityReq := false;
    }

    method ReleaseJoystickHid()
      modifies this
      ensures Snapshot() == old(Snapshot()).(hid := CommandCenterModes.ReleaseJoystickHid(old(hid)))
    {
      hid := hid.ReleaseButton(LeftButton);
      hid := hid.ReleaseButton(RightButton);
    }

    method ReleaseKeyboardHid()
      modifies this
      ensures Snapshot() == old(Snapshot()).(hid := CommandCenterModes.ReleaseKeyboardHid(old(hid)))
    {
      hid := hid.ReleaseKey(UpArrow);
      hid := hid.ReleaseKey(DownArrow);
      hid := hid.ReleaseKey(LeftArrow);
      hid := hid.ReleaseKey(RightArrow);
      hid := hid.ReleaseKey(Space);
      hid := hid.ReleaseKey(X);
      hid := hid.ReleaseKey(Z);
      hid := hid.ReleaseKey(C);
    }

    method ReleaseMinecraftHid()
      modifies this
      ensures Snapshot() == old(Snapshot()).(hid := CommandCenterModes.ReleaseMinecraftHid(old(hid)))
    {
      hid := hid.ReleaseButton(LeftButton);
      hid := hid.ReleaseButton(MiddleButton);
      hid := hid.ReleaseButton(RightButton);
      hid := hid.ReleaseKey(A);
      hid := hid.ReleaseKey(Control);
      hid := hid.ReleaseKey(D);
      hid := hid.ReleaseKey(E);
      hid := hid.ReleaseKey(Escape);
      hid := hid.ReleaseKey(F5);
      hid := hid.ReleaseKey(LeftShift);
      hid := hid.ReleaseKey(Q);
      hid := hid.ReleaseKey(S);
      hid := hid.ReleaseKey(Space);
      hid := hid.ReleaseKey(W);
    }

    /** The four latch flags cleared when a keyboard change of mode is aborted. */
    method ClearLatches()
      modifies this
      ensures Snapshot() == old(Snapshot()).(latches := Unlatched)
    {
      upPressed := false;
      downPressed := false;
      leftPressed := false;
      rightPressed := false;
    }

    /** The state machine, with its LED write; the debouncers were already updated. */
    method StateMachine(dx: int, dy: int, now: real, ns: nat) returns (led: Option<Rgb>)
      modifies this
      ensures Snapshot() == Transition(old(Snapshot()), dx, dy, now)
      ensures led == Led(old(state), old(mcMode), ns)
    {
      led := None;
      if state == Unwired {
        led := Some(Pulse(ns));
        if dx == 0 && dy == 0 {
          state := Waiting;
          timer := now;
        }
      } else if state == Waiting {
        led := Some(Pulse(ns));
        if dx != 0 || dy != 0 {
          state := Unwired;
        } else if now - timer > ARMING_DELAY {
          state := Joystick;
        }
      } else if state == Joystick {
        led := Some(Green);
        if joyZ.Pressed() {
          timer := now;
          state := JWaiting;
        }
      } else if state == JWaiting {
        JWaitingStep(dx, dy, now);
      } else if state == Keyboard {
        led := Some(Blue);
        if joyZ.Pressed() && !minecraftButtons.bottom.Pressed() {
          timer := now;
          state := KWaitingToJ;
        } else if joyZ.Pressed() && minecraftButtons.bottom.Pressed() {
          timer := now;
          state := KWaitingToMc;
        }
      } else if state == KWaitingToJ || state == KWaitingToMc {
        KWaitingStep(dx, dy, now);
      } else if state == Minecraft {
        led := Some(McColor(mcMode));
        if joyZ.Pressed() && dpad.up.Pressed() && dpad.down.Pressed() && dpad.left.Pressed() && dpad.right.Pressed() {
          timer := now;
          state := MWaiting;
        }
      } else {
        MWaitingStep(dx, dy, now);
      }
    }

    /** JWAITING: back to JOYSTICK when the button is let go, on to KEYBOARD once it was held long enough. */
    method JWaitingStep(dx: int, dy: int, now: real)
      requires state == JWaiting
      modifies this
      ensures Snapshot() == Transition(old(Snapshot()), dx, dy, now)
    {
      if !joyZ.Pressed() {
        state := Joystick;
      } else if now - timer > HOLD_DELAY {
        state := Keyboard;
        ReleaseJoystickHid();
      }
    }

    /** KWAITING_TO_J and KWAITING_TO_MC: abort to KEYBOARD, or complete the change of mode. */
    method KWaitingStep(dx: int, dy: int, now: real)
      requires state == KWaitingToJ || state == KWaitingToMc
      modifies this
      ensures Snapshot() == Transition(old(Snapshot()), dx, dy, now)
    {
      if state == KWaitingToJ {
        if !joyZ.Pressed() || minecraftButtons.bottom.Pressed() {
          state := Keyboard;
          ClearLatches();
        } else if now - timer > HOLD_DELAY {
          state := Joystick;
          ReleaseKeyboardHid();
        }
      } else {
        if !joyZ.Pressed() || !minecraftButtons.bottom.Pressed() {
          state := Keyboard;
          ClearLatches();
        } else if now - timer > HOLD_DELAY {
          state := Minecraft;
          ReleaseKeyboardHid();
        }
      }
    }

    /** MWAITING: back to MINECRAFT when any of the five buttons is let go, to JOYSTICK once they were held long enough. */
    method MWaitingStep(dx: int, dy: int, now: real)
      requires state == MWaiting
      modifies this
      ensures Snapshot() == Transition(old(Snapshot()), dx, dy, now)
    {
      if !joyZ.Pressed() || !dpad.up.Pressed() || !dpad.down.Pressed() || !dpad.left.Pressed() || !dpad.right.Pressed() {
        state := Minecraft;
      } else if now - timer > HOLD_DELAY {
        state := Joystick;
        ReleaseMinecraftHid();
      }
    }

    /** The mouse handler of JOYSTICK and JWAITING. */
    method JoystickHandling(dx: int, dy: int, now: real)
      modifies this
      ensures Snapshot() == CommandCenterModes.JoystickHandling(old(Snapshot()), dx, dy, now)
    {
      Motion(dx, dy, now);
      hid := hid.ButtonOnEdges(dpad.left.PressedEvent(), dpad.left.ReleasedEvent(), LeftButton);
      hid := hid.ButtonOnEdges(dpad.right.PressedEvent(), dpad.right.ReleasedEvent(), RightButton);
    }

    /** The paced pointer report, then the paced wheel report. */
    method Motion(dx: int, dy: int, now: real)
      modifies this
      ensures var r := MouseHandler.Motion(old(Snapshot()).pacing, old(hid), dpad, dx, dy, now);
        Snapshot() == old(Snapshot()).(pacing := r.0, hid := r.1)
    {
      var dwheel := 0;
      if dpad.up.Pressed() {
        dwheel := -1;
      } else if dpad.down.Pressed() {
        dwheel := 1;
      }
      if now - lastMouse > MouseHandler.MOVE_INTERVAL {
        lastMouse := now;
        hid := hid.MoveMouse(dx, dy, 0);
      }
      if now - lastMouseWheel > MouseHandler.WHEEL_INTERVAL {
        lastMouseWheel := now;
        hid := hid.MoveMouse(0, 0, dwheel);
      }
    }

    /** The DPad as the SPACE, X, Z and C keys. */
    method DpadKeys()
      modifies this
      ensures Snapshot() == old(Snapshot()).(hid := DpadOnEdges(old(hid), dpad, Space, X, Z, C))
    {
      hid := hid.KeyOnEdges(dpad.up.PressedEvent(), dpad.up.ReleasedEvent(), Space);
      hid := hid.KeyOnEdges(dpad.down.PressedEvent(), dpad.down.ReleasedEvent(), X);
      hid := hid.KeyOnEdges(dpad.left.PressedEvent(), dpad.left.ReleasedEvent(), Z);
      hid := hid.KeyOnEdges(dpad.right.PressedEvent(), dpad.right.ReleasedEvent(), C);
    }

    /** The left/right arrow latch on the x reading. */
    method HorizontalArrows(dx: int)
      modifies this
      ensures var x := ArrowLatch(old(leftPressed), old(rightPressed), dx, LeftArrow, RightArrow, old(hid));
        Snapshot() == old(Snapshot()).(latches := old(Snapshot()).latches.(left := x.neg, right := x.pos), hid := x.hid)
    {
      if dx == 0 {
        LatchLeft(false);
        LatchRight(false);
      } else if dx > 0 {
        LatchLeft(false);
        LatchRight(true);
      } else {
        LatchLeft(true);
        LatchRight(false);
      }
    }

    /** The up/down arrow latch on the y reading (negative is up). */
    method VerticalArrows(dy: int)
      modifies this
      ensures var y := ArrowLatch(old(upPressed), old(downPressed), dy, UpArrow, DownArrow, old(hid));
        Snapshot() == old(Snapshot()).(latches := old(Snapshot()).latches.(up := y.neg, down := y.pos), hid := y.hid)
    {
      if dy == 0 {
        LatchUp(false);
        LatchDown(false);
      } else if dy < 0 {
        LatchUp(true);
        LatchDown(false);
      } else {
        LatchUp(false);
        LatchDown(true);
      }
    }

    /** Set or clear the left latch, pressing or releasing LEFT_ARROW when the flag changes. */
    method LatchLeft(v: bool)
      modifies this
      ensures Snapshot() == old(Snapshot()).(latches := old(Snapshot()).latches.(left := v), hid := Latch(old(leftPressed), v, LeftArrow, old(hid)))
    {
      if leftPressed != v {
        leftPressed := v;
        hid := if v then hid.PressKey(LeftArrow) else hid.ReleaseKey(LeftArrow);
      }
    }

    method LatchRight(v: bool)
      modifies this
      ensures Snapshot() == old(Snapshot()).(latches := old(Snapshot()).latches.(right := v), hid := Latch(old(rightPressed), v, RightArrow, old(hid)))
    {
      if rightPressed != v {
        rightPressed := v;
        hid := if v then hid.PressKey(RightArrow) else hid.ReleaseKey(RightArrow);
      }
    }

    method LatchUp(v: bool)
      modifies this
      ensures Snapshot() == old(Snapshot()).(latches := old(Snapshot()).latches.(up := v), hid := Latch(old(upPressed), v, UpArrow, old(hid)))
    {
      if upPressed != v {
        upPressed := v;
        hid := if v then hid.PressKey(UpArrow) else hid.ReleaseKey(UpArrow);
      }
    }

    method LatchDown(v: bool)
      modifies this
      ensures Snapshot() == old(Snapshot()).(latches := old(Snapshot()).latches.(down := v), hid := Latch(old(downPressed), v, DownArrow, old(hid)))
    {
      if downPressed != v {
        downPressed := v;
        hid := if v then hid.PressKey(DownArrow) else hid.ReleaseKey(DownArrow);
      }
    }

    /** Both arrow latches. */
    method ArrowKeys(dx: int, dy: int)
      modifies this
      ensures var a := CommandCenterModes.ArrowKeys(old(Snapshot()).latches, dx, dy, old(hid));
        Snapshot() == old(Snapshot()).(latches := a.0, hid := a.1)
    {
      HorizontalArrows(dx);
      VerticalArrows(dy);
    }

    /** The keyboard handler of KEYBOARD, KWAITING_TO_J and KWAITING_TO_MC. */
    method KeyboardHandling(dx: int, dy: int)
      modifies this
      ensures Snapshot() == CommandCenterModes.KeyboardHandling(old(Snapshot()), dx, dy)
    {
      DpadKeys();
      ArrowKeys(dx, dy);
    }

    /** A request for a new sub-mode while the modifier is held. */
    method RequestMode()
      modifies this
      ensures Snapshot() == old(Snapshot()).(minecraft := Request(old(Snapshot()).minecraft, old(Snapshot()).controls))
    {
      if joyZ.PressedEvent() {
        mcFlyingDownReq, mcSprintingReq, mcCrouchingReq, mcUtilityReq := true, false, false, false;
      } else if dpad.up.PressedEvent() {
        mcFlyingDownReq, mcSprintingReq, mcCrouchingReq, mcUtilityReq := false, true, false, false;
      } else if dpad.down.PressedEvent() {
        mcFlyingDownReq, mcSprintingReq, mcCrouchingReq, mcUtilityReq := false, false, true, false;
      } else if dpad.left.PressedEvent() {
        mcFlyingDownReq, mcSprintingReq, mcCrouchingReq, mcUtilityReq := false, false, false, true;
      }
    }

    /** The commit on the modifier's release edge. */
    method CommitMode()
      modifies this
      ensures var r := Commit(old(Snapshot()).minecraft, old(hid));
        Snapshot() == old(Snapshot()).(minecraft := r.0, hid := r.1)
    {
      if mcFlyingDownReq {
        mcMode := McFlyingDown;
        mcFlyingDownReq := false;
      } else if mcSprintingReq {
        mcMode := McSprinting;
        mcSprintingReq := false;
        hid := hid.PressKey(Control);
      } else {
        CommitOther();
      }
    }

    /** The commit when neither flying down nor sprinting is requested. */
    method CommitOther()
      requires !mcFlyingDownReq && !mcSprintingReq
      modifies this
      ensures var r := Commit(old(Snapshot()).minecraft, old(hid));
        Snapshot() == old(Snapshot()).(minecraft := r.0, hid := r.1)
    {
      if mcCrouchingReq {
        mcMode := McCrouching;
        mcCrouchingReq := false;
        hid := hid.PressKey(LeftShift);
      } else if mcUtilityReq {
        mcMode := McUtility;
        mcUtilityReq := false;
      } else {
        mcMode := McDefault;
      }
    }

    /** The joystick's mouse move, at most once per move interval. */
    method PacedMove(dx: int, dy: int, now: real)
      modifies this
      ensures var r := CommandCenterModes.PacedMove(old(Snapshot()).pacing, old(hid), dx, dy, now);
        Snapshot() == old(Snapshot()).(pacing := r.0, hid := r.1)
    {
      if now - lastMouse > MouseHandler.MOVE_INTERVAL {
        lastMouse := now;
        hid := hid.MoveMouse(dx, dy, 0);
      }
    }

    /** The modifier (bottom) button. */
    method ModifierHandling()
      modifies this
      ensures var r := CommandCenterModes.ModifierHandling(old(Snapshot()).minecraft, old(Snapshot()).controls, old(hid));
        Snapshot() == old(Snapshot()).(minecraft := r.0, hid := r.1)
    {
      if minecraftButtons.bottom.Pressed() {
        RequestMode();
      }
      if minecraftButtons.bottom.ReleasedEvent() {
        ReleaseMinecraftHid();
        CommitMode();
      }
    }

    /** The top and middle auxiliary buttons. */
    method AuxHandling()
      modifies this
      ensures Snapshot() == old(Snapshot()).(hid := CommandCenterModes.AuxHandling(old(hid), mcMode, minecraftButtons))
    {
      if mcMode == McDefault && minecraftButtons.bottom.Pressed() {
        hid := hid.KeyOnEdges(minecraftButtons.top.PressedEvent(), minecraftButtons.top.ReleasedEvent(), Q);
        hid := hid.ButtonOnEdges(minecraftButtons.middle.PressedEvent(), minecraftButtons.middle.ReleasedEvent(), MiddleButton);
      } else {
        hid := hid.ButtonOnEdges(minecraftButtons.top.PressedEvent(), minecraftButtons.top.ReleasedEvent(), LeftButton);
        hid := hid.ButtonOnEdges(minecraftButtons.middle.PressedEvent(), minecraftButtons.middle.ReleasedEvent(), RightButton);
      }
    }

    /** The joystick button and the DPad while the modifier is up. */
    method MoveHandling()
      modifies this
      ensures Snapshot() == old(Snapshot()).(hid := CommandCenterModes.MoveHandling(old(hid), mcMode, joyZ, dpad))
    {
      hid := hid.KeyOnEdges(joyZ.PressedEvent(), joyZ.ReleasedEvent(), MC_JOYSTICK_Z[McIndex(mcMode)]);
      if mcMode == McUtility {
        if dpad.up.PressedEvent() {
          hid := hid.MoveMouse(0, 0, -1);
        }
        if dpad.down.PressedEvent() {
          hid := hid.MoveMouse(0, 0, 1);
        }
        hid := hid.KeyOnEdges(dpad.left.PressedEvent(), dpad.left.ReleasedEvent(), E);
        hid := hid.KeyOnEdges(dpad.right.PressedEvent(), dpad.right.ReleasedEvent(), Escape);
      } else {
        hid := hid.KeyOnEdges(dpad.up.PressedEvent(), dpad.up.ReleasedEvent(), W);
        hid := hid.KeyOnEdges(dpad.down.PressedEvent(), dpad.down.ReleasedEvent(), S);
        hid := hid.KeyOnEdges(dpad.left.PressedEvent(), dpad.left.ReleasedEvent(), A);
        hid := hid.KeyOnEdges(dpad.right.PressedEvent(), dpad.right.ReleasedEvent(), D);
      }
    }

    /** The Minecraft handler of MINECRAFT. */
    method MinecraftHandling(dx: int, dy: int, now: real)
      modifies this
      ensures Snapshot() == CommandCenterModes.MinecraftHandling(old(Snapshot()), dx, dy, now)
    {
      ModifierHandling();
      PacedMove(dx, dy, now);
      AuxHandling();
      if !minecraftButtons.bottom.Pressed() {
        MoveHandling();
      }
    }

    /**
     * `process()`: update the debouncers, read both axes, run the state
     * machine, then the handler of the state it is now in. The result is
     * the LED write of this pass, if any.
     */
    method Process(z: bool, dpadLevels: DpadLevels, auxLevels: AuxLevels, rawX: int, rawY: int, now: real, ns: nat)
      returns (led: Option<Rgb>)
      requires Valid() && 0 <= rawX <= 65535 && 0 <= rawY <= 65535
      modifies this
      ensures Valid()
      ensures Snapshot() == Step(old(Snapshot()),
        Tick(z, dpadLevels, auxLevels, ReadJoystickAxis(xAxis, rawX), ReadJoystickAxis(yAxis, rawY), now, ns))
      ensures led == Led(old(state), old(mcMode), ns)
    {
      var dx := ReadJoystickAxis(xAxis, rawX);
      var dy := ReadJoystickAxis(yAxis, rawY);
      ghost var t := Tick(z, dpadLevels, auxLevels, dx, dy, now, ns);
      UpdateDebouncers(z, dpadLevels, auxLevels);
      assert Snapshot() == old(Snapshot()).(controls := UpdateButtons(old(Snapshot()).controls, t));
      led := StateMachine(dx, dy, now, ns);
      RunHandlers(dx, dy, now);
    }

    /** The `update()` of every debouncer. */
    method UpdateDebouncers(z: bool, dpadLevels: DpadLevels, auxLevels: AuxLevels)
      modifies this
      ensures Snapshot() == old(Snapshot()).(controls := Controls(old(joyZ).Update(z), old(dpad).Update(dpadLevels), old(minecraftButtons).Update(auxLevels)))
    {
      joyZ := joyZ.Update(z);
      dpad := dpad.Update(dpadLevels);
      minecraftButtons := minecraftButtons.Update(auxLevels);
    }

    /** The handler of the state the machine is now in. */
    method RunHandlers(dx: int, dy: int, now: real)
      modifies this
      ensures Snapshot() == Handlers(old(Snapshot()), dx, dy, now)
    {
      if state == Joystick || state == JWaiting {
        JoystickHandling(dx, dy, now);
      } else if state == Keyboard || state == KWaitingToJ || state == KWaitingToMc {
        KeyboardHandling(dx, dy);
      } else if state == Minecraft {
        MinecraftHandling(dx, dy, now);
      }
    }
  }
}
