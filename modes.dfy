/**
 * The nine-state Piper Command Center controller (mouse, keyboard and
 * Minecraft modes), as one pure step function over a snapshot of the
 * controller's state.
 *
 * A tick first updates the z, DPad and auxiliary debouncers, then reads both
 * axes, then runs the state machine, and only then runs the handler of the
 * state the machine is now in.
 */
module CommandCenterModes {
  import opened Common
  import opened Hid
  import opened Buttons
  import opened Indicator
  import MouseHandler

  datatype State =
    | Unwired | Waiting | Joystick | JWaiting | Keyboard
    | KWaitingToJ | KWaitingToMc | Minecraft | MWaiting

  /** The Minecraft sub-modes. */
  datatype McMode = McDefault | McFlyingDown | McSprinting | McCrouching | McUtility

  /** The stick must rest for more than this many seconds before the controller arms. */
  const ARMING_DELAY: real := 0.5

  /** The joystick button (with its companions) must be held longer than this to change mode. */
  const HOLD_DELAY: real := 1.0

  /** The key the joystick button sends in each sub-mode, indexed by the sub-mode's number. */
  const MC_JOYSTICK_Z: seq<Key> := [Space, LeftShift, Space, Space, F5]

  /** The sub-mode's number (`_MC_DEFAULT` ... `_MC_UTILITY`); always a valid index into `MC_JOYSTICK_Z`. */
  function McIndex(m: McMode): (i: nat)
    ensures i < |MC_JOYSTICK_Z|
  {
    match m
    case McDefault => 0
    case McFlyingDown => 1
    case McSprinting => 2
    case McCrouching => 3
    case McUtility => 4
  }

  function JoystickZKey(m: McMode): Key {
    MC_JOYSTICK_Z[McIndex(m)]
  }

  /** The arrow-key latch flags: the arrow key the keyboard handler last pressed for each direction. */
  datatype Latches = Latches(up: bool, down: bool, left: bool, right: bool)

  const Unlatched := Latches(false, false, false, false)

  /** The Minecraft sub-mode and the four pending requests for a new one. */
  datatype McState = McState(mode: McMode, flyingDownReq: bool, sprintingReq: bool, crouchingReq: bool, utilityReq: bool)

  /** The debounced buttons: the joystick button, the DPad and the three auxiliary buttons. */
  datatype Controls = Controls(joyZ: Debounced, dpad: Dpad, mc: AuxButtons)

  /** What the controller keeps between ticks. */
  datatype Machine = Machine(
    state: State,
    timer: real,
    pacing: MouseHandler.Pacing,
    latches: Latches,
    minecraft: McState,
    controls: Controls,
    hid: Hid)

  /** One tick's inputs: the debounced pin levels, the two axis readings and the clocks. */
  datatype Tick = Tick(z: bool, dpad: DpadLevels, mc: AuxLevels, dx: int, dy: int, now: real, ns: nat)

  /** The controller as the constructor leaves it at time `now`. */
  function Initial(now: real, topWired: bool, middleWired: bool, bottomWired: bool): (m: Machine)
    ensures m.state == Unwired && m.hid == Idle
  {
    Machine(Unwired, now, MouseHandler.Pacing(now, now), Unlatched,
            McState(McDefault, false, false, false, false),
            Controls(Released, IdleDpad, NewAuxButtons(topWired, middleWired, bottomWired)), Idle)
  }

  // ---------------------------------------------------------------------
  // Releasing everything a mode may hold

  const KEYBOARD_KEYS: set<Key> := {UpArrow, DownArrow, LeftArrow, RightArrow, Space, X, Z, C}

  const MINECRAFT_KEYS: set<Key> := {A, Control, D, E, Escape, F5, LeftShift, Q, S, Space, W}

  /** releaseJoystickHID. */
  function ReleaseJoystickHid(h: Hid): (g: Hid)
    ensures g.buttons == h.buttons - {LeftButton, RightButton} && g.keys == h.keys
    ensures g.log == h.log + [ButtonRelease(LeftButton), ButtonRelease(RightButton)]
  {
    h.ReleaseButton(LeftButton).ReleaseButton(RightButton)
  }

  /** releaseKeyboardHID. */
  function ReleaseKeyboardHid(h: Hid): (g: Hid)
    ensures g.keys == h.keys - KEYBOARD_KEYS && g.buttons == h.buttons
    ensures g.log == h.log + [KeyRelease(UpArrow), KeyRelease(DownArrow), KeyRelease(LeftArrow),
      KeyRelease(RightArrow), KeyRelease(Space), KeyRelease(X), KeyRelease(Z), KeyRelease(C)]
  {
    h.ReleaseKey(UpArrow).ReleaseKey(DownArrow).ReleaseKey(LeftArrow).ReleaseKey(RightArrow)
     .ReleaseKey(Space).ReleaseKey(X).ReleaseKey(Z).ReleaseKey(C)
  }

  /** releaseMinecraftHID: every mouse button and the eleven Minecraft keys. */
  function ReleaseMinecraftHid(h: Hid): (g: Hid)
    ensures g.keys == h.keys - MINECRAFT_KEYS && g.buttons == {}
    ensures g.log == h.log + [ButtonRelease(LeftButton), ButtonRelease(MiddleButton), ButtonRelease(RightButton),
      KeyRelease(A), KeyRelease(Control), KeyRelease(D), KeyRelease(E), KeyRelease(Escape), KeyRelease(F5),
      KeyRelease(LeftShift), KeyRelease(Q), KeyRelease(S), KeyRelease(Space), KeyRelease(W)]
  {
    var g := h.ReleaseButton(LeftButton).ReleaseButton(MiddleButton).ReleaseButton(RightButton)
      .ReleaseKey(A).ReleaseKey(Control).ReleaseKey(D).ReleaseKey(E).ReleaseKey(Escape)
      .ReleaseKey(F5).ReleaseKey(LeftShift).ReleaseKey(Q).ReleaseKey(S).ReleaseKey(Space).ReleaseKey(W);
    assert forall b: MouseButton :: b !in g.buttons by {
      forall b: MouseButton ensures b !in g.buttons {
        assert b == LeftButton || b == MiddleButton || b == RightButton;
      }
    }
    g
  }

  // ---------------------------------------------------------------------
  // The state machine

  /** The if/elif chain on the state, after the debouncers were updated. */
  function Transition(m: Machine, dx: int, dy: int, now: real): (r: Machine)
    ensures r.pacing == m.pacing && r.minecraft == m.minecraft && r.controls == m.controls
  {
    var z := m.controls.joyZ.Pressed();
    var bottom := m.controls.mc.bottom.Pressed();
    match m.state
    case Unwired =>
      if dx == 0 && dy == 0 then m.(state := Waiting, timer := now) else m
    case Waiting =>
      if dx != 0 || dy != 0 then m.(state := Unwired)
      else if now - m.timer > ARMING_DELAY then m.(state := Joystick)
      else m
    case Joystick =>
      if z then m.(timer := now, state := JWaiting) else m
    case JWaiting =>
      if !z then m.(state := Joystick)
      else if now - m.timer > HOLD_DELAY then m.(state := Keyboard, hid := ReleaseJoystickHid(m.hid))
      else m
    case Keyboard =>
      if z && !bottom then m.(timer := now, state := KWaitingToJ)
      else if z && bottom then m.(timer := now, state := KWaitingToMc)
      else m
    case KWaitingToJ =>
      if !z || bottom then m.(state := Keyboard, latches := Unlatched)
      else if now - m.timer > HOLD_DELAY then m.(state := Joystick, hid := ReleaseKeyboardHid(m.hid))
      else m
    case KWaitingToMc =>
      if !z || !bottom then m.(state := Keyboard, latches := Unlatched)
      else if now - m.timer > HOLD_DELAY then m.(state := Minecraft, hid := ReleaseKeyboardHid(m.hid))
      else m
    case Minecraft =>
      if z && m.controls.dpad.AllPressed() then m.(timer := now, state := MWaiting) else m
    case MWaiting =>
      if !(z && m.controls.dpad.AllPressed()) then m.(state := Minecraft)
      else if now - m.timer > HOLD_DELAY then m.(state := Joystick, hid := ReleaseMinecraftHid(m.hid))
      else m
  }

  // ---------------------------------------------------------------------
  // The handlers

  /** The mouse handler of JOYSTICK and JWAITING. */
  function JoystickHandling(m: Machine, dx: int, dy: int, now: real): (r: Machine)
    ensures r == m.(pacing := r.pacing, hid := r.hid)
  {
    var p := MouseHandler.Handle(m.pacing, m.hid, m.controls.dpad, dx, dy, now);
    m.(pacing := p.0, hid := p.1)
  }

  /** The latch flags of one stick axis after an arrow update, and the sink. */
  datatype Latched = Latched(neg: bool, pos: bool, hid: Hid)

  /** The reports of one arrow-key latch update, in the order the code sends them. */
  function LatchReports(neg: bool, pos: bool, d: int, negKey: Key, posKey: Key): seq<Event> {
    if d == 0 then
      (if neg then [KeyRelease(negKey)] else []) + (if pos then [KeyRelease(posKey)] else [])
    else if d > 0 then
      (if neg then [KeyRelease(negKey)] else []) + (if !pos then [KeyPress(posKey)] else [])
    else
      (if !neg then [KeyPress(negKey)] else []) + (if pos then [KeyRelease(posKey)] else [])
  }

  /**
   * The arrow-key latch of one axis: `negKey` is held while the reading is
   * negative, `posKey` while it is positive.
   */
  function ArrowLatch(neg: bool, pos: bool, d: int, negKey: Key, posKey: Key, h: Hid): (r: Latched)
    requires negKey != posKey
    ensures r.neg == (d < 0) && r.pos == (d > 0)
    ensures r.hid.buttons == h.buttons
    ensures forall k :: k != negKey && k != posKey ==> (k in r.hid.keys <==> k in h.keys)
    ensures negKey in r.hid.keys <==> (if neg == r.neg then negKey in h.keys else r.neg)
    ensures posKey in r.hid.keys <==> (if pos == r.pos then posKey in h.keys else r.pos)
    ensures r.hid.log == h.log + LatchReports(neg, pos, d, negKey, posKey)
  {
    Latched(d < 0, d > 0, Latch(pos, d > 0, posKey, Latch(neg, d < 0, negKey, h)))
  }

  /** One latch flag set to `v`: its key is pressed when the flag becomes set, released when it becomes clear, else nothing is sent. */
  function Latch(held: bool, v: bool, k: Key, h: Hid): (g: Hid)
    ensures g.buttons == h.buttons
  {
    if held == v then h else if v then h.PressKey(k) else h.ReleaseKey(k)
  }

  /**
   * A key is pressed only when its flag goes from clear to set and released
   * only when it goes from set to clear, so a steady reading sends nothing.
   */
  lemma LatchReportsOnChange(neg: bool, pos: bool, d: int, negKey: Key, posKey: Key)
    requires negKey != posKey
    ensures var e := LatchReports(neg, pos, d, negKey, posKey);
      (KeyPress(negKey) in e <==> !neg && d < 0)
      && (KeyRelease(negKey) in e <==> neg && d >= 0)
      && (KeyPress(posKey) in e <==> !pos && d > 0)
      && (KeyRelease(posKey) in e <==> pos && d <= 0)
      && |e| == (if neg != (d < 0) then 1 else 0) + (if pos != (d > 0) then 1 else 0)
      && forall ev :: ev in e ==> ev.KeyPress? || ev.KeyRelease?
  {
  }

  /** The four DPad buttons as four keys, in the order up, down, left, right. */
  function DpadOnEdges(h: Hid, dpad: Dpad, upKey: Key, downKey: Key, leftKey: Key, rightKey: Key): (g: Hid)
    ensures g.buttons == h.buttons
  {
    h.KeyOnEdges(dpad.up.PressedEvent(), dpad.up.ReleasedEvent(), upKey)
     .KeyOnEdges(dpad.down.PressedEvent(), dpad.down.ReleasedEvent(), downKey)
     .KeyOnEdges(dpad.left.PressedEvent(), dpad.left.ReleasedEvent(), leftKey)
     .KeyOnEdges(dpad.right.PressedEvent(), dpad.right.ReleasedEvent(), rightKey)
  }

  /** With four distinct keys, the up and down keys follow the up and down buttons' edges. */
  lemma DpadUpDown(h: Hid, dpad: Dpad, upKey: Key, downKey: Key, leftKey: Key, rightKey: Key)
    requires upKey != downKey && upKey != leftKey && upKey != rightKey
    requires downKey != leftKey && downKey != rightKey
    ensures var g := DpadOnEdges(h, dpad, upKey, downKey, leftKey, rightKey);
      (upKey in g.keys) == HeldAfter(upKey in h.keys, dpad.up.PressedEvent(), dpad.up.ReleasedEvent())
      && (downKey in g.keys) == HeldAfter(downKey in h.keys, dpad.down.PressedEvent(), dpad.down.ReleasedEvent())
  {
  }

  /** With distinct left and right keys, those keys follow the left and right buttons' edges. */
  lemma DpadLeftRight(h: Hid, dpad: Dpad, upKey: Key, downKey: Key, leftKey: Key, rightKey: Key)
    requires leftKey != rightKey
    ensures var g := DpadOnEdges(h, dpad, upKey, downKey, leftKey, rightKey);
      var h2 := h.KeyOnEdges(dpad.up.PressedEvent(), dpad.up.ReleasedEvent(), upKey)
                 .KeyOnEdges(dpad.down.PressedEvent(), dpad.down.ReleasedEvent(), downKey);
      (leftKey in g.keys) == HeldAfter(leftKey in h2.keys, dpad.left.PressedEvent(), dpad.left.ReleasedEvent())
      && (rightKey in g.keys) == HeldAfter(rightKey in h2.keys, dpad.right.PressedEvent(), dpad.right.ReleasedEvent())
  {
  }

  /** With four distinct keys, each key follows its own button's edges. */
  lemma DpadHeld(h: Hid, dpad: Dpad, upKey: Key, downKey: Key, leftKey: Key, rightKey: Key)
    requires upKey != downKey && upKey != leftKey && upKey != rightKey
    requires downKey != leftKey && downKey != rightKey && leftKey != rightKey
    ensures var g := DpadOnEdges(h, dpad, upKey, downKey, leftKey, rightKey);
      (upKey in g.keys) == HeldAfter(upKey in h.keys, dpad.up.PressedEvent(), dpad.up.ReleasedEvent())
      && (downKey in g.keys) == HeldAfter(downKey in h.keys, dpad.down.PressedEvent(), dpad.down.ReleasedEvent())
      && (leftKey in g.keys) == HeldAfter(leftKey in h.keys, dpad.left.PressedEvent(), dpad.left.ReleasedEvent())
      && (rightKey in g.keys) == HeldAfter(rightKey in h.keys, dpad.right.PressedEvent(), dpad.right.ReleasedEvent())
  {
    DpadUpDown(h, dpad, upKey, downKey, leftKey, rightKey);
    DpadLeftRight(h, dpad, upKey, downKey, leftKey, rightKey);
  }

  /** The DPad changes none of the other keys. */
  lemma DpadFrame(h: Hid, dpad: Dpad, upKey: Key, downKey: Key, leftKey: Key, rightKey: Key)
    ensures var g := DpadOnEdges(h, dpad, upKey, downKey, leftKey, rightKey);
      KeysAgreeOutside(g.keys, h.keys, {upKey, downKey, leftKey, rightKey})
  {
  }

  const ARROW_KEYS: set<Key> := {UpArrow, DownArrow, LeftArrow, RightArrow}

  /** The arrow-key latches of both axes: left/right on the x reading, then up/down on the y reading. */
  function ArrowKeys(l: Latches, dx: int, dy: int, h: Hid): (r: (Latches, Hid))
    ensures r.0 == Latches(dy < 0, dy > 0, dx < 0, dx > 0)
    ensures r.1.buttons == h.buttons
  {
    var x := ArrowLatch(l.left, l.right, dx, LeftArrow, RightArrow, h);
    var y := ArrowLatch(l.up, l.down, dy, UpArrow, DownArrow, x.hid);
    (Latches(y.neg, y.pos, x.neg, x.pos), y.hid)
  }

  /** The arrow latches change no key but the arrows. */
  lemma ArrowKeysFrame(l: Latches, dx: int, dy: int, h: Hid)
    ensures var r := ArrowKeys(l, dx, dy, h);
      forall k :: k !in ARROW_KEYS ==> (k in r.1.keys <==> k in h.keys)
  {
  }

  /**
   * An arrow key changes only when its latch flag changes: it is pressed
   * when the flag becomes set, released when it becomes clear, and left as
   * it was otherwise.
   */
  lemma ArrowKeysRule(l: Latches, dx: int, dy: int, h: Hid)
    ensures var r := ArrowKeys(l, dx, dy, h); ArrowsFollowLatches(l, h.keys, r.0, r.1.keys)
  {
    var x := ArrowLatch(l.left, l.right, dx, LeftArrow, RightArrow, h);
    var y := ArrowLatch(l.up, l.down, dy, UpArrow, DownArrow, x.hid);
    assert (LeftArrow in y.hid.keys <==> LeftArrow in x.hid.keys) && (RightArrow in y.hid.keys <==> RightArrow in x.hid.keys);
  }

  /** Each arrow key is as it was while its latch flag is unchanged, and held exactly when the flag is set where it changed. */
  predicate ArrowsFollowLatches(l: Latches, keys: set<Key>, l': Latches, keys': set<Key>) {
    (LeftArrow in keys' <==> if l.left == l'.left then LeftArrow in keys else l'.left)
    && (RightArrow in keys' <==> if l.right == l'.right then RightArrow in keys else l'.right)
    && (UpArrow in keys' <==> if l.up == l'.up then UpArrow in keys else l'.up)
    && (DownArrow in keys' <==> if l.down == l'.down then DownArrow in keys else l'.down)
  }

  /** The keyboard handler of KEYBOARD, KWAITING_TO_J and KWAITING_TO_MC: the DPad keys, then the arrows. */
  function KeyboardHandling(m: Machine, dx: int, dy: int): (r: Machine)
    ensures r == m.(latches := r.latches, hid := r.hid)
    ensures r.hid.buttons == m.hid.buttons
  {
    var a := ArrowKeys(m.latches, dx, dy, DpadOnEdges(m.hid, m.controls.dpad, Space, X, Z, C));
    m.(latches := a.0, hid := a.1)
  }

  /** The keyboard handler changes only the keyboard-mode keys. */
  lemma KeyboardFrame(m: Machine, dx: int, dy: int)
    ensures var r := KeyboardHandling(m, dx, dy);
      forall k :: k !in KEYBOARD_KEYS ==> (k in r.hid.keys <==> k in m.hid.keys)
  {
    var h1 := DpadOnEdges(m.hid, m.controls.dpad, Space, X, Z, C);
    ArrowKeysFrame(m.latches, dx, dy, h1);
  }

  /** With the bottom button held, the first press edge among z, up, down, left requests a sub-mode. */
  function Request(q: McState, c: Controls): (r: McState)
    ensures r.mode == q.mode
  {
    if c.joyZ.PressedEvent() then
      q.(flyingDownReq := true, sprintingReq := false, crouchingReq := false, utilityReq := false)
    else if c.dpad.up.PressedEvent() then
      q.(flyingDownReq := false, sprintingReq := true, crouchingReq := false, utilityReq := false)
    else if c.dpad.down.PressedEvent() then
      q.(flyingDownReq := false, sprintingReq := false, crouchingReq := true, utilityReq := false)
    else if c.dpad.left.PressedEvent() then
      q.(flyingDownReq := false, sprintingReq := false, crouchingReq := false, utilityReq := true)
    else q
  }

  /** On the bottom button's release edge, after everything is released: the first pending request becomes the sub-mode. */
  function Commit(q: McState, h: Hid): (r: (McState, Hid))
    ensures forall k :: k != Control && k != LeftShift ==> (k in r.1.keys <==> k in h.keys)
    ensures (Control in r.1.keys) == (Control in h.keys || r.0.mode == McSprinting)
    ensures r.1.buttons == h.buttons
  {
    if q.flyingDownReq then (q.(mode := McFlyingDown, flyingDownReq := false), h)
    else if q.sprintingReq then (q.(mode := McSprinting, sprintingReq := false), h.PressKey(Control))
    else if q.crouchingReq then (q.(mode := McCrouching, crouchingReq := false), h.PressKey(LeftShift))
    else if q.utilityReq then (q.(mode := McUtility, utilityReq := false), h)
    else (q.(mode := McDefault), h)
  }

  /** The top and middle auxiliary buttons: Q and the middle mouse button while the modifier is held in DEFAULT, else the left and right mouse buttons. */
  function AuxHandling(h: Hid, mode: McMode, mc: AuxButtons): (g: Hid)
    ensures KeysAgreeOutside(g.keys, h.keys, {Q})
  {
    if mode == McDefault && mc.bottom.Pressed() then
      h.KeyOnEdges(mc.top.PressedEvent(), mc.top.ReleasedEvent(), Q)
       .ButtonOnEdges(mc.middle.PressedEvent(), mc.middle.ReleasedEvent(), MiddleButton)
    else
      h.ButtonOnEdges(mc.top.PressedEvent(), mc.top.ReleasedEvent(), LeftButton)
       .ButtonOnEdges(mc.middle.PressedEvent(), mc.middle.ReleasedEvent(), RightButton)
  }

  /** The keys the DPad drives in a sub-mode. */
  function DpadMinecraftKeys(mode: McMode): set<Key> {
    if mode == McUtility then {E, Escape} else {W, S, A, D}
  }

  /** The DPad in UTILITY: the wheel on the up and down press edges, E and ESCAPE on the left and right buttons. */
  function UtilityDpad(h: Hid, dpad: Dpad): (g: Hid)
    ensures g.buttons == h.buttons
  {
    var h2 := if dpad.up.PressedEvent() then h.MoveMouse(0, 0, -1) else h;
    var h3 := if dpad.down.PressedEvent() then h2.MoveMouse(0, 0, 1) else h2;
    h3.KeyOnEdges(dpad.left.PressedEvent(), dpad.left.ReleasedEvent(), E)
      .KeyOnEdges(dpad.right.PressedEvent(), dpad.right.ReleasedEvent(), Escape)
  }

  /** The joystick button and the DPad while the modifier is not held. */
  function MoveHandling(h: Hid, mode: McMode, joyZ: Debounced, dpad: Dpad): (g: Hid)
    ensures g.buttons == h.buttons
  {
    var h1 := h.KeyOnEdges(joyZ.PressedEvent(), joyZ.ReleasedEvent(), JoystickZKey(mode));
    if mode == McUtility then UtilityDpad(h1, dpad) else DpadOnEdges(h1, dpad, W, S, A, D)
  }

  lemma UtilityFrame(h: Hid, dpad: Dpad)
    ensures var g := UtilityDpad(h, dpad); forall k :: k != E && k != Escape ==> (k in g.keys <==> k in h.keys)
  {
  }

  /** The joystick button and the DPad change only the sub-mode's button key and DPad keys. */
  lemma MoveFrame(h: Hid, mode: McMode, joyZ: Debounced, dpad: Dpad)
    ensures var g := MoveHandling(h, mode, joyZ, dpad);
      KeysAgreeOutside(g.keys, h.keys, {JoystickZKey(mode)} + DpadMinecraftKeys(mode))
  {
    var h1 := h.KeyOnEdges(joyZ.PressedEvent(), joyZ.ReleasedEvent(), JoystickZKey(mode));
    if mode == McUtility {
      UtilityFrame(h1, dpad);
    } else {
      DpadFrame(h1, dpad, W, S, A, D);
    }
  }

  /** The paced pointer report of MINECRAFT (no wheel pacing there). */
  function PacedMove(p: MouseHandler.Pacing, h: Hid, dx: int, dy: int, now: real): (r: (MouseHandler.Pacing, Hid))
    ensures r.0.lastMouseWheel == p.lastMouseWheel
    ensures r.1.keys == h.keys && r.1.buttons == h.buttons
  {
    if MouseHandler.Due(p.lastMouse, now, MouseHandler.MOVE_INTERVAL) then
      (p.(lastMouse := now), h.MoveMouse(dx, dy, 0))
    else (p, h)
  }

  /** The modifier (bottom) button: requests while it is held, the commit on its release edge. */
  function ModifierHandling(q: McState, c: Controls, h: Hid): (r: (McState, Hid))
    ensures !c.mc.bottom.ReleasedEvent() ==> r.0.mode == q.mode && r.1 == h
  {
    var q1 := if c.mc.bottom.Pressed() then Request(q, c) else q;
    if c.mc.bottom.ReleasedEvent() then Commit(q1, ReleaseMinecraftHid(h)) else (q1, h)
  }

  /** The modifier changes no key outside the Minecraft keys; after a commit CONTROL is held exactly when sprinting, and no mouse button is. */
  lemma ModifierFrame(q: McState, c: Controls, h: Hid)
    ensures var r := ModifierHandling(q, c, h);
      (forall k :: k !in MINECRAFT_KEYS ==> (k in r.1.keys <==> k in h.keys))
      && (c.mc.bottom.ReleasedEvent() ==> (Control in r.1.keys <==> r.0.mode == McSprinting) && r.1.buttons == {})
  {
  }

  /** The auxiliary buttons, then, unless the modifier is held, the joystick button and the DPad. */
  function ButtonHandling(h: Hid, mode: McMode, c: Controls): Hid {
    var h1 := AuxHandling(h, mode, c.mc);
    if !c.mc.bottom.Pressed() then MoveHandling(h1, mode, c.joyZ, c.dpad) else h1
  }

  /** The buttons change only Minecraft keys, and only Q while the modifier is held. */
  lemma ButtonFrame(h: Hid, mode: McMode, c: Controls)
    ensures var g := ButtonHandling(h, mode, c);
      (forall k :: k !in MINECRAFT_KEYS ==> (k in g.keys <==> k in h.keys))
      && (c.mc.bottom.Pressed() ==> forall k :: k != Q ==> (k in g.keys <==> k in h.keys))
  {
    var h1 := AuxHandling(h, mode, c.mc);
    MoveFrame(h1, mode, c.joyZ, c.dpad);
    assert JoystickZKey(mode) in MINECRAFT_KEYS && DpadMinecraftKeys(mode) <= MINECRAFT_KEYS;
  }

  /** No button drives CONTROL. */
  lemma ButtonsKeepControl(h: Hid, mode: McMode, c: Controls)
    ensures Control in ButtonHandling(h, mode, c).keys <==> Control in h.keys
  {
    var h1 := AuxHandling(h, mode, c.mc);
    AgreeAt(h1.keys, h.keys, {Q}, Control);
    if !c.mc.bottom.Pressed() {
      MoveFrame(h1, mode, c.joyZ, c.dpad);
      AgreeAt(MoveHandling(h1, mode, c.joyZ, c.dpad).keys, h1.keys, {JoystickZKey(mode)} + DpadMinecraftKeys(mode), Control);
    }
  }

  /** The Minecraft handler of MINECRAFT. */
  function MinecraftHandling(m: Machine, dx: int, dy: int, now: real): (r: Machine)
    ensures r == m.(pacing := r.pacing, minecraft := r.minecraft, hid := r.hid)
  {
    var r1 := ModifierHandling(m.minecraft, m.controls, m.hid);
    var r2 := PacedMove(m.pacing, r1.1, dx, dy, now);
    m.(pacing := r2.0, minecraft := r1.0, hid := ButtonHandling(r2.1, r1.0.mode, m.controls))
  }

  /**
   * The Minecraft handler changes only Minecraft keys (only Q while the
   * modifier is held down), changes the sub-mode only on the modifier's
   * release edge, and after that edge CONTROL is held exactly when sprinting.
   */
  lemma MinecraftFrame(m: Machine, dx: int, dy: int, now: real)
    ensures var r := MinecraftHandling(m, dx, dy, now);
      (forall k :: k !in MINECRAFT_KEYS ==> (k in r.hid.keys <==> k in m.hid.keys))
      && (m.controls.mc.bottom.Pressed() && !m.controls.mc.bottom.ReleasedEvent() ==>
            KeysAgreeOutside(r.hid.keys, m.hid.keys, {Q}))
      && (!m.controls.mc.bottom.ReleasedEvent() ==>
            r.minecraft.mode == m.minecraft.mode && (Control in r.hid.keys <==> Control in m.hid.keys))
      && (m.controls.mc.bottom.ReleasedEvent() ==> (Control in r.hid.keys <==> r.minecraft.mode == McSprinting))
  {
    var r1 := ModifierHandling(m.minecraft, m.controls, m.hid);
    var r2 := PacedMove(m.pacing, r1.1, dx, dy, now);
    ModifierFrame(m.minecraft, m.controls, m.hid);
    ButtonFrame(r2.1, r1.0.mode, m.controls);
    ButtonsKeepControl(r2.1, r1.0.mode, m.controls);
  }

  // ---------------------------------------------------------------------
  // One tick

  /** The debouncers after this tick's `update()` calls. */
  function UpdateButtons(c: Controls, t: Tick): Controls {
    Controls(c.joyZ.Update(t.z), c.dpad.Update(t.dpad), c.mc.Update(t.mc))
  }

  /** The handlers, chosen by the state after the transition. */
  function Handlers(m: Machine, dx: int, dy: int, now: real): (r: Machine)
    ensures r.state == m.state && r.timer == m.timer && r.controls == m.controls
  {
    if m.state == Joystick || m.state == JWaiting then JoystickHandling(m, dx, dy, now)
    else if m.state == Keyboard || m.state == KWaitingToJ || m.state == KWaitingToMc then KeyboardHandling(m, dx, dy)
    else if m.state == Minecraft then MinecraftHandling(m, dx, dy, now)
    else m
  }

  /** `process()`. */
  function Step(m: Machine, t: Tick): (r: Machine)
    ensures r.controls == UpdateButtons(m.controls, t)
  {
    Handlers(Transition(m.(controls := UpdateButtons(m.controls, t)), t.dx, t.dy, t.now), t.dx, t.dy, t.now)
  }

  /** The colour of each Minecraft sub-mode. */
  function McColor(mode: McMode): (c: Rgb)
    ensures IsColor(c)
  {
    match mode
    case McDefault => Rgb(0, 255, 255)
    case McFlyingDown => Rgb(255, 0, 255)
    case McSprinting => Rgb(255, 128, 128)
    case McCrouching => Rgb(255, 165, 0)
    case McUtility => Rgb(255, 255, 0)
  }

  /** The LED write of a tick in state `s` (before its transition), if any. */
  function Led(s: State, mode: McMode, ns: nat): (c: Option<Rgb>)
    ensures c.Some? ==> IsColor(c.value)
    ensures c.None? <==> s in {JWaiting, KWaitingToJ, KWaitingToMc, MWaiting}
  {
    match s
    case Unwired => Some(Pulse(ns))
    case Waiting => Some(Pulse(ns))
    case Joystick => Some(Green)
    case Keyboard => Some(Blue)
    case Minecraft => Some(McColor(mode))
    case _ => None
  }

  /** The machine after each tick of `ticks`, in order. */
  function Run(m: Machine, ticks: seq<Tick>): Machine
    decreases |ticks|
  {
    if ticks == [] then m else Step(Run(m, ticks[..|ticks| - 1]), ticks[|ticks| - 1])
  }

  // ---------------------------------------------------------------------
  // Arming

  /** UNWIRED moves to WAITING exactly when both readings are zero, resetting the timer; nothing is sent while unarmed. */
  lemma UnwiredArms(m: Machine, t: Tick)
    requires m.state == Unwired
    ensures var r := Step(m, t);
      (r.state == Waiting <==> t.dx == 0 && t.dy == 0)
      && (r.state != Waiting ==> r.state == Unwired && r.timer == m.timer)
      && (r.state == Waiting ==> r.timer == t.now)
      && r.hid == m.hid && r.pacing == m.pacing
  {
  }

  /**
   * WAITING falls back to UNWIRED on any movement and arms only when more
   * than 0.5 s have passed since the stick came to rest; the mouse handler
   * already runs on the arming tick.
   */
  lemma WaitingArms(m: Machine, t: Tick)
    requires m.state == Waiting
    ensures var r := Step(m, t);
      (t.dx != 0 || t.dy != 0 ==> r.state == Unwired && r.hid == m.hid)
      && (t.dx == 0 && t.dy == 0 && t.now - m.timer <= ARMING_DELAY ==> r.state == Waiting && r.hid == m.hid)
      && (t.dx == 0 && t.dy == 0 && t.now - m.timer > ARMING_DELAY ==>
            r.state == Joystick
            && r.pacing == MouseHandler.Handle(m.pacing, m.hid, UpdateButtons(m.controls, t).dpad, 0, 0, t.now).0)
      && r.timer == m.timer
  {
  }

  /** While the stick keeps moving, the controller stays UNWIRED and sends nothing. */
  lemma {:induction false} MovingStaysUnwired(m: Machine, ticks: seq<Tick>)
    requires m.state == Unwired
    requires forall k :: 0 <= k < |ticks| ==> ticks[k].dx != 0 || ticks[k].dy != 0
    ensures Run(m, ticks).state == Unwired && Run(m, ticks).hid == m.hid
    decreases |ticks|
  {
    if ticks != [] {
      var n := |ticks| - 1;
      MovingStaysUnwired(m, ticks[..n]);
      UnwiredArms(Run(m, ticks[..n]), ticks[n]);
    }
  }

  /** The arming facts one tick contributes: only UNWIRED and WAITING lead to UNWIRED or WAITING. */
  lemma ArmingStep(m: Machine, t: Tick, r: Machine)
    requires r == Step(m, t)
    ensures m.state == Unwired ==> (r.state == Unwired || (r.state == Waiting && r.timer == t.now && t.dx == 0 && t.dy == 0))
    ensures m.state == Waiting ==>
      (r.state == Unwired || (r.state == Waiting && r.timer == m.timer && t.dx == 0 && t.dy == 0)
       || (r.state == Joystick && t.dx == 0 && t.dy == 0 && t.now - m.timer > ARMING_DELAY))
    ensures m.state != Unwired && m.state != Waiting ==> r.state != Unwired && r.state != Waiting
  {
  }

  /** The stick rested on every tick from i to j. */
  predicate Rested(ticks: seq<Tick>, i: int, j: int) {
    0 <= i && j < |ticks| && forall k :: i <= k <= j ==> ticks[k].dx == 0 && ticks[k].dy == 0
  }

  lemma RestedPrefix(ticks: seq<Tick>, n: nat, i: int, j: int)
    requires n <= |ticks| && Rested(ticks[..n], i, j)
    ensures Rested(ticks, i, j)
  {
    forall k | i <= k <= j
      ensures ticks[k].dx == 0 && ticks[k].dy == 0
    {
      assert ticks[..n][k] == ticks[k];
    }
  }

  lemma RestedExtend(ticks: seq<Tick>, i: int, j: int)
    requires Rested(ticks, i, j - 1) && 0 <= i <= j < |ticks| && ticks[j].dx == 0 && ticks[j].dy == 0
    ensures Rested(ticks, i, j)
  {
  }

  /** A run from UNWIRED that ends in WAITING: the tick since which the stick rested, whose time the timer holds. */
  lemma {:induction false} RestingSince(m: Machine, ticks: seq<Tick>) returns (i: nat)
    requires m.state == Unwired
    requires Run(m, ticks).state == Waiting
    ensures i < |ticks| && Run(m, ticks).timer == ticks[i].now && Rested(ticks, i, |ticks| - 1)
    decreases |ticks|
  {
    var n := |ticks| - 1;
    var prev := Run(m, ticks[..n]);
    var r := Run(m, ticks);
    assert r == Step(prev, ticks[n]);
    ArmingStep(prev, ticks[n], r);
    if prev.state == Unwired {
      i := n;
    } else {
      i := RestingSince(m, ticks[..n]);
      assert ticks[..n][i] == ticks[i];
      RestedPrefix(ticks, n, i, n - 1);
      RestedExtend(ticks, i, n);
    }
  }

  /** A run from UNWIRED that left UNWIRED/WAITING: the rest period that armed it. */
  lemma {:induction false} RestWitness(m: Machine, ticks: seq<Tick>) returns (i: nat, j: nat)
    requires m.state == Unwired
    requires Run(m, ticks).state != Unwired && Run(m, ticks).state != Waiting
    ensures i < j < |ticks| && ticks[j].now - ticks[i].now > ARMING_DELAY && Rested(ticks, i, j)
    decreases |ticks|
  {
    var n := |ticks| - 1;
    var prev := Run(m, ticks[..n]);
    var r := Run(m, ticks);
    assert r == Step(prev, ticks[n]);
    ArmingStep(prev, ticks[n], r);
    if prev.state == Waiting {
      i := RestingSince(m, ticks[..n]);
      j := n;
      assert ticks[..n][i] == ticks[i];
      RestedPrefix(ticks, n, i, n - 1);
      RestedExtend(ticks, i, n);
    } else {
      i, j := RestWitness(m, ticks[..n]);
      assert ticks[..n][i] == ticks[i] && ticks[..n][j] == ticks[j];
      RestedPrefix(ticks, n, i, j);
    }
  }

  /**
   * The controller leaves UNWIRED/WAITING only after the stick rested (both
   * readings zero) on every tick from some tick i to some later tick j more
   * than 0.5 s after it.
   */
  lemma ArmingNeedsRest(m: Machine, ticks: seq<Tick>)
    requires m.state == Unwired
    requires Run(m, ticks).state != Unwired && Run(m, ticks).state != Waiting
    ensures exists i, j :: 0 <= i < j < |ticks| && ticks[j].now - ticks[i].now > ARMING_DELAY && Rested(ticks, i, j)
  {
    var i, j := RestWitness(m, ticks);
  }

  /**
   * As written, a rest of any length in (0.5 s, 1 s] already arms the
   * controller from power-up, although its header comment asks for the stick
   * to stay centred for one second.
   */
  lemma ArmsWithinOneSecond(now: real, rest: real, z: bool, dpad: DpadLevels, mc: AuxLevels, ns: nat,
                            topWired: bool, middleWired: bool, bottomWired: bool)
    requires ARMING_DELAY < rest <= 1.0
    ensures var ticks := [Tick(z, dpad, mc, 0, 0, now, ns), Tick(z, dpad, mc, 0, 0, now + rest, ns)];
      Run(Initial(now, topWired, middleWired, bottomWired), ticks).state == Joystick
      && ticks[1].now - ticks[0].now <= 1.0
  {
    var m := Initial(now, topWired, middleWired, bottomWired);
    var ticks := [Tick(z, dpad, mc, 0, 0, now, ns), Tick(z, dpad, mc, 0, 0, now + rest, ns)];
    UnwiredArms(m, ticks[0]);
    var w := Step(m, ticks[0]);
    assert Run(m, ticks[..1]) == w by {
      assert ticks[..1][..0] == [];
    }
    WaitingArms(w, ticks[1]);
  }

  // ---------------------------------------------------------------------
  // Mode changes

  /** JWAITING: back to JOYSTICK on release; after more than 1 s held, KEYBOARD with the left and right mouse buttons released. */
  lemma JWaitingOutcome(m: Machine, t: Tick)
    requires m.state == JWaiting
    ensures var z := UpdateButtons(m.controls, t).joyZ.Pressed(); var r := Step(m, t);
      (!z ==> r.state == Joystick)
      && (z && t.now - m.timer <= HOLD_DELAY ==> r.state == JWaiting)
      && (z && t.now - m.timer > HOLD_DELAY ==>
            r.state == Keyboard && r.hid.buttons == m.hid.buttons - {LeftButton, RightButton})
      && r.timer == m.timer
  {
  }

  /** From KEYBOARD a press of the joystick button starts exactly one of the two confirmations, chosen by the bottom button, and resets the timer. */
  lemma KeyboardChoosesTarget(m: Machine, t: Tick)
    requires m.state == Keyboard
    ensures var c := UpdateButtons(m.controls, t); var r := Step(m, t);
      (c.joyZ.Pressed() ==> r.timer == t.now && r.state == (if c.mc.bottom.Pressed() then KWaitingToMc else KWaitingToJ))
      && (!c.joyZ.Pressed() ==> r.state == Keyboard && r.timer == m.timer)
  {
  }

  /** The condition under which a KWAITING state keeps waiting. */
  predicate KWaitingHeld(s: State, c: Controls) {
    c.joyZ.Pressed() && (c.mc.bottom.Pressed() <==> s == KWaitingToMc)
  }

  /** Letting go during a KWAITING state returns to KEYBOARD with every latch flag cleared and no report sent. */
  lemma KWaitingAbort(m: Machine, dx: int, dy: int, now: real)
    requires m.state == KWaitingToJ || m.state == KWaitingToMc
    requires !KWaitingHeld(m.state, m.controls)
    ensures var r := Transition(m, dx, dy, now);
      r.state == Keyboard && r.latches == Unlatched && r.hid == m.hid && r.timer == m.timer
  {
  }

  /**
   * Holding through a KWAITING state for more than 1 s switches to JOYSTICK
   * or MINECRAFT with every keyboard-mode key released, but the latch flags
   * are left as they were.
   */
  lemma KWaitingComplete(m: Machine, t: Tick)
    requires m.state == KWaitingToJ || m.state == KWaitingToMc
    requires KWaitingHeld(m.state, UpdateButtons(m.controls, t)) && t.now - m.timer > HOLD_DELAY
    ensures var r := Step(m, t);
      r.state == (if m.state == KWaitingToJ then Joystick else Minecraft)
      && r.latches == m.latches
      && r.hid.keys !! KEYBOARD_KEYS
  {
    var c := UpdateButtons(m.controls, t);
    var m1 := Transition(m.(controls := c), t.dx, t.dy, t.now);
    assert m1.latches == m.latches && m1.hid.keys !! KEYBOARD_KEYS;
    if m.state == KWaitingToMc {
      assert m1.state == Minecraft && c.mc.bottom.Pressed() && !c.mc.bottom.ReleasedEvent();
      MinecraftFrame(m1, t.dx, t.dy, t.now);
      OnlyQChanged(m1.hid, MinecraftHandling(m1, t.dx, t.dy, t.now).hid);
    }
  }

  /** Q is not a keyboard-mode key, so changing only Q keeps every keyboard-mode key released. */
  lemma OnlyQChanged(h: Hid, g: Hid)
    requires h.keys !! KEYBOARD_KEYS
    requires KeysAgreeOutside(g.keys, h.keys, {Q})
    ensures g.keys !! KEYBOARD_KEYS
  {
  }

  /** MINECRAFT starts its exit confirmation only with the joystick button and all four DPad buttons held. */
  lemma MinecraftOutcome(m: Machine, t: Tick)
    requires m.state == Minecraft
    ensures var c := UpdateButtons(m.controls, t); var r := Step(m, t);
      (r.state == MWaiting <==> c.joyZ.Pressed() && c.dpad.AllPressed())
      && (r.state != MWaiting ==> r.state == Minecraft && r.timer == m.timer)
      && (r.state == MWaiting ==> r.timer == t.now)
  {
  }

  /** While MWAITING keeps waiting nothing is sent: the Minecraft handler does not run. */
  lemma MWaitingIsSilent(m: Machine, t: Tick)
    requires m.state == MWaiting
    ensures var c := UpdateButtons(m.controls, t); var r := Step(m, t);
      (!(c.joyZ.Pressed() && c.dpad.AllPressed()) ==> r.state == Minecraft)
      && (c.joyZ.Pressed() && c.dpad.AllPressed() && t.now - m.timer <= HOLD_DELAY ==> r.state == MWaiting && r.hid == m.hid)
      && (c.joyZ.Pressed() && c.dpad.AllPressed() && t.now - m.timer > HOLD_DELAY ==> r.state == Joystick)
  {
  }

  // ---------------------------------------------------------------------
  // Invariants

  /** At most one sub-mode request is pending. */
  predicate AtMostOneRequest(q: McState) {
    !(q.flyingDownReq && q.sprintingReq) && !(q.flyingDownReq && q.crouchingReq) && !(q.flyingDownReq && q.utilityReq)
    && !(q.sprintingReq && q.crouchingReq) && !(q.sprintingReq && q.utilityReq) && !(q.crouchingReq && q.utilityReq)
  }

  predicate NoRequest(q: McState) {
    !q.flyingDownReq && !q.sprintingReq && !q.crouchingReq && !q.utilityReq
  }

  /**
   * What every reachable controller satisfies: at most one pending request;
   * each confirmation state is occupied only while its buttons are held; and
   * CONTROL is held only in the Minecraft states while sprinting.
   */
  predicate Inv(m: Machine) {
    AtMostOneRequest(m.minecraft)
    && (m.state == JWaiting ==> m.controls.joyZ.Pressed())
    && ((m.state == KWaitingToJ || m.state == KWaitingToMc) ==> KWaitingHeld(m.state, m.controls))
    && (m.state == MWaiting ==> m.controls.joyZ.Pressed() && m.controls.dpad.AllPressed())
    && ControlInv(m)
  }

  lemma InitialInv(now: real, topWired: bool, middleWired: bool, bottomWired: bool)
    ensures Inv(Initial(now, topWired, middleWired, bottomWired))
  {
  }

  /** With the modifier held, a request edge leaves exactly one pending request; otherwise the requests are untouched. */
  lemma RequestKeepsAtMostOne(q: McState, c: Controls)
    requires AtMostOneRequest(q)
    ensures AtMostOneRequest(Request(q, c))
  {
  }

  /** A commit, from at most one pending request, leaves none pending. */
  lemma CommitClearsRequests(q: McState, h: Hid)
    requires AtMostOneRequest(q)
    ensures NoRequest(Commit(q, h).0)
  {
  }

  lemma StepKeepsRequests(m: Machine, t: Tick)
    requires AtMostOneRequest(m.minecraft)
    ensures AtMostOneRequest(Step(m, t).minecraft)
  {
    var c := UpdateButtons(m.controls, t);
    var m1 := Transition(m.(controls := c), t.dx, t.dy, t.now);
    if m1.state == Minecraft {
      var q1 := if c.mc.bottom.Pressed() then Request(m1.minecraft, c) else m1.minecraft;
      RequestKeepsAtMostOne(m1.minecraft, c);
      if c.mc.bottom.ReleasedEvent() {
        CommitClearsRequests(q1, ReleaseMinecraftHid(m1.hid));
      }
    }
  }

  /** CONTROL is held only in the Minecraft states while sprinting. */
  predicate ControlInv(m: Machine) {
    Control in m.hid.keys ==> (m.state == Minecraft || m.state == MWaiting) && m.minecraft.mode == McSprinting
  }

  lemma TransitionKeepsControlInv(m: Machine, dx: int, dy: int, now: real)
    requires ControlInv(m)
    ensures ControlInv(Transition(m, dx, dy, now))
  {
  }

  lemma HandlersKeepControlInv(m: Machine, dx: int, dy: int, now: real)
    requires ControlInv(m)
    ensures ControlInv(Handlers(m, dx, dy, now))
  {
    if m.state == Minecraft {
      MinecraftKeepsControlInv(m, dx, dy, now);
    } else if m.state == Keyboard || m.state == KWaitingToJ || m.state == KWaitingToMc {
      KeyboardKeepsControlInv(m, dx, dy);
    } else if m.state == Joystick || m.state == JWaiting {
      JoystickKeepsControlInv(m, dx, dy, now);
    }
  }

  lemma MinecraftKeepsControlInv(m: Machine, dx: int, dy: int, now: real)
    requires ControlInv(m) && m.state == Minecraft
    ensures ControlInv(MinecraftHandling(m, dx, dy, now))
  {
    MinecraftFrame(m, dx, dy, now);
  }

  lemma KeyboardKeepsControlInv(m: Machine, dx: int, dy: int)
    requires ControlInv(m)
    ensures ControlInv(KeyboardHandling(m, dx, dy))
  {
    KeyboardFrame(m, dx, dy);
    KeyboardControlKept(m, KeyboardHandling(m, dx, dy));
  }

  /** Stated over any outcome that changes no key outside the keyboard-mode keys, so the handler itself is not unfolded. */
  lemma KeyboardControlKept(m: Machine, r: Machine)
    requires ControlInv(m) && r.state == m.state && r.minecraft == m.minecraft
    requires forall k :: k !in KEYBOARD_KEYS ==> (k in r.hid.keys <==> k in m.hid.keys)
    ensures ControlInv(r)
  {
  }

  lemma JoystickKeepsControlInv(m: Machine, dx: int, dy: int, now: real)
    requires ControlInv(m)
    ensures ControlInv(JoystickHandling(m, dx, dy, now))
  {
  }

  lemma StepKeepsControlInv(m: Machine, t: Tick)
    requires ControlInv(m)
    ensures ControlInv(Step(m, t))
  {
    var m0 := m.(controls := UpdateButtons(m.controls, t));
    TransitionKeepsControlInv(m0, t.dx, t.dy, t.now);
    HandlersKeepControlInv(Transition(m0, t.dx, t.dy, t.now), t.dx, t.dy, t.now);
  }

  lemma TransitionHeldStates(m: Machine, dx: int, dy: int, now: real)
    ensures var r := Transition(m, dx, dy, now);
      (r.state == JWaiting ==> m.controls.joyZ.Pressed())
      && ((r.state == KWaitingToJ || r.state == KWaitingToMc) ==> KWaitingHeld(r.state, m.controls))
      && (r.state == MWaiting ==> m.controls.joyZ.Pressed() && m.controls.dpad.AllPressed())
  {
  }

  /** A confirmation state is entered and kept only while its buttons are held. */
  lemma StepKeepsHeldStates(m: Machine, t: Tick)
    ensures var r := Step(m, t);
      (r.state == JWaiting ==> r.controls.joyZ.Pressed())
      && ((r.state == KWaitingToJ || r.state == KWaitingToMc) ==> KWaitingHeld(r.state, r.controls))
      && (r.state == MWaiting ==> r.controls.joyZ.Pressed() && r.controls.dpad.AllPressed())
  {
    var c := UpdateButtons(m.controls, t);
    var m1 := Transition(m.(controls := c), t.dx, t.dy, t.now);
    TransitionHeldStates(m.(controls := c), t.dx, t.dy, t.now);
    var r := Handlers(m1, t.dx, t.dy, t.now);
    assert r.state == m1.state && r.controls == c;
  }

  /** Every tick keeps the invariant. */
  lemma StepKeepsInv(m: Machine, t: Tick)
    requires Inv(m)
    ensures Inv(Step(m, t))
  {
    StepKeepsRequests(m, t);
    StepKeepsControlInv(m, t);
    StepKeepsHeldStates(m, t);
  }

  /** Every run from the initial controller keeps the invariant. */
  lemma {:induction false} RunKeepsInv(m: Machine, ticks: seq<Tick>)
    requires Inv(m)
    ensures Inv(Run(m, ticks))
    decreases |ticks|
  {
    if ticks != [] {
      RunKeepsInv(m, ticks[..|ticks| - 1]);
      StepKeepsInv(Run(m, ticks[..|ticks| - 1]), ticks[|ticks| - 1]);
    }
  }

  /**
   * Completing the exit from MINECRAFT leaves no mouse button and none of
   * the Minecraft keys held, although the mouse handler already runs on
   * that tick.
   */
  lemma MinecraftExitReleasesAll(m: Machine, t: Tick)
    requires Inv(m) && m.state == MWaiting && Step(m, t).state == Joystick
    ensures Step(m, t).hid.buttons == {} && Step(m, t).hid.keys !! MINECRAFT_KEYS
  {
    var c := UpdateButtons(m.controls, t);
    assert !c.dpad.left.PressedEvent() && !c.dpad.left.ReleasedEvent();
    assert !c.dpad.right.PressedEvent() && !c.dpad.right.ReleasedEvent();
  }

  // ---------------------------------------------------------------------
  // The keyboard handler

  /** After the keyboard handler each latch flag is the sign of its axis reading. */
  lemma LatchesFollowStick(m: Machine, t: Tick)
    requires Step(m, t).state in {Keyboard, KWaitingToJ, KWaitingToMc}
    ensures Step(m, t).latches == Latches(t.dy < 0, t.dy > 0, t.dx < 0, t.dx > 0)
  {
    var c := UpdateButtons(m.controls, t);
    var m1 := Transition(m.(controls := c), t.dx, t.dy, t.now);
    assert Step(m, t) == KeyboardHandling(m1, t.dx, t.dy);
  }

  /**
   * An arrow key changes only when its latch flag changes: it is pressed
   * when the flag becomes set, released when it becomes clear, and left as
   * it was otherwise.
   */
  lemma ArrowKeysFollowLatches(m: Machine, dx: int, dy: int)
    ensures var r := KeyboardHandling(m, dx, dy); ArrowsFollowLatches(m.latches, m.hid.keys, r.latches, r.hid.keys)
  {
    var h1 := DpadOnEdges(m.hid, m.controls.dpad, Space, X, Z, C);
    DpadKeepsArrows(m.hid, m.controls.dpad);
    ArrowKeysRule(m.latches, dx, dy, h1);
  }

  /** The DPad keys of the keyboard states are not arrows. */
  lemma DpadKeepsArrows(h: Hid, dpad: Dpad)
    ensures var g := DpadOnEdges(h, dpad, Space, X, Z, C);
      (LeftArrow in g.keys <==> LeftArrow in h.keys) && (RightArrow in g.keys <==> RightArrow in h.keys)
      && (UpArrow in g.keys <==> UpArrow in h.keys) && (DownArrow in g.keys <==> DownArrow in h.keys)
  {
  }

  /**
   * Aborting KWAITING_TO_J while the stick is centred leaves a held left
   * arrow pressed with its latch flag cleared: the abort clears the flags
   * without sending the releases.
   */
  lemma AbortStrandsArrow(m: Machine, t: Tick)
    requires m.state == KWaitingToJ && m.latches.left && LeftArrow in m.hid.keys
    requires !UpdateButtons(m.controls, t).joyZ.Pressed() && t.dx == 0
    ensures var r := Step(m, t); r.state == Keyboard && !r.latches.left && LeftArrow in r.hid.keys
  {
    var c := UpdateButtons(m.controls, t);
    KWaitingAbort(m.(controls := c), t.dx, t.dy, t.now);
    ArrowKeysFollowLatches(Transition(m.(controls := c), t.dx, t.dy, t.now), t.dx, t.dy);
  }

  /** Such a stranded arrow stays held on every later keyboard tick until the stick is pushed left again. */
  lemma StrandedArrowStaysHeld(m: Machine, t: Tick)
    requires m.state == Keyboard && !m.latches.left && LeftArrow in m.hid.keys && t.dx >= 0
    ensures LeftArrow in Step(m, t).hid.keys
  {
    var c := UpdateButtons(m.controls, t);
    var m1 := Transition(m.(controls := c), t.dx, t.dy, t.now);
    assert m1.hid == m.hid && !m1.latches.left && m1.state in {Keyboard, KWaitingToJ, KWaitingToMc};
    KeyboardStep(m, t);
    ArrowKeysFollowLatches(m1, t.dx, t.dy);
  }

  /**
   * JWAITING to KEYBOARD keeps the latch flags: a flag left set by the
   * KWAITING_TO_J completion (which released the key but not the flag) keeps
   * the arrow from being pressed while the stick is held that way.
   */
  lemma StaleLatchSuppressesPress(m: Machine, t: Tick)
    requires m.state == JWaiting && m.latches.left && LeftArrow !in m.hid.keys
    requires UpdateButtons(m.controls, t).joyZ.Pressed() && t.now - m.timer > HOLD_DELAY && t.dx < 0
    ensures var r := Step(m, t); r.state == Keyboard && r.latches.left && LeftArrow !in r.hid.keys
  {
    var c := UpdateButtons(m.controls, t);
    var m1 := Transition(m.(controls := c), t.dx, t.dy, t.now);
    assert m1.state == Keyboard && m1.latches.left && LeftArrow !in m1.hid.keys;
    KeyboardStep(m, t);
    ArrowKeysFollowLatches(m1, t.dx, t.dy);
  }

  /** A tick whose transition lands in a keyboard state runs the keyboard handler. */
  lemma KeyboardStep(m: Machine, t: Tick)
    requires Transition(m.(controls := UpdateButtons(m.controls, t)), t.dx, t.dy, t.now).state in {Keyboard, KWaitingToJ, KWaitingToMc}
    ensures Step(m, t) == KeyboardHandling(Transition(m.(controls := UpdateButtons(m.controls, t)), t.dx, t.dy, t.now), t.dx, t.dy)
  {
  }

  // ---------------------------------------------------------------------
  // The Minecraft handler

  /** The sub-modes with a pending request. */
  function Pending(q: McState): set<McMode> {
    (if q.flyingDownReq then {McFlyingDown} else {}) + (if q.sprintingReq then {McSprinting} else {})
    + (if q.crouchingReq then {McCrouching} else {}) + (if q.utilityReq then {McUtility} else {})
  }

  /** The request a press edge makes, by priority z, up, down, left; each replaces any earlier one. */
  lemma RequestPriority(q: McState, c: Controls)
    ensures var r := Request(q, c);
      (c.joyZ.PressedEvent() ==> Pending(r) == {McFlyingDown})
      && (!c.joyZ.PressedEvent() && c.dpad.up.PressedEvent() ==> Pending(r) == {McSprinting})
      && (!c.joyZ.PressedEvent() && !c.dpad.up.PressedEvent() && c.dpad.down.PressedEvent() ==> Pending(r) == {McCrouching})
      && (!c.joyZ.PressedEvent() && !c.dpad.up.PressedEvent() && !c.dpad.down.PressedEvent() && c.dpad.left.PressedEvent() ==>
            Pending(r) == {McUtility})
      && (!c.joyZ.PressedEvent() && !c.dpad.up.PressedEvent() && !c.dpad.down.PressedEvent() && !c.dpad.left.PressedEvent() ==>
            r == q)
  {
  }

  /** A commit makes the pending request the sub-mode, or DEFAULT when none is pending, and presses that sub-mode's modifier key. */
  lemma CommitTakesPending(q: McState, h: Hid, mode: McMode)
    requires AtMostOneRequest(q)
    ensures var r := Commit(q, h);
      (Pending(q) == {} ==> r.0.mode == McDefault && r.1 == h)
      && (mode in Pending(q) ==> r.0.mode == mode)
      && (r.0.mode == McSprinting ==> Control in r.1.keys)
      && (r.0.mode == McCrouching ==> LeftShift in r.1.keys)
      && Pending(r.0) == {}
  {
    assert q.flyingDownReq ==> McFlyingDown in Pending(q);
    assert q.sprintingReq ==> McSprinting in Pending(q);
    assert q.crouchingReq ==> McCrouching in Pending(q);
    assert q.utilityReq ==> McUtility in Pending(q);
  }

  /** While the modifier is up, outside UTILITY, the joystick button drives its sub-mode's key and the DPad drives W/S/A/D. */
  lemma MoveMapping(h: Hid, mode: McMode, joyZ: Debounced, dpad: Dpad)
    requires mode != McUtility
    ensures var g := MoveHandling(h, mode, joyZ, dpad);
      var zKey := JoystickZKey(mode);
      (zKey in g.keys) == HeldAfter(zKey in h.keys, joyZ.PressedEvent(), joyZ.ReleasedEvent())
      && (W in g.keys) == HeldAfter(W in h.keys, dpad.up.PressedEvent(), dpad.up.ReleasedEvent())
      && (S in g.keys) == HeldAfter(S in h.keys, dpad.down.PressedEvent(), dpad.down.ReleasedEvent())
      && (A in g.keys) == HeldAfter(A in h.keys, dpad.left.PressedEvent(), dpad.left.ReleasedEvent())
      && (D in g.keys) == HeldAfter(D in h.keys, dpad.right.PressedEvent(), dpad.right.ReleasedEvent())
  {
    var zKey := JoystickZKey(mode);
    var h1 := h.KeyOnEdges(joyZ.PressedEvent(), joyZ.ReleasedEvent(), zKey);
    var g := DpadOnEdges(h1, dpad, W, S, A, D);
    assert MoveHandling(h, mode, joyZ, dpad) == g;
    assert zKey in {Space, LeftShift};
    KeyOnEdgesFrame(h, joyZ.PressedEvent(), joyZ.ReleasedEvent(), zKey);
    DpadHeld(h1, dpad, W, S, A, D);
    DpadFrame(h1, dpad, W, S, A, D);
    AgreeAt(g.keys, h1.keys, {W, S, A, D}, zKey);
    AgreeAt(h1.keys, h.keys, {zKey}, W);
    AgreeAt(h1.keys, h.keys, {zKey}, S);
    AgreeAt(h1.keys, h.keys, {zKey}, A);
    AgreeAt(h1.keys, h.keys, {zKey}, D);
  }

  /** In UTILITY, with the modifier up, the joystick button drives F5 and the DPad left/right drive E/ESCAPE. */
  lemma UtilityMapping(h: Hid, joyZ: Debounced, dpad: Dpad)
    ensures var g := MoveHandling(h, McUtility, joyZ, dpad);
      (F5 in g.keys) == HeldAfter(F5 in h.keys, joyZ.PressedEvent(), joyZ.ReleasedEvent())
      && (E in g.keys) == HeldAfter(E in h.keys, dpad.left.PressedEvent(), dpad.left.ReleasedEvent())
      && (Escape in g.keys) == HeldAfter(Escape in h.keys, dpad.right.PressedEvent(), dpad.right.ReleasedEvent())
  {
    var h1 := h.KeyOnEdges(joyZ.PressedEvent(), joyZ.ReleasedEvent(), F5);
    UtilityFrame(h1, dpad);
    UtilityKeys(h1, dpad);
  }

  lemma UtilityKeys(h: Hid, dpad: Dpad)
    ensures var g := UtilityDpad(h, dpad);
      (E in g.keys) == HeldAfter(E in h.keys, dpad.left.PressedEvent(), dpad.left.ReleasedEvent())
      && (Escape in g.keys) == HeldAfter(Escape in h.keys, dpad.right.PressedEvent(), dpad.right.ReleasedEvent())
  {
    var h2 := if dpad.up.PressedEvent() then h.MoveMouse(0, 0, -1) else h;
    var h3 := if dpad.down.PressedEvent() then h2.MoveMouse(0, 0, 1) else h2;
    assert h3.keys == h.keys;
  }

  /** In UTILITY the up and down press edges scroll the wheel by -1 and +1, and their release edges send nothing. */
  lemma UtilityWheel(h: Hid, joyZ: Debounced, dpad: Dpad)
    ensures var g := MoveHandling(h, McUtility, joyZ, dpad);
      g.log == h.log + KeyEdgeReports(joyZ.PressedEvent(), joyZ.ReleasedEvent(), F5)
        + (if dpad.up.PressedEvent() then [Move(0, 0, -1)] else [])
        + (if dpad.down.PressedEvent() then [Move(0, 0, 1)] else [])
        + KeyEdgeReports(dpad.left.PressedEvent(), dpad.left.ReleasedEvent(), E)
        + KeyEdgeReports(dpad.right.PressedEvent(), dpad.right.ReleasedEvent(), Escape)
  {
  }

  /** The joystick button key of each sub-mode: SPACE, except LEFT_SHIFT when flying down and F5 in UTILITY. */
  lemma JoystickZKeys()
    ensures JoystickZKey(McDefault) == Space && JoystickZKey(McFlyingDown) == LeftShift
    ensures JoystickZKey(McSprinting) == Space && JoystickZKey(McCrouching) == Space
    ensures JoystickZKey(McUtility) == F5
  {
  }

  /** The top and middle buttons: Q and the middle mouse button while the modifier is held in DEFAULT, the left and right mouse buttons otherwise. */
  lemma AuxMapping(h: Hid, mode: McMode, mc: AuxButtons)
    ensures var g := AuxHandling(h, mode, mc);
      (mode == McDefault && mc.bottom.Pressed() ==>
         (Q in g.keys) == HeldAfter(Q in h.keys, mc.top.PressedEvent(), mc.top.ReleasedEvent())
         && (MiddleButton in g.buttons) == HeldAfter(MiddleButton in h.buttons, mc.middle.PressedEvent(), mc.middle.ReleasedEvent())
         && g.buttons - {MiddleButton} == h.buttons - {MiddleButton})
      && (!(mode == McDefault && mc.bottom.Pressed()) ==>
         (LeftButton in g.buttons) == HeldAfter(LeftButton in h.buttons, mc.top.PressedEvent(), mc.top.ReleasedEvent())
         && (RightButton in g.buttons) == HeldAfter(RightButton in h.buttons, mc.middle.PressedEvent(), mc.middle.ReleasedEvent())
         && g.keys == h.keys)
  {
  }

  // ---------------------------------------------------------------------
  // The LED

  /** Each Minecraft sub-mode has its own colour, and none of them is the mouse-mode green or the keyboard-mode blue. */
  lemma McColorsDistinct(a: McMode, b: McMode)
    ensures McColor(a) == McColor(b) ==> a == b
    ensures McColor(a) != Green && McColor(a) != Blue
  {
  }
}
