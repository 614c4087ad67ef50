/**
 * The game-controller loop written for the Code the Classics games: on
 * every pass it works out which of five game keys should be down, from the
 * DPad, the joystick button and the stick, and then presses or releases a
 * key only where that differs from what it last did.
 *
 * The debouncers are external: a pass receives their debounced levels
 * (`true` = pulled up = not pressed) and the two 16-bit stick samples.
 */
module Classics {
  import opened Hid

  /** The five game keys the loop tracks. */
  datatype Dir = Up | Down | Left | Right | Fire

  /** One flag per game key: `up_pressed`... (wanted) or `up_state`... (last sent). */
  datatype Flags = Flags(up: bool, down: bool, left: bool, right: bool, space: bool) {
    function Get(d: Dir): bool {
      match d
      case Up => up
      case Down => down
      case Left => left
      case Right => right
      case Fire => space
    }

    /** The flags with game key `d` set to `b`. */
    function With(d: Dir, b: bool): Flags {
      match d
      case Up => this.(up := b)
      case Down => this.(down := b)
      case Left => this.(left := b)
      case Right => this.(right := b)
      case Fire => this.(space := b)
    }
  }

  lemma WithGet(s: Flags, x: Dir, b: bool, e: Dir)
    ensures s.With(x, b).Get(e) == if e == x then b else s.Get(e)
  {
  }

  const NoFlags := Flags(false, false, false, false, false)

  /** The debounced levels of the DPad and the joystick button. */
  datatype Levels = Levels(up: bool, down: bool, left: bool, right: bool, joyPress: bool)

  /** The keys of each game key: the arrows and SPACE for player 1, the W/S/A/D group (with K and M) and LEFT_SHIFT otherwise. */
  function DirKeys(player: int, d: Dir): (ks: seq<Key>)
    ensures 1 <= |ks| <= 2
  {
    if player == 1 then
      match d
      case Up => [UpArrow]
      case Down => [DownArrow]
      case Left => [LeftArrow]
      case Right => [RightArrow]
      case Fire => [Space]
    else
      match d
      case Up => [K, W]
      case Down => [M, S]
      case Left => [A]
      case Right => [D]
      case Fire => [LeftShift]
  }

  /** The keys of a sequence, as a set. */
  function Elems(ks: seq<Key>): set<Key> {
    set k | k in ks
  }

  /** The group of keys a game key presses and releases together. */
  function Group(player: int, d: Dir): set<Key> {
    if player == 1 then
      match d
      case Up => {UpArrow}
      case Down => {DownArrow}
      case Left => {LeftArrow}
      case Right => {RightArrow}
      case Fire => {Space}
    else
      match d
      case Up => {K, W}
      case Down => {M, S}
      case Left => {A}
      case Right => {D}
      case Fire => {LeftShift}
  }

  lemma GroupElems(player: int, d: Dir)
    ensures Elems(DirKeys(player, d)) == Group(player, d)
  {
  }

  /** Two game keys never share a key, for either player. */
  lemma GroupsDisjoint(player: int, d: Dir, e: Dir)
    requires d != e
    ensures Group(player, d) !! Group(player, e)
  {
  }

  // ---------------------------------------------------------------------
  // What should be down

  /**
   * The if/elif chain over the buttons: the first pressed of up, down,
   * left, right and the joystick button sets its flag (down and the
   * joystick button both set SPACE).
   */
  function ButtonFlags(l: Levels): Flags {
    if !l.up then NoFlags.(up := true)
    else if !l.down then NoFlags.(space := true)
    else if !l.left then NoFlags.(left := true)
    else if !l.right then NoFlags.(right := true)
    else if !l.joyPress then NoFlags.(space := true)
    else NoFlags
  }

  /** `(x.value - 32768)/32768`: the horizontal reading scaled to [-1, 1). */
  function LeftRight(x: int): real {
    (x - 32768) as real / 32768.0
  }

  /** `(y.value - 32768)/-32768`: the vertical reading scaled and flipped, so that up is positive. */
  function UpDown(y: int): real {
    (y - 32768) as real / -32768.0
  }

  /** The wanted flags of one pass: the buttons' flag, then the stick past a quarter of its travel on each axis. */
  function Desired(l: Levels, x: int, y: int): Flags {
    var b := ButtonFlags(l);
    var b1 := if LeftRight(x) < -0.25 then b.(left := true) else if LeftRight(x) > 0.25 then b.(right := true) else b;
    if UpDown(y) < -0.25 then b1.(down := true) else if UpDown(y) > 0.25 then b1.(up := true) else b1
  }

  /** The buttons set at most one flag, never DOWN, and follow the priority up, down, left, right, joystick button. */
  lemma ButtonPriority(l: Levels)
    ensures var b := ButtonFlags(l);
      !b.down
      && (b.up <==> !l.up)
      && (b.left <==> l.up && l.down && !l.left)
      && (b.right <==> l.up && l.down && l.left && !l.right)
      && (b.space <==> l.up && (!l.down || (l.left && l.right && !l.joyPress)))
      && (b.up ==> !b.left && !b.right && !b.space)
      && (b.left ==> !b.right && !b.space)
      && (b.right ==> !b.space)
  {
  }

  /** Both scalings are exact at the thresholds: a quarter of the travel is 8192 counts either side of 32768. */
  lemma Thresholds(x: int, y: int)
    ensures LeftRight(x) < -0.25 <==> x < 24576
    ensures LeftRight(x) > 0.25 <==> x > 40960
    ensures UpDown(y) < -0.25 <==> y > 40960
    ensures UpDown(y) > 0.25 <==> y < 24576
  {
    assert LeftRight(x) * 32768.0 == (x - 32768) as real;
    assert UpDown(y) * 32768.0 == (32768 - y) as real;
  }

  /**
   * The wanted flags in integer terms: left below 24576 and right above
   * 40960 on x; down above 40960 and up below 24576 on y (the y axis is
   * flipped); SPACE only from the buttons.
   */
  lemma DesiredFlags(l: Levels, x: int, y: int)
    ensures var f := Desired(l, x, y); var b := ButtonFlags(l);
      (f.left <==> b.left || x < 24576)
      && (f.right <==> b.right || x > 40960)
      && (f.down <==> y > 40960)
      && (f.up <==> b.up || y < 24576)
      && f.space == b.space
  {
    Thresholds(x, y);
    ButtonPriority(l);
  }

  // ---------------------------------------------------------------------
  // What is sent

  function PressAll(h: Hid, ks: seq<Key>): (g: Hid)
    ensures g.buttons == h.buttons
    decreases |ks|
  {
    if ks == [] then h else PressAll(h.PressKey(ks[0]), ks[1..])
  }

  function ReleaseAll(h: Hid, ks: seq<Key>): (g: Hid)
    ensures g.buttons == h.buttons
    decreases |ks|
  {
    if ks == [] then h else ReleaseAll(h.ReleaseKey(ks[0]), ks[1..])
  }

  function Presses(ks: seq<Key>): seq<Event>
    decreases |ks|
  {
    if ks == [] then [] else [KeyPress(ks[0])] + Presses(ks[1..])
  }

  function Releases(ks: seq<Key>): seq<Event>
    decreases |ks|
  {
    if ks == [] then [] else [KeyRelease(ks[0])] + Releases(ks[1..])
  }

  /** A group of one or two keys is pressed, or released, one key after the other. */
  lemma UnfoldGroup(h: Hid, ks: seq<Key>)
    requires 1 <= |ks| <= 2
    ensures PressAll(h, ks) == if |ks| == 1 then h.PressKey(ks[0]) else h.PressKey(ks[0]).PressKey(ks[1])
    ensures ReleaseAll(h, ks) == if |ks| == 1 then h.ReleaseKey(ks[0]) else h.ReleaseKey(ks[0]).ReleaseKey(ks[1])
  {
    if |ks| == 1 {
      assert ks[1..] == [];
    } else {
      var t := ks[1..];
      assert t[0] == ks[1] && t[1..] == [];
      assert PressAll(h.PressKey(ks[0]), t) == PressAll(h.PressKey(ks[0]).PressKey(ks[1]), []);
      assert ReleaseAll(h.ReleaseKey(ks[0]), t) == ReleaseAll(h.ReleaseKey(ks[0]).ReleaseKey(ks[1]), []);
    }
  }

  /** Pressing a group holds every key of it, in order, and touches nothing else. */
  lemma {:induction false} PressAllEffect(h: Hid, ks: seq<Key>)
    ensures PressAll(h, ks).keys == h.keys + Elems(ks)
    ensures PressAll(h, ks).log == h.log + Presses(ks)
    decreases |ks|
  {
    if ks != [] {
      PressAllEffect(h.PressKey(ks[0]), ks[1..]);
      assert Elems(ks) == {ks[0]} + Elems(ks[1..]);
    }
  }

  lemma {:induction false} ReleaseAllEffect(h: Hid, ks: seq<Key>)
    ensures ReleaseAll(h, ks).keys == h.keys - Elems(ks)
    ensures ReleaseAll(h, ks).log == h.log + Releases(ks)
    decreases |ks|
  {
    if ks != [] {
      ReleaseAllEffect(h.ReleaseKey(ks[0]), ks[1..]);
      assert Elems(ks) == {ks[0]} + Elems(ks[1..]);
    }
  }

  /** One latch: press the group when the flag goes up, release it when the flag goes down, else leave it. */
  function Latch(h: Hid, state: bool, pressed: bool, ks: seq<Key>): (g: Hid) {
    if !state && pressed then PressAll(h, ks)
    else if state && !pressed then ReleaseAll(h, ks)
    else h
  }

  /** The reports of one latch. */
  function LatchReports(state: bool, pressed: bool, ks: seq<Key>): seq<Event> {
    if !state && pressed then Presses(ks) else if state && !pressed then Releases(ks) else []
  }

  /** The latch of game key `e`: the flags with `e` now as wanted, and the sink after pressing or releasing its group. */
  function LatchDir(h: Hid, s: Flags, d: Flags, player: int, e: Dir): (Flags, Hid) {
    (s.With(e, d.Get(e)), Latch(h, s.Get(e), d.Get(e), DirKeys(player, e)))
  }

  /** The order in which a pass latches the game keys. */
  const Order := [Up, Down, Left, Right, Fire]

  /** The latches of `ds`, one after the other. */
  function LatchAll(h: Hid, s: Flags, d: Flags, player: int, ds: seq<Dir>): (Flags, Hid)
    decreases |ds|
  {
    if ds == [] then (s, h)
    else
      var r := LatchDir(h, s, d, player, ds[0]);
      LatchAll(r.1, r.0, d, player, ds[1..])
  }

  /** The five latches of a pass. */
  function Emit(h: Hid, s: Flags, d: Flags, player: int): Hid {
    LatchAll(h, s, d, player, Order).1
  }

  /** A group is wholly held when `b`, wholly released otherwise. */
  predicate Held(b: bool, group: set<Key>, keys: set<Key>) {
    if b then group <= keys else group !! keys
  }

  /** The held keys agree with the last-sent flags, group by group. */
  predicate Consistent(player: int, s: Flags, keys: set<Key>) {
    Held(s.up, Group(player, Up), keys) && Held(s.down, Group(player, Down), keys)
    && Held(s.left, Group(player, Left), keys) && Held(s.right, Group(player, Right), keys)
    && Held(s.space, Group(player, Fire), keys)
  }

  /** The held keys once a group is wholly held (`p`) or wholly released. */
  function Apply(keys: set<Key>, group: set<Key>, p: bool): set<Key> {
    if p then keys + group else keys - group
  }

  /** With its group held exactly when `state`, a latch leaves the group held exactly when `pressed`. */
  lemma LatchKeys(h: Hid, state: bool, pressed: bool, ks: seq<Key>)
    requires Held(state, Elems(ks), h.keys)
    ensures Latch(h, state, pressed, ks).keys == Apply(h.keys, Elems(ks), pressed)
  {
    PressAllEffect(h, ks);
    ReleaseAllEffect(h, ks);
  }

  lemma LatchLog(h: Hid, state: bool, pressed: bool, ks: seq<Key>)
    ensures Latch(h, state, pressed, ks).log == h.log + LatchReports(state, pressed, ks)
  {
    PressAllEffect(h, ks);
    ReleaseAllEffect(h, ks);
  }

  lemma HeldElsewhere(b: bool, other: set<Key>, keys: set<Key>, group: set<Key>, p: bool)
    requires Held(b, other, keys) && group !! other
    ensures Held(b, other, Apply(keys, group, p))
  {
  }

  /** One latch keeps the held keys in agreement with the flags. */
  lemma LatchStep(player: int, s: Flags, d: Flags, h: Hid, e: Dir)
    requires Consistent(player, s, h.keys)
    ensures var r := LatchDir(h, s, d, player, e); Consistent(player, r.0, r.1.keys)
  {
    var p := d.Get(e);
    GroupElems(player, e);
    LatchKeys(h, s.Get(e), p, DirKeys(player, e));
    var g := Group(player, e);
    if e != Up {
      GroupsDisjoint(player, e, Up);
      HeldElsewhere(s.up, Group(player, Up), h.keys, g, p);
    }
    if e != Down {
      GroupsDisjoint(player, e, Down);
      HeldElsewhere(s.down, Group(player, Down), h.keys, g, p);
    }
    if e != Left {
      GroupsDisjoint(player, e, Left);
      HeldElsewhere(s.left, Group(player, Left), h.keys, g, p);
    }
    if e != Right {
      GroupsDisjoint(player, e, Right);
      HeldElsewhere(s.right, Group(player, Right), h.keys, g, p);
    }
    if e != Fire {
      GroupsDisjoint(player, e, Fire);
      HeldElsewhere(s.space, Group(player, Fire), h.keys, g, p);
    }
  }

  /** Any run of latches keeps the held keys in agreement with the flags. */
  lemma {:induction false} LatchAllConsistent(h: Hid, s: Flags, d: Flags, player: int, ds: seq<Dir>)
    requires Consistent(player, s, h.keys)
    ensures var r := LatchAll(h, s, d, player, ds); Consistent(player, r.0, r.1.keys)
    decreases |ds|
  {
    if ds != [] {
      var r := LatchDir(h, s, d, player, ds[0]);
      LatchStep(player, s, d, h, ds[0]);
      LatchAllConsistent(r.1, r.0, d, player, ds[1..]);
    }
  }

  /** A run of latches sets each latched game key's flag as wanted and leaves the others. */
  lemma {:induction false} LatchAllFlags(h: Hid, s: Flags, d: Flags, player: int, ds: seq<Dir>, e: Dir)
    ensures LatchAll(h, s, d, player, ds).0.Get(e) == if e in ds then d.Get(e) else s.Get(e)
    decreases |ds|
  {
    if ds != [] {
      var r := LatchDir(h, s, d, player, ds[0]);
      assert LatchAll(h, s, d, player, ds) == LatchAll(r.1, r.0, d, player, ds[1..]);
      LatchAllFlags(r.1, r.0, d, player, ds[1..], e);
      WithGet(s, ds[0], d.Get(ds[0]), e);
      assert e in ds <==> e == ds[0] || e in ds[1..];
    }
  }

  /** After a pass the flags are the wanted ones, so the next pass starts from them. */
  lemma EmitFlags(h: Hid, s: Flags, d: Flags, player: int)
    ensures LatchAll(h, s, d, player, Order).0 == d
  {
    var f := LatchAll(h, s, d, player, Order).0;
    LatchAllFlags(h, s, d, player, Order, Up);
    LatchAllFlags(h, s, d, player, Order, Down);
    LatchAllFlags(h, s, d, player, Order, Left);
    LatchAllFlags(h, s, d, player, Order, Right);
    LatchAllFlags(h, s, d, player, Order, Fire);
    assert f.up == f.Get(Up) && f.down == f.Get(Down) && f.left == f.Get(Left);
    assert f.right == f.Get(Right) && f.space == f.Get(Fire);
  }

  /** After a pass the held groups agree with the new flags, so they never drift from what was pressed. */
  lemma EmitKeepsConsistent(h: Hid, s: Flags, d: Flags, player: int)
    requires Consistent(player, s, h.keys)
    ensures Consistent(player, d, Emit(h, s, d, player).keys)
  {
    LatchAllConsistent(h, s, d, player, Order);
    EmitFlags(h, s, d, player);
  }

  /** Latching flags that already match what is wanted sends nothing. */
  lemma {:induction false} SteadyLatchAll(h: Hid, d: Flags, player: int, ds: seq<Dir>)
    ensures LatchAll(h, d, d, player, ds) == (d, h)
    decreases |ds|
  {
    if ds != [] {
      assert d.With(ds[0], d.Get(ds[0])) == d;
      SteadyLatchAll(h, d, player, ds[1..]);
    }
  }

  /** Once the flags match what is wanted, a pass sends nothing: no key is pressed twice. */
  lemma SteadySendsNothing(h: Hid, d: Flags, player: int)
    ensures Emit(h, d, d, player) == h
  {
    SteadyLatchAll(h, d, player, Order);
  }

  /** Peeling the first latch off a run. */
  lemma LatchAllHead(h: Hid, s: Flags, d: Flags, player: int, ds: seq<Dir>, s1: Flags, h1: Hid)
    requires ds != [] && (s1, h1) == LatchDir(h, s, d, player, ds[0])
    ensures LatchAll(h, s, d, player, ds) == LatchAll(h1, s1, d, player, ds[1..])
  {
  }

  /** A pass sends, per game key, its group's presses on a rising flag, its releases on a falling flag, and nothing otherwise. */
  lemma EmitReports(h: Hid, s: Flags, d: Flags, player: int)
    ensures Emit(h, s, d, player).log == h.log
      + LatchReports(s.up, d.up, DirKeys(player, Up))
      + LatchReports(s.down, d.down, DirKeys(player, Down))
      + LatchReports(s.left, d.left, DirKeys(player, Left))
      + LatchReports(s.right, d.right, DirKeys(player, Right))
      + LatchReports(s.space, d.space, DirKeys(player, Fire))
  {
    var r1 := LatchDir(h, s, d, player, Up);
    var r2 := LatchDir(r1.1, r1.0, d, player, Down);
    var r3 := LatchDir(r2.1, r2.0, d, player, Left);
    var r4 := LatchDir(r3.1, r3.0, d, player, Right);
    var r5 := LatchDir(r4.1, r4.0, d, player, Fire);
    LatchAllHead(h, s, d, player, Order, r1.0, r1.1);
    LatchAllHead(r1.1, r1.0, d, player, Order[1..], r2.0, r2.1);
    LatchAllHead(r2.1, r2.0, d, player, Order[2..], r3.0, r3.1);
    LatchAllHead(r3.1, r3.0, d, player, Order[3..], r4.0, r4.1);
    LatchAllHead(r4.1, r4.0, d, player, Order[4..], r5.0, r5.1);
    LatchLog(h, s.up, d.up, DirKeys(player, Up));
    LatchLog(r1.1, s.down, d.down, DirKeys(player, Down));
    LatchLog(r2.1, s.left, d.left, DirKeys(player, Left));
    LatchLog(r3.1, s.right, d.right, DirKeys(player, Right));
    LatchLog(r4.1, s.space, d.space, DirKeys(player, Fire));
  }

  /** The reports of one latch: a press of every key of the group on a rising flag, a release of every key on a falling one, none on a steady one. */
  lemma {:induction false} LatchReportsOnChange(state: bool, pressed: bool, ks: seq<Key>)
    ensures var e := LatchReports(state, pressed, ks);
      (state == pressed ==> e == [])
      && (!state && pressed ==> |e| == |ks| && forall i :: 0 <= i < |ks| ==> e[i] == KeyPress(ks[i]))
      && (state && !pressed ==> |e| == |ks| && forall i :: 0 <= i < |ks| ==> e[i] == KeyRelease(ks[i]))
    decreases |ks|
  {
    if ks != [] {
      LatchReportsOnChange(state, pressed, ks[1..]);
    }
  }

  // ---------------------------------------------------------------------
  // The loop

  /** The wanted flags of one pass, computed as the loop body does. */
  method ComputeDesired(l: Levels, xValue: int, yValue: int) returns (f: Flags)
    ensures f == Desired(l, xValue, yValue)
  {
    var upPressed, downPressed, leftPressed, rightPressed, spacePressed := false, false, false, false, false;
    if !l.up {
      upPressed := true;
    } else if !l.down {
      spacePressed := true;
    } else if !l.left {
      leftPressed := true;
    } else if !l.right {
      rightPressed := true;
    } else if !l.joyPress {
      spacePressed := true;
    }
    var leftRight := (xValue - 32768) as real / 32768.0;
    var upDown := (yValue - 32768) as real / -32768.0;
    if leftRight < -0.25 {
      leftPressed := true;
    } else if leftRight > 0.25 {
      rightPressed := true;
    }
    if upDown < -0.25 {
      downPressed := true;
    } else if upDown > 0.25 {
      upPressed := true;
    }
    f := Flags(upPressed, downPressed, leftPressed, rightPressed, spacePressed);
  }

  /** The loop's globals: the player constant, the five `*_state` latches and the keyboard. */
  class ClassicsController {
    const player: int
    var upState: bool
    var downState: bool
    var leftState: bool
    var rightState: bool
    var spaceState: bool
    var keyboard: Hid

    function States(): Flags
      reads this
    {
      Flags(upState, downState, leftState, rightState, spaceState)
    }

    /** Nothing latched and nothing held: the held keys agree with the latches from the start. */
    constructor(player: int)
      ensures this.player == player && States() == NoFlags && keyboard == Idle
      ensures Consistent(player, States(), keyboard.keys)
    {
      this.player := player;
      upState, downState, leftState, rightState, spaceState := false, false, false, false, false;
      keyboard := Idle;
    }

    method LatchUp(f: Flags)
      modifies this
      ensures (States(), keyboard) == LatchDir(old(keyboard), old(States()), f, player, Up)
    {
      var pressed := f.up;
      UnfoldGroup(keyboard, DirKeys(player, Up));
      if !upState && pressed {
        if player == 1 {
          keyboard := keyboard.PressKey(UpArrow);
        } else {
          keyboard := keyboard.PressKey(K);
          keyboard := keyboard.PressKey(W);
        }
        upState := true;
      } else if upState && !pressed {
        if player == 1 {
          keyboard := keyboard.ReleaseKey(UpArrow);
        } else {
          keyboard := keyboard.ReleaseKey(K);
          keyboard := keyboard.ReleaseKey(W);
        }
        upState := false;
      }
    }

    method LatchDown(f: Flags)
      modifies this
      ensures (States(), keyboard) == LatchDir(old(keyboard), old(States()), f, player, Down)
    {
      var pressed := f.down;
      UnfoldGroup(keyboard, DirKeys(player, Down));
      if !downState && pressed {
        if player == 1 {
          keyboard := keyboard.PressKey(DownArrow);
        } else {
          keyboard := keyboard.PressKey(M);
          keyboard := keyboard.PressKey(S);
        }
        downState := true;
      } else if downState && !pressed {
        if player == 1 {
          keyboard := keyboard.ReleaseKey(DownArrow);
        } else {
          keyboard := keyboard.ReleaseKey(M);
          keyboard := keyboard.ReleaseKey(S);
        }
        downState := false;
      }
    }

    method LatchLeft(f: Flags)
      modifies this
      ensures (States(), keyboard) == LatchDir(old(keyboard), old(States()), f, player, Left)
    {
      var pressed := f.left;
      UnfoldGroup(keyboard, DirKeys(player, Left));
      if !leftState && pressed {
        if player == 1 {
          keyboard := keyboard.PressKey(LeftArrow);
        } else {
          keyboard := keyboard.PressKey(A);
        }
        leftState := true;
      } else if leftState && !pressed {
        if player == 1 {
          keyboard := keyboard.ReleaseKey(LeftArrow);
        } else {
          keyboard := keyboard.ReleaseKey(A);
        }
        leftState := false;
      }
    }

    method LatchRight(f: Flags)
      modifies this
      ensures (States(), keyboard) == LatchDir(old(keyboard), old(States()), f, player, Right)
    {
      var pressed := f.right;
      UnfoldGroup(keyboard, DirKeys(player, Right));
      if !rightState && pressed {
        if player == 1 {
          keyboard := keyboard.PressKey(RightArrow);
        } else {
          keyboard := keyboard.PressKey(D);
        }
        rightState := true;
      } else if rightState && !pressed {
        if player == 1 {
          keyboard := keyboard.ReleaseKey(RightArrow);
        } else {
          keyboard := keyboard.ReleaseKey(D);
        }
        rightState := false;
      }
    }

    method LatchSpace(f: Flags)
      modifies this
      ensures (States(), keyboard) == LatchDir(old(keyboard), old(States()), f, player, Fire)
    {
      var pressed := f.space;
      UnfoldGroup(keyboard, DirKeys(player, Fire));
      if !spaceState && pressed {
        if player == 1 {
          keyboard := keyboard.PressKey(Space);
        } else {
          keyboard := keyboard.PressKey(LeftShift);
        }
        spaceState := true;
      } else if spaceState && !pressed {
        if player == 1 {
          keyboard := keyboard.ReleaseKey(Space);
        } else {
          keyboard := keyboard.ReleaseKey(LeftShift);
        }
        spaceState := false;
      }
    }

    /**
     * One pass of the main loop: afterwards every latch equals its wanted
     * flag, the keyboard got exactly the latch reports, and the held keys
     * still agree with the latches.
     */
    method Pass(l: Levels, xValue: int, yValue: int)
      requires Consistent(player, States(), keyboard.keys)
      modifies this
      ensures States() == Desired(l, xValue, yValue)
      ensures keyboard == Emit(old(keyboard), old(States()), Desired(l, xValue, yValue), player)
      ensures Consistent(player, States(), keyboard.keys)
    {
      var f := ComputeDesired(l, xValue, yValue);
      LatchFlags(f);
      EmitKeepsConsistent(old(keyboard), old(States()), f, player);
    }

    /** The five latches of a pass, in the loop body's order. */
    method LatchFlags(f: Flags)
      modifies this
      ensures States() == f
      ensures keyboard == Emit(old(keyboard), old(States()), f, player)
    {
      ghost var s0, h0 := States(), keyboard;
      LatchUp(f);
      ghost var s1, h1 := States(), keyboard;
      LatchDown(f);
      ghost var s2, h2 := States(), keyboard;
      LatchLeft(f);
      ghost var s3, h3 := States(), keyboard;
      LatchRight(f);
      ghost var s4, h4 := States(), keyboard;
      LatchSpace(f);
      LatchAllHead(h0, s0, f, player, Order, s1, h1);
      LatchAllHead(h1, s1, f, player, Order[1..], s2, h2);
      LatchAllHead(h2, s2, f, player, Order[2..], s3, h3);
      LatchAllHead(h3, s3, f, player, Order[3..], s4, h4);
      LatchAllHead(h4, s4, f, player, Order[4..], States(), keyboard);
      EmitFlags(h0, s0, f, player);
    }
  }
}
