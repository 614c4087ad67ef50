/**
 * The USB HID sink the controllers drive: a keyboard and a mouse.
 *
 * The adafruit_hid Keyboard and Mouse objects are modelled by the set of
 * keys and mouse buttons currently held down and the log of every keyboard
 * and mouse call made so far.
 */
module Hid {

  /** The keycodes the controllers use. */
  datatype Key =
    | UpArrow | DownArrow | LeftArrow | RightArrow
    | Space | A | C | D | E | K | M | Q | S | W | X | Z
    | Control | LeftShift | Escape | F5

  datatype MouseButton = LeftButton | MiddleButton | RightButton

  /** One call into the HID sink. `Move(x, y, wheel)` is `Mouse.move`. */
  datatype Event =
    | KeyPress(key: Key)
    | KeyRelease(key: Key)
    | ButtonPress(button: MouseButton)
    | ButtonRelease(button: MouseButton)
    | Move(x: int, y: int, wheel: int)

  datatype Hid = Hid(keys: set<Key>, buttons: set<MouseButton>, log: seq<Event>) {

    function PressKey(k: Key): (h: Hid)
      ensures h.keys == keys + {k} && h.buttons == buttons
      ensures h.log == log + [KeyPress(k)]
    {
      Hid(keys + {k}, buttons, log + [KeyPress(k)])
    }

    function ReleaseKey(k: Key): (h: Hid)
      ensures h.keys == keys - {k} && h.buttons == buttons
      ensures h.log == log + [KeyRelease(k)]
    {
      Hid(keys - {k}, buttons, log + [KeyRelease(k)])
    }

    function PressButton(b: MouseButton): (h: Hid)
      ensures h.keys == keys && h.buttons == buttons + {b}
      ensures h.log == log + [ButtonPress(b)]
    {
      Hid(keys, buttons + {b}, log + [ButtonPress(b)])
    }

    function ReleaseButton(b: MouseButton): (h: Hid)
      ensures h.keys == keys && h.buttons == buttons - {b}
      ensures h.log == log + [ButtonRelease(b)]
    {
      Hid(keys, buttons - {b}, log + [ButtonRelease(b)])
    }

    function MoveMouse(x: int, y: int, wheel: int): (h: Hid)
      ensures h.keys == keys && h.buttons == buttons
      ensures h.log == log + [Move(x, y, wheel)]
    {
      Hid(keys, buttons, log + [Move(x, y, wheel)])
    }

    /** A press on a pressed edge, else a release on a released edge. */
    function KeyOnEdges(pressedEvent: bool, releasedEvent: bool, k: Key): (h: Hid)
      ensures h.log == log + KeyEdgeReports(pressedEvent, releasedEvent, k)
      ensures (k in h.keys) == HeldAfter(k in keys, pressedEvent, releasedEvent)
      ensures h.buttons == buttons
    {
      if pressedEvent then PressKey(k)
      else if releasedEvent then ReleaseKey(k)
      else this
    }

    /** The same for a mouse button. */
    function ButtonOnEdges(pressedEvent: bool, releasedEvent: bool, b: MouseButton): (h: Hid)
      ensures h.log == log + ButtonEdgeReports(pressedEvent, releasedEvent, b)
      ensures (b in h.buttons) == HeldAfter(b in buttons, pressedEvent, releasedEvent)
      ensures h.keys == keys
    {
      if pressedEvent then PressButton(b)
      else if releasedEvent then ReleaseButton(b)
      else this
    }
  }

  /** Whether a key or button edge-driven by a button is held afterwards: pressed on a pressed edge, released on a released edge, else as before. */
  function HeldAfter(held: bool, pressedEvent: bool, releasedEvent: bool): bool {
    if pressedEvent then true else if releasedEvent then false else held
  }

  /** The report `KeyOnEdges` sends. */
  function KeyEdgeReports(pressedEvent: bool, releasedEvent: bool, k: Key): seq<Event> {
    if pressedEvent then [KeyPress(k)] else if releasedEvent then [KeyRelease(k)] else []
  }

  /** The report `ButtonOnEdges` sends. */
  function ButtonEdgeReports(pressedEvent: bool, releasedEvent: bool, b: MouseButton): seq<Event> {
    if pressedEvent then [ButtonPress(b)] else if releasedEvent then [ButtonRelease(b)] else []
  }

  /** `g` and `h` hold the same keys outside `s`. */
  predicate KeysAgreeOutside(g: set<Key>, h: set<Key>, s: set<Key>) {
    forall k :: k !in s ==> (k in g <==> k in h)
  }

  lemma AgreeAt(g: set<Key>, h: set<Key>, s: set<Key>, k: Key)
    requires KeysAgreeOutside(g, h, s) && k !in s
    ensures k in g <==> k in h
  {
  }

  /** An edge-driven key changes no other key. */
  lemma KeyOnEdgesFrame(h: Hid, pressedEvent: bool, releasedEvent: bool, k: Key)
    ensures KeysAgreeOutside(h.KeyOnEdges(pressedEvent, releasedEvent, k).keys, h.keys, {k})
  {
  }

  /** Nothing held and nothing sent yet: the sink as the controller creates it. */
  const Idle := Hid({}, {}, [])

  /** `h` extends `g`: same reports so far, possibly more after them. */
  predicate Extends(h: Hid, g: Hid) {
    |g.log| <= |h.log| && h.log[..|g.log|] == g.log
  }

  /** The reports sent between `g` and `h`. */
  function Sent(g: Hid, h: Hid): seq<Event>
    requires Extends(h, g)
  {
    h.log[|g.log|..]
  }

  /** A sink whose log is `g`'s log followed by `e` extends `g` by exactly `e`. */
  lemma Appended(g: Hid, h: Hid, e: seq<Event>)
    requires h.log == g.log + e
    ensures Extends(h, g) && Sent(g, h) == e
  {
    assert h.log[..|g.log|] == g.log;
    assert h.log[|g.log|..] == e;
  }
}
