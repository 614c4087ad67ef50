/**
 * Logical buttons: the joystick push button, the four DPad buttons and the
 * three optional auxiliary ("Minecraft") buttons.
 *
 * Every pin is wired with a pull-up, so a debounced level of `true` means
 * "not pressed". The debounce filter itself is an external collaborator:
 * each tick supplies the new debounced level of every pin, and the edges are
 * the ones the filter reports, one tick after a change of level.
 */
module Buttons {

  /** The view a Debouncer gives of one pin after an `update()`. */
  datatype Debounced = Debounced(value: bool, fell: bool, rose: bool) {

    /** Logical pressed: the pin is pulled low. */
    predicate Pressed() { !value }

    predicate PressedEvent() { fell }

    predicate ReleasedEvent() { rose }

    /** One `update()` that settles on the debounced level `level`. */
    function Update(level: bool): (d: Debounced)
      ensures d.value == level
      ensures d.PressedEvent() <==> Pressed() != d.Pressed() && d.Pressed()
      ensures d.ReleasedEvent() <==> Pressed() != d.Pressed() && !d.Pressed()
    {
      Debounced(level, value && !level, !value && level)
    }
  }

  /** A freshly constructed debouncer on an idle (pulled-up) pin. */
  const Released := Debounced(true, false, false)

  /** A button whose pin may be missing (`None` in the constructor). */
  datatype AuxButton = Absent | Wired(d: Debounced) {

    predicate Pressed() { Wired? && d.Pressed() }

    predicate PressedEvent() { Wired? && d.PressedEvent() }

    predicate ReleasedEvent() { Wired? && d.ReleasedEvent() }

    /** An absent button is skipped by `update()`. */
    function Update(level: bool): (b: AuxButton)
      ensures b.Absent? <==> Absent?
      ensures Wired? ==> b == Wired(d.Update(level))
    {
      match this
      case Absent => Absent
      case Wired(d) => Wired(d.Update(level))
    }
  }

  function NewAuxButton(wired: bool): (b: AuxButton)
    ensures b.Wired? <==> wired
    ensures !b.Pressed() && !b.PressedEvent() && !b.ReleasedEvent()
  {
    if wired then Wired(Released) else Absent
  }

  /** PiperDpad. */
  datatype Dpad = Dpad(left: Debounced, right: Debounced, up: Debounced, down: Debounced) {

    /** One `update()` of the four debouncers. */
    function Update(l: DpadLevels): (p: Dpad)
      ensures p.left.value == l.left && p.right.value == l.right
      ensures p.up.value == l.up && p.down.value == l.down
    {
      Dpad(left.Update(l.left), right.Update(l.right), up.Update(l.up), down.Update(l.down))
    }

    predicate AllPressed() {
      up.Pressed() && down.Pressed() && left.Pressed() && right.Pressed()
    }
  }

  datatype DpadLevels = DpadLevels(left: bool, right: bool, up: bool, down: bool)

  const IdleDpad := Dpad(Released, Released, Released, Released)

  /** PiperMineCraftButtons. */
  datatype AuxButtons = AuxButtons(top: AuxButton, middle: AuxButton, bottom: AuxButton) {

    function Update(l: AuxLevels): (a: AuxButtons)
      ensures a.top == top.Update(l.top)
      ensures a.middle == middle.Update(l.middle)
      ensures a.bottom == bottom.Update(l.bottom)
    {
      AuxButtons(top.Update(l.top), middle.Update(l.middle), bottom.Update(l.bottom))
    }
  }

  datatype AuxLevels = AuxLevels(top: bool, middle: bool, bottom: bool)

  /** The constructor: a pin of `None` becomes an absent button. */
  function NewAuxButtons(topWired: bool, middleWired: bool, bottomWired: bool): (a: AuxButtons)
    ensures a.top.Wired? == topWired && a.middle.Wired? == middleWired && a.bottom.Wired? == bottomWired
  {
    AuxButtons(NewAuxButton(topWired), NewAuxButton(middleWired), NewAuxButton(bottomWired))
  }

  /** The button after one `update()` per level in `levels`, in order. */
  function UpdateAll(b: AuxButton, levels: seq<bool>): AuxButton
    decreases |levels|
  {
    if levels == [] then b else UpdateAll(b.Update(levels[0]), levels[1..])
  }

  /** An absent button stays absent and never reports a press or either edge, whatever the pin would have read. */
  lemma {:induction false} AbsentButtonIsInert(levels: seq<bool>)
    ensures UpdateAll(Absent, levels) == Absent
    ensures !UpdateAll(Absent, levels).Pressed()
    ensures !UpdateAll(Absent, levels).PressedEvent() && !UpdateAll(Absent, levels).ReleasedEvent()
    decreases |levels|
  {
    if levels != [] {
      AbsentButtonIsInert(levels[1..]);
    }
  }

  /** A debounced edge fires at most one tick in a row: the tick after an edge has none unless the level changes again. */
  lemma EdgeIsOneTick(d: Debounced, level: bool)
    ensures d.Update(level).Update(level).fell == false
    ensures d.Update(level).Update(level).rose == false
  {
  }
}
