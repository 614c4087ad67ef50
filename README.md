# CommandCenter controllers, modelled in Dafny

The Piper Command Center is a CircuitPython board with an analog joystick
(two axes and a push button), a four-way DPad and up to three auxiliary
"Minecraft" buttons. Over USB it acts as a mouse, a keyboard, or both. This
project models the firmware's controllers as step functions over explicit
state, objects whose methods follow the firmware's `process()` line by line,
and lemmas about them.

- **Joystick axis** (`JoystickAxis`, axis.dfy). `PiperJoystickAxis` turns a 16-bit
  sample into a mouse delta. It normalises the sample to [-1, 1), applies the cubic
  curve, cuts it with a deadband whose edge is shifted so the output is continuous,
  then scales and truncates toward zero.
- **Debouncers** (`Buttons`, buttons.dfy). The joystick button, the DPad and the
  optional auxiliary buttons give a level, a press edge and a release edge. An
  auxiliary button whose pin is `None` is absent and never reports anything.
- **USB output** (`Hid`, hid.dfy). The keyboard and the mouse are one value: the
  keys held, the buttons held, and the log of every keyboard and mouse call made.
- **DotStar LED** (`Indicator`, indicator.dfy). A pulsing red while unarmed, and
  fixed colours after that.
- **Mouse handler** (`MouseHandler`, mouse_handler.dfy). The paced pointer and wheel
  reports and the DPad mouse buttons. Three controllers share this code.
- **Nine-state controller** (`CommandCenterModes`, modes.dfy; object in
  `CommandCenterModesDevice`, modes_device.dfy). `piper_command_center_modes.py`:
  - it arms through UNWIRED and WAITING, as the others do, but after a rest of
    more than 0.5 s rather than the one second the built-in controller waits,
    then acts as a mouse (JOYSTICK);
  - holding the joystick button turns it into a keyboard (KEYBOARD);
  - from there it can enter a Minecraft mode with five sub-modes: default, flying
    down, sprinting, crouching and utility;
  - each change of mode passes through a confirmation state and needs a hold of
    more than a second.

  `demos/gamecontroller.py` runs the same `process()`, with only the serial-command
  call commented out, so these modules model it too.
- **Three-state built-in controller** (`MouseCenter`, mouse_center.dfy).
  `piper_command_center.py` arms after one second of rest and is then a mouse for
  good. Its reports are not paced.
- **Start-up controller** (`UserCodeCenter`, usercode_center.dfy). `code.py`: a
  paced mouse. Holding the joystick button for more than a second hands the board
  to the user's program (USERCODE).
- **"Code the Classics" keyboard** (`Classics`, classics.dfy). It maps the DPad,
  the joystick button and the stick to the arrows or to a second player's keys,
  pressing and releasing a key group only when its wanted state changes.
- **Shared definitions** (`Common`, common.dfy). The `Option` type and the absolute
  value of a real.
- **Blockly helpers** (`Blockly`, blockly.dfy). The console escape for a cursor
  position, the emoji codes, and the three similarity scores for colours, numbers
  and strings.

For each controller a pure function `Step(machine, tick)` is the
specification. The debouncer levels, the two axis readings, the time and the
nanosecond clock of one pass are inputs of the tick. The class's `Process`
method updates its fields in place. Its `ensures` says the snapshot of the
fields afterwards is `Step` of the snapshot before, and that the LED write it
returns is `Led` of the old state. Every lemma about `Step` therefore holds of
the object.

## Model

| member | source | states |
|---|---|---|
| JoystickAxis.NewAxis | piper_joystick.py:46-51 | keeps the three configuration values and derives `alpha` as the cubic's value at the deadband cutoff |
| JoystickAxis.Trunc | piper_joystick.py:74 | Python's `int()` truncates toward zero: the magnitude drops by less than one, never grows, and the sign is kept |
| JoystickAxis.NormalizeInRange | piper_joystick.py:74 | `Normalize` is the sample's `value / 2**15 - 1`: every 16-bit sample normalises into [-1, 1), to 0 exactly at the centre value 32768, and above 0 exactly above it |
| JoystickAxis.CubicOdd | piper_joystick.py:55-56 | `Cubic` is `_Cubic`; the cubic curve is odd and fixes -1 and 1 for every weight |
| JoystickAxis.CubicMonotone | piper_joystick.py:55-56 | for a weight in [0, 1] the cubic never decreases on [0, 1] |
| JoystickAxis.AlphaInUnitInterval | piper_joystick.py:46-51 | with a cutoff in (0, 1) and a weight in [0, 1], `alpha` lies strictly between 0 and 1 |
| JoystickAxis.IntendedIsSafe | piper_joystick.py:46-65 | such a configuration never divides by zero in `_cubicScaledDeadband` |
| JoystickAxis.DeadbandIsZero | piper_joystick.py:61-63 | `CubicScaledDeadband` is `_cubicScaledDeadband` (lines 61-65); inside the deadband the shaped value is 0 |
| JoystickAxis.ContinuousAtCutoff | piper_joystick.py:61-65 | at plus or minus the cutoff the shaped value is already 0, so the shifted formula joins the deadband with no jump |
| JoystickAxis.ShapedOdd | piper_joystick.py:61-65 | the shaped value is odd in its input |
| JoystickAxis.ShapedBounded | piper_joystick.py:61-65 | for an intended configuration the shaped value of any input in [-1, 1] stays in [-1, 1] and keeps the input's sign |
| JoystickAxis.ReadBounded | piper_joystick.py:73-74 | a reading never exceeds the output scale in magnitude and never has the opposite sign to the stick's offset |
| JoystickAxis.ReadInDeadband | piper_joystick.py:61-74 | a sample whose offset from 32768 is under cutoff times 32768 reads exactly 0 |
| JoystickAxis.TruncOdd | piper_joystick.py:74 | truncation toward zero is odd |
| JoystickAxis.ReadOdd | piper_joystick.py:61-74 | samples mirrored about the centre (their sum is 65536) read as exact opposites |
| JoystickAxis.ScaledBounded | piper_joystick.py:61-74 | for an intended configuration the scaled and truncated shaped value of any input in [-1, 1] is at most the output scale in magnitude and never has the opposite sign to the input |
| JoystickAxis.ReadJoystickAxis | piper_joystick.py:73-74 | `readJoystickAxis`: for an intended configuration a reading is at most the output scale in magnitude, non-negative above the centre and non-positive below it; its partners are `ReadBounded`, `ReadOdd` and `ReadInDeadband` |
| Hid.Hid.KeyOnEdges | piper_command_center_modes.py:315-318 | the press-on-fell / release-on-rose idiom: the key is pressed on a press edge, released on a release edge, otherwise left as it was; the reports are exactly those; mouse buttons are untouched |
| Hid.Hid.ButtonOnEdges | piper_command_center_modes.py:302-310 | the same idiom for a mouse button; the keyboard is untouched |
| Hid.KeyOnEdgesFrame | piper_command_center_modes.py:315-318 | only the key named can change |
| Buttons.Debounced.Update | demos/gamecontroller.py:103-120 | the level follows the pin; the press edge holds exactly when the button went from up to down, the release edge exactly when it went from down to up (pressed means a low level) |
| Buttons.AuxButton.Update | demos/gamecontroller.py:242-248 | an absent button stays absent; a wired one updates its debouncer |
| Buttons.NewAuxButton | demos/gamecontroller.py:215-240 | the button is wired exactly when a pin was given, and starts unpressed with no edge |
| Buttons.NewAuxButtons | demos/gamecontroller.py:215-240 | each of top, middle and bottom is wired exactly when its pin was given |
| Buttons.Dpad.Update | demos/gamecontroller.py:159-163 | each DPad debouncer takes its own pin's level |
| Buttons.AuxButtons.Update | demos/gamecontroller.py:242-248 | each auxiliary button is updated on its own pin |
| Buttons.AbsentButtonIsInert | demos/gamecontroller.py:250-302 | through any sequence of updates an absent button stays absent, never reads pressed and never reports an edge |
| Buttons.EdgeIsOneTick | demos/gamecontroller.py:113-120 | an edge lasts a single update: a second update at the same level reports neither edge |
| Indicator.Pulse | piper_command_center_modes.py:203 | the unarmed LED colour is a valid colour with no green and no blue |
| Indicator.PulsePeriodic | piper_command_center_modes.py:203 | the red level steps by one (mod 256) every 2^23 ns and repeats every 256 * 2^23 ns |
| MouseHandler.Wheel | piper_command_center_modes.py:284-288 | the wheel is -1 exactly when DPad up is held, 1 exactly when down but not up is held, else 0 |
| MouseHandler.Motion | piper_command_center_modes.py:290-300 | sends the pointer report only when more than 5 ms have passed and the wheel report only when more than 100 ms have passed, stamping each sent report with the current time; keys and buttons are unchanged |
| MouseHandler.Handle | piper_command_center_modes.py:281-310 | the joystick-state mouse handler: the paced reports, then DPad left and right as the left and right mouse buttons; the middle button and every key are untouched |
| MouseHandler.TimestampsMoveOnlyWithReports | piper_command_center_modes.py:290-300 | a pacing timestamp changes if and only if its interval has elapsed, and then the matching report was sent; the report count is one per timestamp that moved |
| MouseHandler.RateLimited | piper_command_center_modes.py:292-294 | the pacing rule on its own: over any sequence of times, the times at which a pacer fires are each more than its interval after the previous one (the first after the starting timestamp) |
| MouseHandler.HandleRunTimes | piper_command_center_modes.py:290-300 | over any run of handler passes, the passes that send a pointer report are exactly the firing times of a 5 ms pacer, and those that send a wheel report are exactly the firing times of a 100 ms pacer |
| MouseHandler.HandleRunSends | piper_command_center_modes.py:281-310 | over any run of handler passes the log only grows, by one report per pointer time, one per wheel time, and the DPad button reports |
| MouseHandler.HandleRunRateLimited | piper_command_center_modes.py:290-300 | over any run of handler passes, consecutive pointer reports are more than 5 ms apart and consecutive wheel reports more than 100 ms apart |
| CommandCenterModes.McIndex | piper_command_center_modes.py:102-110 | every sub-mode indexes `_MC_JOYSTICK_Z` in range |
| CommandCenterModes.JoystickZKeys | piper_command_center_modes.py:110 | the joystick button is SPACE, LEFT_SHIFT, SPACE, SPACE and F5 in the five sub-modes |
| CommandCenterModes.Initial | piper_command_center_modes.py:113-149 | the controller starts UNWIRED with nothing held and nothing sent |
| CommandCenterModes.ReleaseJoystickHid | piper_command_center_modes.py:158-160 | releases the left and right mouse buttons, in that order, and nothing else |
| CommandCenterModes.ReleaseKeyboardHid | piper_command_center_modes.py:162-170 | releases the four arrows, SPACE, X, Z and C in that order; the mouse is untouched |
| CommandCenterModes.ReleaseMinecraftHid | piper_command_center_modes.py:172-187 | releases all three mouse buttons and the eleven Minecraft keys, in the source's order |
| CommandCenterModes.Transition | piper_command_center_modes.py:200-277 | the state machine leaves the pacing, the Minecraft sub-mode and requests, and the debouncers untouched |
| CommandCenterModes.JoystickHandling | piper_command_center_modes.py:281-310 | the mouse handler changes only the pacing and the USB output |
| CommandCenterModes.ArrowLatch | piper_command_center_modes.py:335-355 | the new flags are "reading negative" and "reading positive"; each arrow key is pressed or released only where its flag changed; every other key is untouched; the reports are `LatchReports` |
| CommandCenterModes.LatchReportsOnChange | piper_command_center_modes.py:335-377 | an arrow is pressed exactly when its flag goes from clear to set, released exactly when it goes from set to clear; one report per changed flag, all of them key reports |
| CommandCenterModes.DpadOnEdges | piper_command_center_modes.py:315-333 | the four DPad directions by the press/release idiom on the given keys; mouse buttons are untouched (its key behaviour is `DpadHeld`) |
| CommandCenterModes.DpadHeld | piper_command_center_modes.py:315-333 | with four distinct keys, each DPad direction drives its own key by the press/release idiom |
| CommandCenterModes.DpadFrame | piper_command_center_modes.py:315-333 | only the four DPad keys can change |
| CommandCenterModes.ArrowKeys | piper_command_center_modes.py:335-377 | the four latch flags afterwards are exactly the signs of the two readings (negative y is up); the mouse is untouched |
| CommandCenterModes.ArrowKeysFrame | piper_command_center_modes.py:335-377 | only the four arrow keys can change |
| CommandCenterModes.ArrowKeysRule | piper_command_center_modes.py:335-377 | each arrow key follows its latch flag: unchanged while the flag is unchanged, and held exactly when the flag is set where it changed |
| CommandCenterModes.KeyboardHandling | piper_command_center_modes.py:314-377 | the keyboard handler changes only the latches and the keys; the mouse is untouched |
| CommandCenterModes.KeyboardFrame | piper_command_center_modes.py:314-377 | it can change only the arrows, SPACE, X, Z and C |
| CommandCenterModes.LatchesFollowStick | piper_command_center_modes.py:335-377 | after any pass that ends in a keyboard state, the latches are the signs of that pass's readings |
| CommandCenterModes.ArrowKeysFollowLatches | piper_command_center_modes.py:314-377 | the whole keyboard handler, DPad keys included, keeps each arrow in step with its latch flag |
| CommandCenterModes.DpadKeepsArrows | piper_command_center_modes.py:315-333 | the DPad half of the keyboard handler never touches an arrow |
| CommandCenterModes.KeyboardStep | piper_command_center_modes.py:314-377 | in a keyboard state the pass is exactly the state machine followed by the keyboard handler |
| CommandCenterModes.Request | piper_command_center_modes.py:384-404 | a request never changes the current sub-mode |
| CommandCenterModes.RequestPriority | piper_command_center_modes.py:384-404 | with the modifier held, the first of the joystick-button, up, down and left press edges selects flying down, sprinting, crouching or utility as the only pending request; with none of them the requests are unchanged |
| CommandCenterModes.RequestKeepsAtMostOne | piper_command_center_modes.py:384-404 | a request leaves at most one sub-mode pending |
| CommandCenterModes.Commit | piper_command_center_modes.py:406-423 | on commit only CONTROL and LEFT_SHIFT can change; CONTROL is held afterwards exactly when it was already held or sprinting was committed; the mouse is untouched |
| CommandCenterModes.CommitTakesPending | piper_command_center_modes.py:406-423 | the commit adopts the pending sub-mode, or default when none is pending (sending nothing); sprinting holds CONTROL and crouching holds LEFT_SHIFT; nothing stays pending |
| CommandCenterModes.CommitClearsRequests | piper_command_center_modes.py:406-423 | from at most one pending request a commit leaves none |
| CommandCenterModes.ModifierHandling | piper_command_center_modes.py:384-423 | without the modifier's release edge, the sub-mode and the USB output are unchanged |
| CommandCenterModes.ModifierFrame | piper_command_center_modes.py:384-423 | only Minecraft keys can change; after a release edge every mouse button is up and CONTROL is held exactly when sprinting |
| CommandCenterModes.AuxHandling | piper_command_center_modes.py:435-454 | the top and middle buttons can change no key but Q |
| CommandCenterModes.AuxMapping | piper_command_center_modes.py:435-454 | in default sub-mode with the modifier held, top is Q and middle is the middle mouse button; otherwise top and middle are the left and right mouse buttons and no key changes |
| CommandCenterModes.ButtonFrame | piper_command_center_modes.py:435-503 | `ButtonHandling` is the auxiliary buttons (lines 435-454) then, unless the modifier is held, the joystick button and the DPad (lines 458-503); together they change only Minecraft keys, and only Q while the modifier is held |
| CommandCenterModes.ButtonsKeepControl | piper_command_center_modes.py:435-454 | the auxiliary buttons never change CONTROL |
| CommandCenterModes.PacedMove | piper_command_center_modes.py:429-431 | the Minecraft pointer report is paced; the wheel timestamp, keys and buttons are untouched |
| CommandCenterModes.UtilityDpad | piper_command_center_modes.py:468-483 | the utility DPad never touches a mouse button |
| CommandCenterModes.UtilityKeys | piper_command_center_modes.py:468-483 | in utility sub-mode DPad left is E and right is ESCAPE, by the press/release idiom |
| CommandCenterModes.UtilityWheel | piper_command_center_modes.py:458-483 | in utility sub-mode the reports are the F5 edge, a wheel step of -1 on an up press, +1 on a down press, then the E and ESCAPE edges, in that order |
| CommandCenterModes.UtilityFrame | piper_command_center_modes.py:468-483 | the utility DPad can change only E and ESCAPE |
| CommandCenterModes.MoveHandling | piper_command_center_modes.py:458-503 | the joystick button and the DPad never touch a mouse button |
| CommandCenterModes.MoveMapping | piper_command_center_modes.py:458-464 | outside utility, the joystick button drives the sub-mode's key, and up, down, left, right drive W, S, A, D |
| CommandCenterModes.UtilityMapping | piper_command_center_modes.py:458-483 | in utility sub-mode the joystick button drives F5 and left/right drive E/ESCAPE |
| CommandCenterModes.MoveFrame | piper_command_center_modes.py:458-503 | only the sub-mode's joystick key and its DPad keys can change |
| CommandCenterModes.MinecraftHandling | piper_command_center_modes.py:381-503 | the Minecraft handler changes only the pacing, the sub-mode state and the USB output |
| CommandCenterModes.MinecraftFrame | piper_command_center_modes.py:381-503 | only Minecraft keys can change; only Q while the modifier is held; without a release edge the sub-mode and CONTROL are kept; with one, CONTROL is held exactly when sprinting |
| CommandCenterModes.Handlers | piper_command_center_modes.py:279-503 | the handlers never change the state, the timer or the debouncers |
| CommandCenterModes.Step | piper_command_center_modes.py:189-503 | one pass updates the debouncers from the tick's levels |
| CommandCenterModes.McColor | piper_command_center_modes.py:257-266 | each sub-mode's LED colour is a valid colour |
| CommandCenterModes.McColorsDistinct | piper_command_center_modes.py:257-266 | the five sub-mode colours differ from one another and from the joystick green and the keyboard blue |
| CommandCenterModes.Led | piper_command_center_modes.py:200-277 | the LED is written, with a valid colour, in every state but the four confirmation states |
| CommandCenterModes.UnwiredArms | piper_command_center_modes.py:202-206 | UNWIRED moves to WAITING exactly when both readings are zero, then stamping the timer; it sends nothing |
| CommandCenterModes.WaitingArms | piper_command_center_modes.py:207-213 | WAITING falls back on any movement, stays while the rest is 0.5 s or less, and arms (running the mouse handler at once) once it is longer; the timer is kept |
| CommandCenterModes.MovingStaysUnwired | piper_command_center_modes.py:202-206 | while the stick keeps moving, the controller stays UNWIRED and silent for any number of passes |
| CommandCenterModes.ArmingStep | piper_command_center_modes.py:202-213 | each pass's possible arming moves, and that once armed the controller never returns to UNWIRED or WAITING |
| CommandCenterModes.RestingSince | piper_command_center_modes.py:202-213 | in WAITING the stick has rested at every pass since the pass whose time is the timer |
| CommandCenterModes.RestWitness | piper_command_center_modes.py:202-213 | an armed run contains a rest of the stick spanning more than 0.5 s |
| CommandCenterModes.ArmingNeedsRest | piper_command_center_modes.py:202-213 | no run from UNWIRED is armed unless the stick rested, at zero on both axes, over a span of more than 0.5 s |
| CommandCenterModes.ArmsWithinOneSecond | piper_command_center_modes.py:209-213 | from power-up, two centred passes any time from just over 0.5 s to 1 s apart already arm the controller |
| CommandCenterModes.JWaitingOutcome | piper_command_center_modes.py:219-225 | a release goes back to JOYSTICK; a hold of more than 1 s enters KEYBOARD with both mouse buttons released; otherwise it waits |
| CommandCenterModes.KeyboardChoosesTarget | piper_command_center_modes.py:226-233 | in KEYBOARD the joystick button starts a confirmation toward Minecraft when the modifier is held and toward JOYSTICK otherwise, stamping the timer |
| CommandCenterModes.KWaitingAbort | piper_command_center_modes.py:234-255 | letting go of either button aborts to KEYBOARD with the four latch flags cleared and nothing sent |
| CommandCenterModes.KWaitingComplete | piper_command_center_modes.py:234-255 | a hold of more than 1 s completes the change with no keyboard key left held |
| CommandCenterModes.MinecraftOutcome | piper_command_center_modes.py:256-270 | MINECRAFT starts the exit confirmation exactly when the joystick button and all four DPad buttons are held |
| CommandCenterModes.MWaitingIsSilent | piper_command_center_modes.py:271-277 | MWAITING returns to MINECRAFT on any release, waits silently, and leaves for JOYSTICK after more than 1 s |
| CommandCenterModes.MinecraftExitReleasesAll | piper_command_center_modes.py:271-277 | leaving Minecraft for JOYSTICK leaves no mouse button and no Minecraft key held |
| CommandCenterModes.AbortStrandsArrow | piper_command_center_modes.py:234-241 | an abort can strand a held arrow: its flag is cleared but the key stays down |
| CommandCenterModes.StrandedArrowStaysHeld | piper_command_center_modes.py:335-356 | a stranded LEFT_ARROW stays held while the stick is not pushed left |
| CommandCenterModes.StaleLatchSuppressesPress | piper_command_center_modes.py:219-225 | the latch flags survive the JOYSTICK visit, so a stale flag means pushing left on entering KEYBOARD sends no press |
| CommandCenterModes.InitialInv | piper_command_center_modes.py:113-149 | the starting state satisfies the invariant `Inv`: at most one pending request, each confirmation state occupied only while its buttons are held, CONTROL held only in the Minecraft states while sprinting |
| CommandCenterModes.StepKeepsRequests | piper_command_center_modes.py:381-423 | a pass never leaves two requests pending |
| CommandCenterModes.TransitionKeepsControlInv | piper_command_center_modes.py:200-277 | the state machine keeps CONTROL confined to sprinting |
| CommandCenterModes.HandlersKeepControlInv | piper_command_center_modes.py:279-503 | so do the handlers |
| CommandCenterModes.StepKeepsControlInv | piper_command_center_modes.py:189-503 | so does a whole pass |
| CommandCenterModes.TransitionHeldStates | piper_command_center_modes.py:200-277 | a confirmation state is entered or kept only while its buttons are held |
| CommandCenterModes.StepKeepsHeldStates | piper_command_center_modes.py:189-277 | after every pass, each confirmation state's buttons are held by the updated debouncers |
| CommandCenterModes.StepKeepsInv | piper_command_center_modes.py:189-503 | every pass preserves `Inv` |
| CommandCenterModes.RunKeepsInv | piper_command_center_modes.py:189-503 | every run of passes preserves `Inv` |
| CommandCenterModesDevice.PiperCommandCenter.constructor | piper_command_center_modes.py:113-149 | the fields start as `Initial`, with both axes built from the given configuration |
| CommandCenterModesDevice.PiperCommandCenter.Process | piper_command_center_modes.py:189-503 | the fields after a pass are `Step` of the fields before, for the axis readings of the raw samples; the LED write is `Led` of the old state |
| CommandCenterModesDevice.PiperCommandCenter.UpdateDebouncers | piper_command_center_modes.py:192-195 | the three debouncer groups are updated from their levels and nothing else changes |
| CommandCenterModesDevice.PiperCommandCenter.StateMachine | piper_command_center_modes.py:200-277 | the in-place state machine is `Transition`, and its LED write is `Led` |
| CommandCenterModesDevice.PiperCommandCenter.JWaitingStep | piper_command_center_modes.py:219-225 | the JWAITING branch is `Transition` |
| CommandCenterModesDevice.PiperCommandCenter.KWaitingStep | piper_command_center_modes.py:234-255 | the two KWAITING branches are `Transition` |
| CommandCenterModesDevice.PiperCommandCenter.MWaitingStep | piper_command_center_modes.py:271-277 | the MWAITING branch is `Transition` |
| CommandCenterModesDevice.PiperCommandCenter.ReleaseJoystickHid | piper_command_center_modes.py:158-160 | changes only the USB output, as the release function does |
| CommandCenterModesDevice.PiperCommandCenter.ReleaseKeyboardHid | piper_command_center_modes.py:162-170 | changes only the USB output, as the release function does |
| CommandCenterModesDevice.PiperCommandCenter.ReleaseMinecraftHid | piper_command_center_modes.py:172-187 | changes only the USB output, as the release function does |
| CommandCenterModesDevice.PiperCommandCenter.ClearLatches | piper_command_center_modes.py:237-240 | clears the four latch flags and nothing else |
| CommandCenterModesDevice.PiperCommandCenter.RunHandlers | piper_command_center_modes.py:279-503 | the handler dispatch on the new state is `Handlers` |
| CommandCenterModesDevice.PiperCommandCenter.JoystickHandling | piper_command_center_modes.py:281-310 | the in-place mouse handler is `JoystickHandling` |
| CommandCenterModesDevice.PiperCommandCenter.Motion | piper_command_center_modes.py:284-300 | the paced reports and timestamps are `MouseHandler.Motion` |
| CommandCenterModesDevice.PiperCommandCenter.KeyboardHandling | piper_command_center_modes.py:314-377 | the in-place keyboard handler is `KeyboardHandling` |
| CommandCenterModesDevice.PiperCommandCenter.DpadKeys | piper_command_center_modes.py:315-333 | the DPad as SPACE, X, Z and C |
| CommandCenterModesDevice.PiperCommandCenter.ArrowKeys | piper_command_center_modes.py:335-377 | both latches together are `ArrowKeys` |
| CommandCenterModesDevice.PiperCommandCenter.HorizontalArrows | piper_command_center_modes.py:335-355 | the dx latch is `ArrowLatch` on LEFT_ARROW and RIGHT_ARROW |
| CommandCenterModesDevice.PiperCommandCenter.VerticalArrows | piper_command_center_modes.py:357-377 | the dy latch is `ArrowLatch` on UP_ARROW and DOWN_ARROW |
| CommandCenterModesDevice.PiperCommandCenter.LatchLeft | piper_command_center_modes.py:336-352 | sets the left flag, sending a press or release only when it changes |
| CommandCenterModesDevice.PiperCommandCenter.LatchRight | piper_command_center_modes.py:339-355 | sets the right flag, sending a press or release only when it changes |
| CommandCenterModesDevice.PiperCommandCenter.LatchUp | piper_command_center_modes.py:358-374 | sets the up flag, sending a press or release only when it changes |
| CommandCenterModesDevice.PiperCommandCenter.LatchDown | piper_command_center_modes.py:361-377 | sets the down flag, sending a press or release only when it changes |
| CommandCenterModesDevice.PiperCommandCenter.MinecraftHandling | piper_command_center_modes.py:381-503 | the in-place Minecraft handler is `MinecraftHandling` |
| CommandCenterModesDevice.PiperCommandCenter.ModifierHandling | piper_command_center_modes.py:384-423 | the in-place modifier is `ModifierHandling` |
| CommandCenterModesDevice.PiperCommandCenter.RequestMode | piper_command_center_modes.py:384-404 | the in-place request is `Request` |
| CommandCenterModesDevice.PiperCommandCenter.CommitMode | piper_command_center_modes.py:406-423 | the in-place commit is `Commit` |
| CommandCenterModesDevice.PiperCommandCenter.CommitOther | piper_command_center_modes.py:415-423 | the crouching, utility and default commits are `Commit` |
| CommandCenterModesDevice.PiperCommandCenter.PacedMove | piper_command_center_modes.py:429-431 | the in-place paced pointer report is `PacedMove` |
| CommandCenterModesDevice.PiperCommandCenter.AuxHandling | piper_command_center_modes.py:435-454 | the in-place top and middle buttons are `AuxHandling` |
| CommandCenterModesDevice.PiperCommandCenter.MoveHandling | piper_command_center_modes.py:458-503 | the in-place joystick button and DPad are `MoveHandling` |
| MouseCenter.Initial | piper_command_center.py:121-160 | starts UNWIRED with nothing held and nothing sent |
| MouseCenter.MouseStep | piper_command_center.py:196-215 | the mouse calls never touch a key |
| MouseCenter.MouseStepSends | piper_command_center.py:196-215 | every armed pass sends the pointer and wheel reports unpaced, then the DPad button edges, and the buttons follow the edges |
| MouseCenter.Transition | piper_command_center.py:181-215 | the state machine leaves the DPad alone |
| MouseCenter.Step | piper_command_center.py:170-215 | a pass updates the DPad from its levels |
| MouseCenter.Led | piper_command_center.py:181-194 | the LED is written every pass, green exactly when armed |
| MouseCenter.UnwiredArms | piper_command_center.py:181-185 | UNWIRED moves to WAITING exactly when both readings are zero, stamping the timer; nothing is sent |
| MouseCenter.WaitingArms | piper_command_center.py:186-192 | one pass in WAITING: movement falls back to UNWIRED; at rest it arms exactly when more than 1 s has passed since the timer that UNWIRED set; the timer is kept and nothing is sent |
| MouseCenter.ArmingStep | piper_command_center.py:181-192 | only UNWIRED and WAITING lead to UNWIRED or WAITING; entering WAITING or arming needs zero readings, and arming needs more than 1 s since the timer |
| MouseCenter.RestingSince | piper_command_center.py:181-192 | in WAITING the stick has rested at every pass since the pass whose time is the timer |
| MouseCenter.RestWitness | piper_command_center.py:181-192 | an armed run contains a rest of the stick spanning more than 1 s |
| MouseCenter.ArmingNeedsRest | piper_command_center.py:181-192 | no run from UNWIRED is armed unless the stick rested, at zero on both axes, over a span of more than 1 s |
| MouseCenter.JoystickIsTerminal | piper_command_center.py:193-215 | JOYSTICK has no way out, and each of its passes sends exactly `MouseReports` |
| MouseCenter.JoystickForever | piper_command_center.py:181-215 | once armed the controller stays a mouse for any number of passes, and its log only grows |
| MouseCenter.UnarmedIsSilent | piper_command_center.py:181-192 | nothing is sent before arming |
| MouseCenter.MouseCommandCenter.constructor | piper_command_center.py:121-160 | the fields start as `Initial`, with both axes built from the given configuration |
| MouseCenter.MouseCommandCenter.DriveMouse | piper_command_center.py:196-215 | the in-place JOYSTICK branch is `MouseStep` |
| MouseCenter.MouseCommandCenter.Process | piper_command_center.py:170-215 | the fields after a pass are `Step` of the fields before; the LED write is `Led` of the old state |
| UserCodeCenter.Initial | code.py:206-236 | starts UNWIRED with nothing held and nothing sent |
| UserCodeCenter.Transition | code.py:246-290 | the state machine leaves the pacing and the debouncers alone |
| UserCodeCenter.Handlers | code.py:292-323 | the mouse handler never changes the state, the timer or the debouncers |
| UserCodeCenter.Step | code.py:238-323 | a pass updates the debouncers from their levels |
| UserCodeCenter.Led | code.py:248-290 | the LED is written in every state but JWAITING, and turned black on the hand-off |
| UserCodeCenter.UnwiredArms | code.py:248-252 | UNWIRED moves to WAITING exactly when both readings are zero; nothing is sent |
| UserCodeCenter.WaitingArms | code.py:253-259 | one pass in WAITING: movement falls back to UNWIRED; at rest it arms exactly when more than 0.5 s has passed since the timer that UNWIRED set; the timer is kept |
| UserCodeCenter.ArmingStep | code.py:248-272 | only UNWIRED and WAITING lead to UNWIRED or WAITING; entering WAITING or arming needs zero readings, and arming needs more than 0.5 s since the timer |
| UserCodeCenter.RestingSince | code.py:248-259 | in WAITING the stick has rested at every pass since the pass whose time is the timer |
| UserCodeCenter.RestWitness | code.py:248-272 | an armed run contains a rest of the stick spanning more than 0.5 s |
| UserCodeCenter.ArmingNeedsRest | code.py:248-272 | no run from UNWIRED leaves UNWIRED/WAITING unless the stick rested, at zero on both axes, over a span of more than 0.5 s |
| UserCodeCenter.JWaitingOutcome | code.py:265-272 | a release returns to JOYSTICK; a hold of more than 1 s releases both mouse buttons and enters USERCODE without driving the mouse again |
| UserCodeCenter.UserCodeIsTerminal | code.py:273-290 | in USERCODE nothing changes but the debouncers |
| UserCodeCenter.UserCodeForever | code.py:273-290 | once in USERCODE, every later pass stays there and sends nothing |
| UserCodeCenter.MouseOnlyInJoystickStates | code.py:294-323 | the mouse is driven only in JOYSTICK and JWAITING, and there the reports are the paced motion and the DPad buttons |
| UserCodeCenter.UserCodeCommandCenter.constructor | code.py:206-236 | the fields start as `Initial` |
| UserCodeCenter.UserCodeCommandCenter.StateMachine | code.py:246-290 | the in-place state machine is `Transition`, with its LED write |
| UserCodeCenter.UserCodeCommandCenter.Motion | code.py:297-313 | the paced reports and timestamps are `MouseHandler.Motion` |
| UserCodeCenter.UserCodeCommandCenter.RunHandlers | code.py:292-323 | the in-place handler is `Handlers` |
| UserCodeCenter.UserCodeCommandCenter.Process | code.py:238-323 | the fields after a pass are `Step` of the fields before; the LED write is `Led` of the old state |
| Classics.DirKeys | demos/Code-the-Classics.py:207-274 | each direction sends one or two keys |
| Classics.GroupsDisjoint | demos/Code-the-Classics.py:207-274 | for either player, different directions use disjoint key groups |
| Classics.ButtonPriority | demos/Code-the-Classics.py:168-182 | the first pressed of up, down, left, right and the joystick button wins; DPad down means SPACE, never DOWN; at most one flag is set |
| Classics.Thresholds | demos/Code-the-Classics.py:188-202 | a quarter of the stick's travel is the raw values 24576 and 40960; the vertical axis is flipped |
| Classics.DesiredFlags | demos/Code-the-Classics.py:162-202 | `Desired` is the flag computation of these lines; a direction is wanted exactly when its button won or the stick is past the threshold; DOWN comes from the stick alone; SPACE from the buttons alone |
| Classics.LatchReportsOnChange | demos/Code-the-Classics.py:207-220 | a group is pressed key by key when its flag goes from clear to wanted, released key by key when it goes from set to unwanted, and nothing is sent otherwise |
| Classics.LatchStep | demos/Code-the-Classics.py:207-274 | one latch keeps every group held exactly when its flag is set |
| Classics.LatchAllConsistent | demos/Code-the-Classics.py:207-274 | so does any sequence of latches |
| Classics.LatchAllFlags | demos/Code-the-Classics.py:207-274 | `LatchAll` runs the latch blocks of these lines in the given order; after a sequence of latches, a direction's flag is the wanted one if it was latched and the old one otherwise |
| Classics.EmitFlags | demos/Code-the-Classics.py:207-274 | `Emit` runs the five latch blocks in the source's order (up, down, left, right, space); after the five latches the flags are exactly the wanted flags |
| Classics.EmitKeepsConsistent | demos/Code-the-Classics.py:207-274 | after the five latches each key group is held exactly when its wanted flag is set |
| Classics.EmitReports | demos/Code-the-Classics.py:207-274 | the reports of a pass are the up, down, left, right and space groups' changes, in that order |
| Classics.SteadySendsNothing | demos/Code-the-Classics.py:207-274 | a pass whose wanted flags equal the sent flags sends nothing |
| Classics.ComputeDesired | demos/Code-the-Classics.py:162-202 | the loop's flag computation is `Desired` |
| Classics.ClassicsController.constructor | demos/Code-the-Classics.py:139-146 | all flags clear and nothing held, so flags and keys agree |
| Classics.ClassicsController.LatchUp | demos/Code-the-Classics.py:207-220 | the up latch, in place, is `LatchDir` for Up |
| Classics.ClassicsController.LatchDown | demos/Code-the-Classics.py:222-235 | the down latch is `LatchDir` for Down |
| Classics.ClassicsController.LatchLeft | demos/Code-the-Classics.py:237-248 | the left latch is `LatchDir` for Left |
| Classics.ClassicsController.LatchRight | demos/Code-the-Classics.py:250-261 | the right latch is `LatchDir` for Right |
| Classics.ClassicsController.LatchSpace | demos/Code-the-Classics.py:263-274 | the space latch is `LatchDir` for Fire |
| Classics.ClassicsController.LatchFlags | demos/Code-the-Classics.py:204-274 | the five latches set the flags to the wanted flags and send `Emit` |
| Classics.ClassicsController.Pass | demos/Code-the-Classics.py:155-274 | one loop iteration sets the flags to `Desired`, sends `Emit`, and keeps every key group held exactly when its flag is set |
| Blockly.Clamp | piper_blockly.py:225 | `min(255, max(0, v))`: in [0, 255], the identity there, 0 below and 255 above |
| Blockly.ConsolePosition | piper_blockly.py:222-231 | every escape starts with the control code 2 and has at least three codes |
| Blockly.ConsolePositionBytes | piper_blockly.py:222-231 | every code is in 0..255 and none is 10 (a newline): a 10 is sent as 9 plus a trailing flag |
| Blockly.ConsolePositionRoundTrip | piper_blockly.py:222-231 | given where the escape ends, a receiver decoding it recovers exactly the clamped position, 10 included; on the console stream the 3-code form followed by a printed chr(4) reads like the 4-code form |
| Blockly.EmojiCharacter | piper_blockly.py:242-262 | a known emotion maps to a control code in 20..29 |
| Blockly.EmojiCodes | piper_blockly.py:242-262 | the i-th emotion maps to code 20 + i |
| Blockly.EmojiKnown | piper_blockly.py:242-262 | there is a code exactly for the ten listed names; any other name gives `None` |
| Blockly.EmojiInjective | piper_blockly.py:242-262 | different names never share a code |
| Blockly.Distance | piper_blockly.py:267 | the channel distance of two colours in range is at most 765 |
| Blockly.ColorCompareAsWritten | piper_blockly.py:264-270 | the value as the code computes it is non-negative and at most 100 for colours in range |
| Blockly.ColorCompareReversed | piper_blockly.py:264-270 | as written, a colour compared with itself scores 0 and black against white scores 100, the reverse of the documented meaning |
| Blockly.ColorCompare | piper_blockly.py:264-270 | the corrected score is in [0, 100] for colours in range and is 100 minus the value as written |
| Blockly.ColorCompareMeaning | piper_blockly.py:264-270 | corrected: 100 exactly for the same colour, 0 for black against white, symmetric |
| Blockly.NumberCompare | piper_blockly.py:272-278 | comparing 0 with 0 hits the division by zero and gives 0, although the comment promises 100 for the same numbers |
| Blockly.NumberCompareMeaning | piper_blockly.py:272-278 | the score is in [0, 100] and symmetric; it is 100 exactly for equal nonzero numbers and 0 exactly when the numbers do not share a sign |
| Blockly.StringCompare | piper_blockly.py:280-289 | two empty strings hit the division by zero and give 0, although the comment promises 100 for the same strings |
| Blockly.StringCompareJaccard | piper_blockly.py:280-289 | the score is the Jaccard index of the two character sets, as a percentage |
| Blockly.StringCompareMeaning | piper_blockly.py:280-289 | the score is in [0, 100] and symmetric; it is 100 exactly when the character sets are equal and non-empty, and 0 exactly when they share no character |

## Left out

- Pins, the analog reads and the USB devices are not modelled as hardware. Each pass takes the debounced pin levels and the raw 16-bit samples as inputs, and keyboard and mouse calls become an event log on a value.
- The DotStar LED is not written. Each pass returns the colour written, if any, and brightness and `deinit` are not modelled.
- The debouncer's filter interval is not modelled. Each update is given the already debounced level, and then the edges are derived.
- Buttons.Released, the starting value of every modelled debouncer, is the released level, whereas the library's debouncer starts from the pin's level at construction. The two differ only in the edges of the first pass. No controller can observe that: every controller starts in UNWIRED, whose first pass runs no handler and reads no edge, and the classics demo reads only the level.
- The log records every call made into the keyboard and mouse objects, `move(0, 0, 0)` included. Which calls the HID library turns into USB reports is not modelled; adafruit_hid is not part of this model.
- MouseHandler.HandleRunRateLimited is stated over runs of the mouse handler alone. It is not restated over the controllers' runs, where passes in other states skip the handler and the Minecraft mode also stamps the pointer timestamp.
- `piper_command_center.py` mixes tabs and spaces at lines 155-160 and 181-215. The model reads those lines with the nesting their indentation shows, as if the file ran.
- Time is an input. The firmware reads `time.monotonic()` several times within one pass; the model uses one `now` per pass, and the nanosecond clock is a separate input.
- The `while True` loops are one `Process` or `Pass` per call. `Run` folds a finite sequence of passes.
- `process_repl_cmds` is not modelled, because it runs `exec` on a line read from the serial port.
- USERCODE is modelled as a terminal state. The hand-off itself is not modelled: the `deinit` calls, `__import__("usercode")`, the printed error and `supervisor.reload()`.
- Floating point is modelled as exact real arithmetic, so IEEE rounding is not captured. The input `-0.0` to `copysign` cannot arise and is not modelled.
- JoystickAxis.ReadJoystickAxis requires a configuration that cannot divide by zero (`alpha != 1` or cutoff above 1). The firmware would raise `ZeroDivisionError` for any other configuration; only the default arguments are used.
- KeyboardLayoutUS, the joystick ground pin and the touch pins of the classics demo are not modelled; they send nothing.
- Classics.ClassicsController: `player` is a constructor argument rather than the module constant 1, so both key maps are covered.
- `isNumber`, `consoleClear`, `playSound`, `shout` and the sensor, pin and DotStar wrapper classes in `piper_blockly.py` are not modelled. They only print or read hardware.
- Blockly.ConsolePosition takes integers. The `int(x)` conversion of other inputs is not modelled, and the result is the list of character codes rather than the printed text; a code of 128 or more prints as two UTF-8 bytes.
- Blockly.EmojiCharacter returns the code rather than the one-character string.
- Blockly.ColorCompare, Blockly.NumberCompare and Blockly.StringCompare take well-typed inputs. The `except` branches that return 0 for malformed arguments are modelled only for the division by zero they also catch.
- `boot.py`, `usercode.py` and the other demo programs are not part of this model.
- `piper_command_center.py` in the repository has no `PiperJoystickZ`, `PiperDpad` or `PiperMineCraftButtons`, yet the nine-state controller imports them from it. The model uses the classes of the same names in `demos/gamecontroller.py`.

## Findings

| source | as written | input that shows it | evidently intended | confidence | as-written member | corrected member |
|---|---|---|---|---|---|---|
| piper_command_center_modes.py:209-213 | WAITING arms once more than 0.5 s have passed since the stick came to rest (the same test is at demos/gamecontroller.py:434) | power-up, then centred passes at 0.0 s and 0.6 s: the second pass is already in JOYSTICK | the header comment at line 29 asks for the stick to stay centred for one second, the rule `piper_command_center.py` keeps; the comment may instead be stale | not executed | CommandCenterModes.ArmsWithinOneSecond | MouseCenter.ArmingNeedsRest |
| piper_blockly.py:264-270 | the result is the colour distance scaled to 0..100, so equal colours score 0 | `colorCompare((0,0,0), (0,0,0))` gives 0 and black against white gives 100 | the comment promises 0 for opposite colours and 100 for the same colour, i.e. 100 minus that value | not executed | Blockly.ColorCompareAsWritten | Blockly.ColorCompare |

The nine-state controller's model keeps the code's 0.5 s (`CommandCenterModes.ARMING_DELAY`), since `code.py` arms after 0.5 s too and the comment may be the stale part. The one-second rule the comment describes is the built-in controller's, and `MouseCenter.ArmingNeedsRest` proves it there: no run arms without a rest of more than 1 s.

The arrow-latch lemmas `CommandCenterModes.AbortStrandsArrow`, `StrandedArrowStaysHeld` and `StaleLatchSuppressesPress` describe behaviour of the nine-state controller that may surprise a user: a held arrow key stranded by an abort, and a stale flag that swallows the next press. They are not rows of this table, because the code does not say which repair its authors would want. Releasing the arrows on abort and keeping the flags in step with the keys are both plausible, and either would change other observable output. The model follows the code as written, and the three lemmas pin that behaviour down.
