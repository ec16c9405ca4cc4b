# Speed Editor handlers

This project models the two handlers that sit on top of the Blackmagic Speed
Editor driver:

- **The MCU bridge** (`MackieHandler`). It turns snapshots of held keys and jog
  wheel deltas into Mackie Control (MCU) MIDI messages for a DAW, and mirrors
  the play, zoom and scrub state the DAW reports back.
- **The demo handler** (`DemoHandler`). It selects a key's jog mode and toggles
  the key's LED when the key is released.

The modules:

- `Wrappers`: `Option` and `Result`.
- `SpeedEditor`: the driver's vocabulary. It has the keys, the jog LEDs and
  modes, and the register writes a handler makes (`DeviceCall`). It also holds
  the key-to-LED table, with a key that has no LED flag mapping to 0. The XOR
  fold `XorLeds` is proved independent of the order in which a set of keys is
  visited.
- `MackieSteps`: the bridge's entry points and their parts as pure
  transitions on `HandlerState`: start-up (`Initial`), MIDI feedback
  (`ReceiveMessage`), jog (`OnJog`), jog-mode selection, one key press
  (`KeyPressed`), a run of presses (`PressAll`), zoom handling and the zoom
  repeat. `HandlerState` holds every field of the handler plus one ordered log
  of effects. An effect is a MIDI message sent, a device register written, or
  a zoom-repeat timer started. `key` itself, `key_released` and the port
  lookup have no transition of their own: the first is the set difference
  `Edges` followed by `PressAll`, the second does nothing, and the lookup is
  the function `FindDeviceInList`.
- `MackieProperties`: what the bridge promises, proved of those transitions:
  - the edge tracker;
  - jog accumulation with no rotation lost;
  - the 63-per-message splitter and its decoding round trip;
  - the scrub correction;
  - the LED toggle;
  - the transport notes;
  - zoom auto-repeat with at most one timer outstanding;
  - the feedback mirror.
- `Mackie`: the class `MackieHandler`. It has the source's fields and one
  method per source method. The entry points (the constructor, `Open`,
  `OnFeedback`, `Jog`, `Key` with its `PressKeys` loop, `KeyPressed` and
  `ZoomRepeat`) are proved to leave the state that the matching transition
  computes and to keep the invariant `Valid()`. Under `Valid()`, every timer
  started has fired except the one the `zoomTimerOn` flag says is armed, and
  the ghost field `timersFired` counts the timers that have fired. The helpers
  they call (`SetJogModeForKey`, `ToggleLed`, `SendTransport`, `ZoomForKey`,
  `SendMidiNote`, `SendMidiJogCc`, `SetZoomMode`, `SetZoomTimer`,
  `ZoomHandleKeys`, `JogBody`, `KeyPressedBody`) are specified field by field:
  which fields they set and exactly what they append to the log.
  `ReleaseKeys` and `KeyReleased` change nothing.
- `Demo`: the class `DemoHandler`, and the release fold `ReleaseAll` that its
  `Key` method is proved against.

### Where the bridge and the demo handler differ

- **LED toggle.** The bridge toggles a key's LED on press (`key_pressed`,
  speed-editor-to-mackie.py:131-133), and its `key_released` does nothing
  (lines 124-125). The demo toggles a key's LED on release
  (speed-editor-demo.py:42-49).
- **Initial jog mode.** The bridge selects JOG at start-up
  (speed-editor-to-mackie.py:60); the demo selects SCRL
  (speed-editor-demo.py:23). The bridge has no jog mode before that first
  selection; `Initial` uses `Scrl` as a placeholder, and it is overwritten at
  once.
- **Demo SHTL mode.** The demo programs SHTL as `ABSOLUTE_DEADZERO`; the bridge
  uses `RELATIVE_2` for all three mode keys.

### Edge cases modelled as written

- **Backward notches.** `//` is floor division, which equals Dafny's `/` for
  the positive speed factors. So from an empty accumulator a single notch
  backwards emits a step of -1 at once, while forwards it takes a whole speed factor of notches
  (`BackwardNotchScenario`).
- **Port lookup with an empty name.** `find_device_in_list` tests the match
  for truth, so a matching name that is the empty string fails too. That can
  only match when the prefix is empty. It is modelled as written.

## Model

| member | source | states |
|---|---|---|
| SpeedEditor.ToggleTwice | speed-editor-to-mackie.py:132 | XOR-ing a key's bits twice restores the mask; a key without an LED leaves it unchanged |
| SpeedEditor.XorLedsOrderFree | speed-editor-to-mackie.py:121-133 | any two orders of visiting the same set of pressed keys toggle the mask by the same bits |
| MackieSteps.SpeedFactor | speed-editor-to-mackie.py:29-33 | the speed factor of each JOG-table key is between 1 and 20 |
| MackieSteps.FirstWithPrefix | speed-editor-to-mackie.py:69 | the index of the first name starting with the prefix; none exactly when no name does |
| MackieSteps.FindDeviceInList | speed-editor-to-mackie.py:68-72 | success returns a name from the list that starts with the prefix, with no earlier name starting with it, and that name is not empty; failure happens exactly when no name matches or the first match is empty, and carries the device and the list |
| MackieSteps.ReceiveMessage | speed-editor-to-mackie.py:78-84 | a note-on for PLAY, ZOOM or SCRUB sets exactly that flag to velocity > 0; every other message and every other field is left unchanged |
| MackieSteps.CcValue | speed-editor-to-mackie.py:153-154 | OR-ing the magnitude with the sign bit `int(neg) << 6` gives the magnitude plus 64 for a backward step |
| MackieSteps.BitOrHighBit | speed-editor-to-mackie.py:154 | OR-ing a value below 2^k with 2^k adds the two |
| MackieSteps.CcValueFields | speed-editor-to-mackie.py:150-154 | a value built from a magnitude of 1 to 63 and a sign is at most 127 and reads back as that magnitude and sign |
| MackieSteps.CcValuesFrom | speed-editor-to-mackie.py:149-156 | the loop's values: none exactly for 0; each at most 127, with the sign bit set exactly for a backward step and a magnitude of 1 to 63; all but the last carry 63; the magnitudes sum to what remained |
| MackieSteps.JogCcValues | speed-editor-to-mackie.py:147-156 | for a step `shift`: nothing exactly when shift is 0; values at most 127 with bit 6 set exactly when shift < 0; magnitudes 1..63, all but the last 63, summing to abs(shift) |
| MackieSteps.CcMessages | speed-editor-to-mackie.py:155 | one control change on controller 0x3c per value, in order |
| MackieSteps.JogTable | speed-editor-to-mackie.py:23-27 | definition: the three mode keys with their jog LEDs, all RELATIVE_2; proved properties: JogModeEffectsCount, SetJogModeScrub |
| MackieSteps.SendMidiJogCc | speed-editor-to-mackie.py:147-156 | definition: the log gains CcMessages(JogCcValues(shift)); proved properties: JogConserves, JogCcRoundTrip, CcMessagesStartNoTimer |
| MackieSteps.SetJogModeForKey | speed-editor-to-mackie.py:86-93 | a key outside the JOG table changes nothing; a JOG-table key becomes the jog mode; nothing but the jog mode and the log changes, so the unsent accumulator survives a mode switch |
| MackieSteps.Initial | speed-editor-to-mackie.py:50-60 | no keys, mask 0, every flag off, nothing unsent, jog mode JOG; the log is the mask write, then the JOG LED and mode writes, with no SCRUB note |
| MackieSteps.JogStep | speed-editor-to-mackie.py:97-105 | the old unsent count plus the whole notches equals the new unsent count plus step times factor, and the new unsent count is in [0, factor) |
| MackieSteps.OnJog | speed-editor-to-mackie.py:95-106 | jog changes only the unsent count and the log |
| MackieSteps.ZoomEffects | speed-editor-to-mackie.py:172-186 | definition; proved properties: ZoomEffectsCount, ZoomDirectionOnce |
| MackieSteps.ZoomHandleKeys | speed-editor-to-mackie.py:172-186 | definition; proved properties: ZoomHandleKeysIdle, ZoomHandleKeysTimer, ZoomHandleKeysBalance |
| MackieSteps.ZoomRepeat | speed-editor-to-mackie.py:162-164 | zoom_repeat changes only the timer flag and the log |
| MackieSteps.Edges | speed-editor-to-mackie.py:114-117 | released = old keys minus snapshot and pressed = snapshot minus old keys (both directions); they are disjoint, and the old keys less released plus pressed is the snapshot; an unchanged snapshot gives neither |
| MackieSteps.JogModeEffects | speed-editor-to-mackie.py:86-93 | definition; proved properties: JogModeEffectsCount, SetJogModeScrub |
| MackieSteps.TransportEffects | speed-editor-to-mackie.py:135-140 | definition; proved properties: TransportNoteCount, KeyPressedTransport |
| MackieSteps.KeyPressed | speed-editor-to-mackie.py:127-142 | definition; proved properties: PressEffectsCount, KeyPressedTransport, KeyPressedKeeps, KeyPressedBalance, PressTimerCount, PressTwiceRestoresLeds |
| MackieSteps.PressAll | speed-editor-to-mackie.py:121-122 | definition; proved properties: PressAllEffect, PressAllFrame, PressAllLeds, PressAllJogMode, PressAllKeeps, KeySnapshotEffect |
| MackieProperties.JogModeEffectsCount | speed-editor-to-mackie.py:86-93 | for a JOG-table key the selection writes its jog LED once and its jog mode once, and sends SCRUB once exactly when `(k == SHTL) == not scrub_mode`; for any other key it does nothing |
| MackieProperties.SetJogModeScrub | speed-editor-to-mackie.py:86-93 | exactly one SCRUB note is sent when the mirrored scrub mode differs from SHTL-ness, so toggling leaves scrub on exactly for SHTL; the selection sends nothing but device writes and that note; a non-table key sends nothing |
| MackieProperties.ZoomEffectsCount | speed-editor-to-mackie.py:172-186 | zoom handling sends ZOOM once when a zoom key is held and zoom mode is off, each direction once when its key is held, and starts one timer when a zoom key is held and none is armed |
| MackieProperties.PressEffectsCount | speed-editor-to-mackie.py:127-142 | how often a press performs an effect: the jog-mode selection's count, one LED write, STOP or PLAY for STOP_PLAY, REC for FULL_VIEW, and the zoom effects for a zoom key |
| MackieProperties.JogConserves | speed-editor-to-mackie.py:97-106 | no rotation is lost: old unsent + notches == new unsent + q * f; 0 <= new unsent < f; the log gains exactly the control changes of step q, and nothing exactly when q == 0; the invariant and the timer count are kept |
| MackieProperties.JogKeeps | speed-editor-to-mackie.py:95-106 | jog keeps the handler's invariant and starts no timer |
| MackieProperties.CcMessagesStartNoTimer | speed-editor-to-mackie.py:147-156 | sending control changes starts no timer |
| MackieProperties.JogSteps | speed-editor-to-mackie.py:97-105 | after at least one wheel delta the unsent count is in [0, factor) |
| MackieProperties.JogStepsConserve | speed-editor-to-mackie.py:97-105 | over any run of deltas, the initial unsent count plus all notches equals the final unsent count plus the sum of the steps times the factor |
| MackieProperties.ShuttleStepScenario | speed-editor-to-mackie.py:97-106 | in SHTL mode, 20 notches at once send one control change of value 1 and leave nothing unsent |
| MackieProperties.ScrollCarryScenario | speed-editor-to-mackie.py:97-106 | in SCRL mode, two single notches send two control changes of value 1 |
| MackieProperties.BackwardNotchScenario | speed-editor-to-mackie.py:97-105 | at factor 20, one notch back emits -1 and leaves 19; one notch forward emits nothing; 19 plus one forward emits 1 |
| MackieProperties.ClampSplitScenario | speed-editor-to-mackie.py:147-156 | a step of 130 is sent as 63, 63, 4, and a step of -130 as 127, 127, 68 |
| MackieProperties.DecodeCcValuesFrom | speed-editor-to-mackie.py:149-156 | the signed magnitudes of the loop's values add up to the signed remainder |
| MackieProperties.JogCcRoundTrip | speed-editor-to-mackie.py:147-156 | decoding the values sent for a step gives back the step |
| MackieProperties.ZoomHandleKeysIdle | speed-editor-to-mackie.py:172-186 | with no zoom key held, zoom handling sends nothing and arms nothing |
| MackieProperties.ZoomHandleKeysTimer | speed-editor-to-mackie.py:172-186 | with a zoom key held: the timer ends up armed, ZOOM is sent exactly when zoom mode is off, and a timer is started exactly when none was armed; the count of fired timers stays the same |
| MackieProperties.ZoomHandleKeysBalance | speed-editor-to-mackie.py:166-170 | zoom handling never changes the number of started-and-fired timers |
| MackieProperties.ZoomDirectionOnce | speed-editor-to-mackie.py:177-184 | IN→RIGHT, OUT→LEFT, TRIM_IN→DOWN, TRIM_OUT→UP is sent once when its key is held and not at all otherwise |
| MackieProperties.ZoomRepeatRetiresTimer | speed-editor-to-mackie.py:162-170 | firing retires the outstanding timer, re-arms exactly when a zoom key is still held, and with none held changes nothing but the flag |
| MackieProperties.TransportNoteCount | speed-editor-to-mackie.py:135-140 | a press sends STOP, PLAY or REC only through the transport branch: no jog-mode selection and no zoom handling sends any of them |
| MackieProperties.KeyPressedTransport | speed-editor-to-mackie.py:135-140 | STOP_PLAY sends STOP when playing and PLAY otherwise; FULL_VIEW sends REC; no other key sends any of the three |
| MackieProperties.KeyPressedKeeps | speed-editor-to-mackie.py:127-142 | a press keeps the invariant and the timer count, and changes the jog mode only for a JOG-table key, to that key |
| MackieProperties.KeyPressedBalance | speed-editor-to-mackie.py:141-142 | a press, zoom handling included, never changes the number of started-and-fired timers |
| MackieProperties.PressTimerCount | speed-editor-to-mackie.py:141-142 | a press starts a timer exactly when it is a zoom key pressed while a zoom key is held and no timer is armed |
| MackieProperties.PressTwiceRestoresLeds | speed-editor-to-mackie.py:124-133 | pressing a key twice restores the LED mask; a key without an LED leaves it unchanged |
| MackieProperties.PressAllEffect | speed-editor-to-mackie.py:121-133 | pressing a sequence of keys toggles the mask by all their bits, leaves the last mode key as jog mode, and keeps the held keys, flags and unsent count |
| MackieProperties.PressAllFrame | speed-editor-to-mackie.py:121-122 | presses never change the held keys, the mirrored flags or the unsent count |
| MackieProperties.PressAllLeds | speed-editor-to-mackie.py:121-133 | after a run of presses the mask is the old mask XOR the bits of every pressed key |
| MackieProperties.PressAllJogMode | speed-editor-to-mackie.py:121-129 | after a run of presses the jog mode is that of the last mode key pressed |
| MackieProperties.PressAllKeeps | speed-editor-to-mackie.py:121-122 | a run of presses keeps the invariant and the timer count, and only appends to the log |
| MackieProperties.KeySnapshotEffect | speed-editor-to-mackie.py:114-122 | after key() the held set is the snapshot; the mask does not depend on the iteration order of the pressed set; an unchanged snapshot changes nothing at all |
| MackieProperties.PressReleasePressScenario | speed-editor-to-mackie.py:118-133 | press, release, press of one key gives the starting LED mask back |
| MackieProperties.ReceiveAll | speed-editor-to-mackie.py:76-84 | definition: the receive loop as ReceiveMessage over a run of messages; proved properties: ReceiveAllLastWins |
| MackieProperties.ReceiveAllLastWins | speed-editor-to-mackie.py:76-84 | after any run of messages each flag shows the last note-on for its note, or its old value when there was none; nothing else changes |
| MackieProperties.StopPlayScenario | speed-editor-to-mackie.py:136-137 | with play off STOP_PLAY sends PLAY; after the DAW reports PLAY on, it sends STOP |
| Mackie.MackieHandler.constructor | speed-editor-to-mackie.py:50-60 | the state setup leaves the Initial state, with no ports open and the invariant established |
| Mackie.MackieHandler.Open | speed-editor-to-mackie.py:61-64 | construction fails exactly when a port lookup fails, with the output lookup's error first; on success the handler is fresh and valid and holds both looked-up names |
| Mackie.MackieHandler.OnFeedback | speed-editor-to-mackie.py:77-84 | one received message updates the state as ReceiveMessage and keeps the invariant |
| Mackie.MackieHandler.SetJogModeForKey | speed-editor-to-mackie.py:86-93 | the jog mode becomes a JOG-table key and is otherwise unchanged; the log gains exactly the jog-mode effects |
| Mackie.MackieHandler.Jog | speed-editor-to-mackie.py:95-106 | the new state is OnJog of the old one, and the invariant is kept |
| Mackie.MackieHandler.JogBody | speed-editor-to-mackie.py:97-106 | the unsent count and the log are those JogStep and the control-change splitter give |
| Mackie.MackieHandler.Key | speed-editor-to-mackie.py:108-122 | the pressed keys are handled in some order that enumerates snapshot minus old keys; the new state is those presses applied with the snapshot held; the invariant is kept |
| Mackie.MackieHandler.ReleaseKeys | speed-editor-to-mackie.py:118-119 | key_released for every released key leaves the whole handler state unchanged |
| Mackie.MackieHandler.PressKeys | speed-editor-to-mackie.py:121-122 | every pressed key is handled exactly once, and the state is that of the presses in the order reported |
| Mackie.MackieHandler.KeyReleased | speed-editor-to-mackie.py:124-125 | a release changes nothing |
| Mackie.MackieHandler.KeyPressed | speed-editor-to-mackie.py:127-142 | the new state is MackieSteps.KeyPressed of the old one, and the invariant is kept |
| Mackie.MackieHandler.KeyPressedBody | speed-editor-to-mackie.py:127-142 | the jog mode, mask, timer flag and log after the four parts of key_pressed |
| Mackie.MackieHandler.ToggleLed | speed-editor-to-mackie.py:131-133 | the mask is XOR-ed with the key's bits and the new mask is written to the device |
| Mackie.MackieHandler.SendTransport | speed-editor-to-mackie.py:135-140 | the log gains exactly the transport notes |
| Mackie.MackieHandler.ZoomForKey | speed-editor-to-mackie.py:141-142 | zoom handling happens for a zoom key only |
| Mackie.MackieHandler.SendMidiNote | speed-editor-to-mackie.py:144-145 | one note-on with velocity 127 is appended |
| Mackie.MackieHandler.SendMidiJogCc | speed-editor-to-mackie.py:147-156 | the loop appends exactly the control changes of JogCcValues(shift) |
| Mackie.MackieHandler.SetZoomMode | speed-editor-to-mackie.py:158-160 | ZOOM is sent exactly when zoom mode is off |
| Mackie.MackieHandler.ZoomRepeat | speed-editor-to-mackie.py:162-164 | firing the armed timer gives MackieSteps.ZoomRepeat, counts one fired timer and keeps the invariant |
| Mackie.MackieHandler.SetZoomTimer | speed-editor-to-mackie.py:166-170 | the timer ends up armed, and a timer is started only when none was armed |
| Mackie.MackieHandler.ZoomHandleKeys | speed-editor-to-mackie.py:172-186 | the timer flag and the log after zoom handling are those of MackieSteps.ZoomHandleKeys |
| Demo.JogModeCalls | speed-editor-demo.py:25-29 | selecting a jog mode never writes the LED mask and writes at most two registers; LastLedsJogModeCalls builds on it, and DemoHandler.SetJogModeForKey is proved against it |
| Demo.DemoJogTable | speed-editor-demo.py:11-15 | definition: SHTL as an absolute wheel with a dead zone, JOG and SCRL relative; used by JogModeCalls and the constructor |
| Demo.ReleaseStep | speed-editor-demo.py:44-49 | definition; proved properties: ReleaseStepMirrors, ReplayLeds (a run of release steps toggles by all their bits); DemoHandler.ReleaseKey is proved against it |
| Demo.ReleaseStepMirrors | speed-editor-demo.py:47-49 | one release ends by writing its new mask to the device, and the earlier writes stay as they were |
| Demo.ReleaseAll | speed-editor-demo.py:42-49 | definition; proved properties: ReleaseAllReplay, ReleaseAllLeds, ReleaseAllMirrors, ReleaseAllIgnoresPressed, ReleaseAllNone |
| Demo.Released | speed-editor-demo.py:42-43 | the released keys are exactly the keys held before and missing now |
| Demo.ReleaseAllReplay | speed-editor-demo.py:42-49 | the loop releases exactly the keys held before and missing now, in the previous snapshot's order |
| Demo.ReplayLeds | speed-editor-demo.py:47-49 | releasing a sequence of keys toggles the mask by all their LED bits |
| Demo.ReleaseAllLeds | speed-editor-demo.py:42-49 | the loop toggles the mask by exactly the LED bits of the released keys |
| Demo.ReleaseAllMirrors | speed-editor-demo.py:47-49 | after the loop the last mask written to the device is the handler's mask, and writes are only appended |
| Demo.ReleaseAllIgnoresPressed | speed-editor-demo.py:42-43 | keys that are only in the new snapshot never change anything |
| Demo.ReleaseAllNone | speed-editor-demo.py:41-51 | a snapshot that still holds every previous key, an identical one in particular, changes neither the mask nor the jog mode and writes nothing |
| Demo.LastLedsJogModeCalls | speed-editor-demo.py:25-29 | selecting a jog mode does not change the last mask written |
| Demo.DemoHandler.constructor | speed-editor-demo.py:18-23 | no keys, mask 0; the device receives mask 0, then the SCRL jog LED and RELATIVE_2 |
| Demo.DemoHandler.SetJogModeForKey | speed-editor-demo.py:25-29 | the writes appended are exactly JogModeCalls |
| Demo.DemoHandler.Key | speed-editor-demo.py:34-51 | the stored keys become the snapshot; the new state is ReleaseAll of the old one; the mask is the old mask XOR the bits of the released keys; writes are only appended; the device shows the mask |
| Demo.DemoHandler.ReleaseMissing | speed-editor-demo.py:42-49 | the loop over the previous snapshot gives ReleaseAll |
| Demo.DemoHandler.ReleaseKey | speed-editor-demo.py:44-49 | one release selects the key's jog mode, toggles its bits and writes the new mask |

## Left out

- MIDI I/O through `mido` (speed-editor-to-mackie.py:61-64, 77, 145, 155). Port names are parameters of `Open`. A sent message is appended to the handler's log, and a received message is the parameter of `OnFeedback`.
- Threads and timers (speed-editor-to-mackie.py:65-66, 169-170). The zoom timer is the `zoomTimerOn` flag plus a `ZoomTimerStarted` effect, and `ZoomRepeat` stands for the timer firing. Interleavings of the receive thread, the timer thread and the poll loop, on fields shared without locks, are not modelled.
- `ZOOM_REPEAT_TIME` (speed-editor-to-mackie.py:35): a floating-point delay. Only the armed/idle logic is kept.
- The `bmd` driver (`SpeedEditor`, `authenticate`, `poll`, `set_leds`, `set_jog_leds`, `set_jog_mode`). It is foreign code and is not part of this model. Its register writes are recorded as `DeviceCall` values. The `SpeedEditorLed` flags are a key-to-bits table passed to the constructors, and they are assumed to fit in 32 bits (`bv32`).
- `print` logging (speed-editor-to-mackie.py:109-112; speed-editor-demo.py:32, 35-39), so the demo's `jog` does nothing that is modelled. Also the demo's `battery` (speed-editor-demo.py:53-54) and both `__main__` loops (speed-editor-to-mackie.py:189-195; speed-editor-demo.py:57-65).
- The `mode` argument of the bridge's `jog`. The source ignores it, and so does the model.
- Mackie.MackieHandler.Open: when a lookup fails, the source raises after `set_leds` and the jog-mode writes have reached the device. The model returns only the error, not those writes.
- Mackie.MackieHandler.Key: Python's set iteration order is unspecified, so the order of the pressed keys is a ghost result known only to enumerate the pressed set. The LED mask is proved independent of it. The order of the log entries is not.
- MIDI messages other than note-on are reduced to `NoteOff`, `ControlChange` and `OtherMessage`, because the feedback step only looks at note-on messages.
