/**
 * What the MCU bridge handler promises, proved of the transitions in
 * MackieSteps: the edge tracker, the jog accumulator, the control-change
 * splitter, the jog-mode and scrub correction, the LED toggle, the transport
 * notes, the zoom auto-repeat and its single timer, and the feedback mirror.
 */
module MackieProperties {
  import opened Wrappers
  import opened SpeedEditor
  import opened MackieSteps

  // ---------------------------------------------------------------------------
  // Counting what a step performs

  lemma CountOfSixWhens(c1: bool, c2: bool, c3: bool, c4: bool, c5: bool, c6: bool,
                        x1: Effect, x2: Effect, x3: Effect, x4: Effect, x5: Effect, x6: Effect, e: Effect)
    ensures CountOf(When(c1, x1) + When(c2, x2) + When(c3, x3) + When(c4, x4) + When(c5, x5) + When(c6, x6), e) ==
      Occurs(c1, x1, e) + Occurs(c2, x2, e) + Occurs(c3, x3, e) + Occurs(c4, x4, e) + Occurs(c5, x5, e) + Occurs(c6, x6, e)
  {
    var w1, w2, w3, w4, w5, w6 := When(c1, x1), When(c2, x2), When(c3, x3), When(c4, x4), When(c5, x5), When(c6, x6);
    CountOfAppend(w1 + w2 + w3 + w4 + w5, w6, e);
    CountOfAppend(w1 + w2 + w3 + w4, w5, e);
    CountOfAppend(w1 + w2 + w3, w4, e);
    CountOfAppend(w1 + w2, w3, e);
    CountOfAppend(w1, w2, e);
    CountOfWhen(c1, x1, e);
    CountOfWhen(c2, x2, e);
    CountOfWhen(c3, x3, e);
    CountOfWhen(c4, x4, e);
    CountOfWhen(c5, x5, e);
    CountOfWhen(c6, x6, e);
  }

  /** How often zoom_handle_keys performs `e`: ZOOM once when a zoom key is held
      and zoom mode is off, each direction once when its key is held, and one
      timer start when a zoom key is held and no timer is armed. */
  lemma ZoomEffectsCount(keys: set<SpeedEditorKey>, zoomMode: bool, timerOn: bool, e: Effect)
    ensures var held := AnyZoomKeyHeld(keys);
      CountOf(ZoomEffects(keys, zoomMode, timerOn), e) ==
        Occurs(held && !zoomMode, Note(McuZoom), e) +
        Occurs(In in keys, Note(McuRight), e) +
        Occurs(Out in keys, Note(McuLeft), e) +
        Occurs(TrimIn in keys, Note(McuDown), e) +
        Occurs(TrimOut in keys, Note(McuUp), e) +
        Occurs(held && !timerOn, ZoomTimerStarted, e)
  {
    var held := AnyZoomKeyHeld(keys);
    CountOfSixWhens(held && !zoomMode, In in keys, Out in keys, TrimIn in keys, TrimOut in keys, held && !timerOn,
                    Note(McuZoom), Note(McuRight), Note(McuLeft), Note(McuDown), Note(McuUp), ZoomTimerStarted, e);
  }

  /** How often a jog-mode selection performs `e`: for a JOG-table key one jog
      LED write, one jog mode write and a SCRUB note when the scrub mode is to
      be corrected; nothing for any other key. */
  lemma JogModeEffectsCount(k: SpeedEditorKey, scrubMode: bool, e: Effect)
    ensures CountOf(JogModeEffects(k, scrubMode), e) ==
      if IsJogKey(k) then
        Occurs(true, Device(SetJogLeds(JogTable(k).value.0)), e) +
        Occurs(true, Device(SetJogMode(JogTable(k).value.1)), e) +
        Occurs((k == Shtl) == !scrubMode, Note(McuScrub), e)
      else 0
  {
    if IsJogKey(k) {
      var (led, mode) := JogTable(k).value;
      var w1, w2, w3 := When(true, Device(SetJogLeds(led))), When(true, Device(SetJogMode(mode))),
                        When((k == Shtl) == !scrubMode, Note(McuScrub));
      assert JogModeEffects(k, scrubMode) == w1 + w2 + w3;
      CountOfAppend(w1 + w2, w3, e);
      CountOfAppend(w1, w2, e);
      CountOfWhen(true, Device(SetJogLeds(led)), e);
      CountOfWhen(true, Device(SetJogMode(mode)), e);
      CountOfWhen((k == Shtl) == !scrubMode, Note(McuScrub), e);
    }
  }

  /** How often key_pressed performs `e`: what the jog-mode selection does, one
      LED write, STOP or PLAY for STOP_PLAY, REC for FULL_VIEW, and for a zoom
      key what zoom_handle_keys does. */
  lemma PressEffectsCount(s: HandlerState, k: SpeedEditorKey, table: LedTable, e: Effect)
    ensures CountOf(PressEffects(s, k, table), e) ==
      CountOf(JogModeEffects(k, s.scrubMode), e) +
      Occurs(true, Device(SetLeds(s.leds ^ LedBit(table, k))), e) +
      Occurs(k == StopPlay, Note(if s.playState then McuStop else McuPlay), e) +
      Occurs(k == FullView, Note(McuRec), e) +
      (if IsZoomKey(k) then CountOf(ZoomEffects(s.keys, s.zoomMode, s.zoomTimerOn), e) else 0)
  {
    var a1 := JogModeEffects(k, s.scrubMode);
    var led := Device(SetLeds(s.leds ^ LedBit(table, k)));
    var a3 := When(k == StopPlay, Note(if s.playState then McuStop else McuPlay));
    var a4 := When(k == FullView, Note(McuRec));
    var a5 := if IsZoomKey(k) then ZoomEffects(s.keys, s.zoomMode, s.zoomTimerOn) else [];
    CountOfAppend(a1 + [led] + (a3 + a4), a5, e);
    CountOfAppend(a1 + [led], a3 + a4, e);
    CountOfAppend(a1, [led], e);
    CountOfAppend(a3, a4, e);
    CountOfWhen(true, led, e);
    CountOfWhen(k == StopPlay, Note(if s.playState then McuStop else McuPlay), e);
    CountOfWhen(k == FullView, Note(McuRec), e);
    assert CountOf([], e) == 0;
  }

  // ---------------------------------------------------------------------------
  // Jog mode selection

  /** Selecting a jog mode sends one SCRUB toggle exactly when the mirrored scrub
      mode differs from the one the key wants (on for SHTL, off for JOG and
      SCRL), so a DAW that toggles scrub once per SCRUB note ends up with scrub
      on exactly for SHTL. Apart from that note it only writes the jog LEDs and
      the jog mode, and a key outside the JOG table does nothing. */
  lemma SetJogModeScrub(scrubMode: bool, k: SpeedEditorKey)
    ensures CountOf(JogModeEffects(k, scrubMode), Note(McuScrub)) ==
      if IsJogKey(k) && scrubMode != (k == Shtl) then 1 else 0
    ensures IsJogKey(k) ==>
      (scrubMode != (CountOf(JogModeEffects(k, scrubMode), Note(McuScrub)) == 1)) == (k == Shtl)
    ensures forall e :: e in JogModeEffects(k, scrubMode) ==> e == Note(McuScrub) || e.Device?
    ensures !IsJogKey(k) ==> JogModeEffects(k, scrubMode) == []
  {
    JogModeEffectsCount(k, scrubMode, Note(McuScrub));
  }

  // ---------------------------------------------------------------------------
  // Jog wheel

  /** jog never loses rotation: the whole notches of `value` plus what was
      unsent equal what stays unsent plus the emitted step times the speed
      factor; what stays unsent is below the factor; nothing is sent for a zero
      step and otherwise exactly the control changes of that one step. The
      handler's invariant is kept. */
  lemma JogConserves(s: HandlerState, value: int)
    requires Consistent(s)
    ensures var r := OnJog(s, value);
      var f := SpeedFactor(s.jogMode);
      var q := JogStep(s.jogUnsent, value, f).1;
      && s.jogUnsent + value / NotchUnits == r.jogUnsent + q * f
      && 0 <= r.jogUnsent < f
      && r.effects == s.effects + CcMessages(JogCcValues(q))
      && (q == 0 <==> r.effects == s.effects)
      && Consistent(r)
      && TimerBalance(r) == TimerBalance(s)
  {
    var r := OnJog(s, value);
    var q := JogStep(s.jogUnsent, value, SpeedFactor(s.jogMode)).1;
    assert CcMessages([]) == [];
    if q != 0 {
      assert |CcMessages(JogCcValues(q))| > 0;
    }
    CcMessagesStartNoTimer(JogCcValues(q));
    CountOfAppend(s.effects, CcMessages(JogCcValues(q)), ZoomTimerStarted);
  }

  /** jog keeps the handler's invariant and starts no timer. */
  lemma JogKeeps(s: HandlerState, value: int)
    requires Consistent(s)
    ensures Consistent(OnJog(s, value)) && TimerBalance(OnJog(s, value)) == TimerBalance(s)
  {
    var q := JogStep(s.jogUnsent, value, SpeedFactor(s.jogMode)).1;
    CcMessagesStartNoTimer(JogCcValues(q));
    CountOfAppend(s.effects, CcMessages(JogCcValues(q)), ZoomTimerStarted);
  }

  lemma {:induction false} CcMessagesStartNoTimer(vals: seq<nat>)
    ensures CountOf(CcMessages(vals), ZoomTimerStarted) == 0
    decreases |vals|
  {
    var m := CcMessages(vals);
    if |m| > 0 {
      CcMessagesStartNoTimer(vals[..|vals| - 1]);
      assert m[..|m| - 1] == CcMessages(vals[..|vals| - 1]);
    }
  }

  /** jog_unsent and the emitted steps over a run of wheel deltas under one
      speed factor. Returns the final unsent count and the sum of the steps. */
  function JogSteps(unsent: int, values: seq<int>, factor: int): (r: (int, int))
    requires factor > 0
    ensures |values| > 0 ==> 0 <= r.0 < factor
  {
    if |values| == 0 then (unsent, 0)
    else
      var before := JogSteps(unsent, values[..|values| - 1], factor);
      var step := JogStep(before.0, values[|values| - 1], factor);
      (step.0, before.1 + step.1)
  }

  function TotalNotches(values: seq<int>): int
  {
    if |values| == 0 then 0 else TotalNotches(values[..|values| - 1]) + values[|values| - 1] / NotchUnits
  }

  lemma MulAddDistributes(a: int, b: int, c: int)
    ensures (a + b) * c == a * c + b * c
  {
  }

  /** Over any run of wheel deltas, the emitted steps times the speed factor
      plus the final remainder equal the initial remainder plus all notches
      turned: no rotation is lost or counted twice. */
  lemma {:induction false} JogStepsConserve(unsent: int, values: seq<int>, factor: int)
    requires factor > 0
    ensures var r := JogSteps(unsent, values, factor);
      unsent + TotalNotches(values) == r.0 + r.1 * factor
    decreases |values|
  {
    if |values| > 0 {
      var n := |values| - 1;
      JogStepsConserve(unsent, values[..n], factor);
      var before := JogSteps(unsent, values[..n], factor);
      var step := JogStep(before.0, values[n], factor);
      MulAddDistributes(before.1, step.1, factor);
    }
  }

  /** SHTL, factor 20: twenty notches in one delta emit one step of +1 and leave
      nothing unsent. */
  lemma ShuttleStepScenario(s: HandlerState)
    requires s.jogMode == Shtl && s.jogUnsent == 0
    ensures OnJog(s, 7200) == s.(effects := s.effects + [Send(ControlChange(McuJogCc, 1))])
  {
    assert JogStep(0, 7200, 20) == (0, 1);
    assert JogCcValues(1) == [1];
  }

  /** SCRL, factor 1: two single notches emit two steps of +1. */
  lemma ScrollCarryScenario(s: HandlerState)
    requires s.jogMode == Scrl && s.jogUnsent == 0
    ensures OnJog(OnJog(s, 360), 360) ==
      s.(effects := s.effects + [Send(ControlChange(McuJogCc, 1)), Send(ControlChange(McuJogCc, 1))])
  {
    assert JogStep(0, 360, 1) == (0, 1);
    assert JogCcValues(1) == [1];
  }

  /** With floor division, from an empty accumulator a single notch backwards
      emits a step of -1 at once, whatever the speed factor, and leaves
      factor - 1 notches unsent; forwards it takes a whole factor of notches. */
  lemma BackwardNotchScenario()
    ensures JogStep(0, -360, 20) == (19, -1)
    ensures JogStep(0, 360, 20) == (1, 0)
    ensures JogStep(19, 360, 20) == (0, 1)
  {
  }

  // ---------------------------------------------------------------------------
  // Control-change splitting

  /** A step of 130 goes out as three messages carrying 63, 63 and 4; backwards
      each also carries the sign bit. */
  lemma ClampSplitScenario()
    ensures JogCcValues(130) == [63, 63, 4]
    ensures JogCcValues(-130) == [127, 127, 68]
  {
    assert CcValuesFrom(4, false) == [4];
    assert CcValuesFrom(67, false) == [63, 4];
    assert CcValuesFrom(4, true) == [68];
    assert CcValuesFrom(67, true) == [127, 68];
  }

  /** Each control change's magnitude and sign can be read back from its value:
      the values decode to the step that was split. */
  function DecodeJogCc(vals: seq<nat>): int
  {
    if |vals| == 0 then 0
    else (if SignBitSet(vals[0]) then -CcMagnitude(vals[0]) else CcMagnitude(vals[0])) + DecodeJogCc(vals[1..])
  }

  lemma {:induction false} DecodeCcValuesFrom(remaining: nat, negative: bool)
    ensures DecodeJogCc(CcValuesFrom(remaining, negative)) == if negative then -(remaining as int) else remaining
    decreases remaining
  {
    if remaining > 0 {
      var chunk := if remaining > 63 then 63 else remaining;
      var vals := CcValuesFrom(remaining, negative);
      assert vals[1..] == CcValuesFrom(remaining - chunk, negative);
      DecodeCcValuesFrom(remaining - chunk, negative);
    }
  }

  /** Decoding what send_midi_jog_cc sends gives back the step. */
  lemma JogCcRoundTrip(shift: int)
    ensures DecodeJogCc(JogCcValues(shift)) == shift
  {
    DecodeCcValuesFrom(Abs(shift), shift < 0);
  }

  // ---------------------------------------------------------------------------
  // Zoom

  /** The direction each zoom key nudges: IN right, OUT left, TRIM_IN down,
      TRIM_OUT up. */
  function ZoomDirection(k: SpeedEditorKey): int
    requires IsZoomKey(k)
  {
    if k == In then McuRight else if k == Out then McuLeft else if k == TrimIn then McuDown else McuUp
  }

  /** zoom_handle_keys does nothing at all when no zoom key is held. */
  lemma ZoomHandleKeysIdle(s: HandlerState)
    requires !AnyZoomKeyHeld(s.keys)
    ensures ZoomHandleKeys(s) == s
  {
    assert ZoomEffects(s.keys, s.zoomMode, s.zoomTimerOn) == [];
  }

  /** While a zoom key is held, zoom_handle_keys sends ZOOM only when the DAW
      does not report zoom mode, arms the repeat timer, and starts a timer only
      when none is armed; it never changes how many timers have fired. */
  lemma ZoomHandleKeysTimer(s: HandlerState)
    ensures var z := ZoomEffects(s.keys, s.zoomMode, s.zoomTimerOn);
      AnyZoomKeyHeld(s.keys) ==>
        && ZoomHandleKeys(s).zoomTimerOn
        && CountOf(z, Note(McuZoom)) == (if s.zoomMode then 0 else 1)
        && CountOf(z, ZoomTimerStarted) == (if s.zoomTimerOn then 0 else 1)
    ensures TimerBalance(ZoomHandleKeys(s)) == TimerBalance(s)
  {
    ZoomEffectsCount(s.keys, s.zoomMode, s.zoomTimerOn, Note(McuZoom));
    ZoomEffectsCount(s.keys, s.zoomMode, s.zoomTimerOn, ZoomTimerStarted);
    ZoomHandleKeysBalance(s);
  }

  lemma ZoomHandleKeysBalance(s: HandlerState)
    ensures TimerBalance(ZoomHandleKeys(s)) == TimerBalance(s)
  {
    var z := ZoomEffects(s.keys, s.zoomMode, s.zoomTimerOn);
    ZoomEffectsCount(s.keys, s.zoomMode, s.zoomTimerOn, ZoomTimerStarted);
    CountOfAppend(s.effects, z, ZoomTimerStarted);
  }

  /** zoom_handle_keys sends the direction of every held zoom key exactly once
      and the direction of a zoom key that is not held not at all. */
  lemma ZoomDirectionOnce(s: HandlerState, k: SpeedEditorKey)
    requires IsZoomKey(k)
    ensures CountOf(ZoomEffects(s.keys, s.zoomMode, s.zoomTimerOn), Note(ZoomDirection(k))) ==
      if k in s.keys then 1 else 0
  {
    ZoomEffectsCount(s.keys, s.zoomMode, s.zoomTimerOn, Note(ZoomDirection(k)));
  }

  /** zoom_repeat, run by a timer that was outstanding, retires that timer. It
      arms a new one exactly when a zoom key is still held, so the repeats stop
      once every zoom key is released. */
  lemma ZoomRepeatRetiresTimer(s: HandlerState)
    requires s.zoomTimerOn
    ensures var r := ZoomRepeat(s);
      && TimerBalance(r) == TimerBalance(s) + 1
      && (r.zoomTimerOn <==> AnyZoomKeyHeld(s.keys))
      && (!AnyZoomKeyHeld(s.keys) ==> r == s.(zoomTimerOn := false))
  {
    var t := s.(zoomTimerOn := false);
    ZoomHandleKeysTimer(t);
    if !AnyZoomKeyHeld(s.keys) {
      ZoomHandleKeysIdle(t);
    }
  }

  // ---------------------------------------------------------------------------
  // One key press

  /** How often a press sends the transport note `n` (STOP, PLAY or REC). */
  lemma TransportNoteCount(s: HandlerState, k: SpeedEditorKey, table: LedTable, n: int)
    requires n == McuStop || n == McuPlay || n == McuRec
    ensures CountOf(PressEffects(s, k, table), Note(n)) ==
      Occurs(k == StopPlay, Note(if s.playState then McuStop else McuPlay), Note(n)) +
      Occurs(k == FullView, Note(McuRec), Note(n))
  {
    PressEffectsCount(s, k, table, Note(n));
    JogModeEffectsCount(k, s.scrubMode, Note(n));
    ZoomEffectsCount(s.keys, s.zoomMode, s.zoomTimerOn, Note(n));
  }

  /** Pressing STOP_PLAY sends STOP when the DAW reports playing and PLAY
      otherwise; pressing FULL_VIEW sends REC; no other key sends any of the
      three, and each press sends at most one. */
  lemma KeyPressedTransport(s: HandlerState, k: SpeedEditorKey, table: LedTable)
    ensures var added := PressEffects(s, k, table);
      && CountOf(added, Note(McuStop)) == (if k == StopPlay && s.playState then 1 else 0)
      && CountOf(added, Note(McuPlay)) == (if k == StopPlay && !s.playState then 1 else 0)
      && CountOf(added, Note(McuRec)) == (if k == FullView then 1 else 0)
  {
    TransportNoteCount(s, k, table, McuStop);
    TransportNoteCount(s, k, table, McuPlay);
    TransportNoteCount(s, k, table, McuRec);
  }

  /** A press keeps the handler's invariant and the count of fired timers, and
      changes the jog mode only for a JOG-table key, to that key. */
  lemma KeyPressedKeeps(s: HandlerState, k: SpeedEditorKey, table: LedTable)
    requires Consistent(s)
    ensures var r := KeyPressed(s, k, table);
      && Consistent(r)
      && TimerBalance(r) == TimerBalance(s)
      && r.jogMode == (if IsJogKey(k) then k else s.jogMode)
  {
    KeyPressedBalance(s, k, table);
  }

  lemma KeyPressedBalance(s: HandlerState, k: SpeedEditorKey, table: LedTable)
    ensures TimerBalance(KeyPressed(s, k, table)) == TimerBalance(s)
  {
    var added := PressEffects(s, k, table);
    PressTimerCount(s, k, table);
    CountOfAppend(s.effects, added, ZoomTimerStarted);
  }

  /** A press starts a zoom timer exactly when it is a zoom key pressed while a
      zoom key is held and no timer is armed. */
  lemma PressTimerCount(s: HandlerState, k: SpeedEditorKey, table: LedTable)
    ensures CountOf(PressEffects(s, k, table), ZoomTimerStarted) ==
      (if IsZoomKey(k) && AnyZoomKeyHeld(s.keys) && !s.zoomTimerOn then 1 else 0)
  {
    PressEffectsCount(s, k, table, ZoomTimerStarted);
    JogModeEffectsCount(k, s.scrubMode, ZoomTimerStarted);
    ZoomEffectsCount(s.keys, s.zoomMode, s.zoomTimerOn, ZoomTimerStarted);
  }

  /** A press toggles the key's LED bits; pressing the same key again (after
      releasing it, which changes nothing) restores the mask. A key without an
      LED leaves the mask alone. */
  lemma PressTwiceRestoresLeds(s: HandlerState, k: SpeedEditorKey, table: LedTable)
    ensures KeyPressed(KeyPressed(s, k, table), k, table).leds == s.leds
    ensures k !in table ==> KeyPressed(s, k, table).leds == s.leds
  {
    ToggleTwice(table, s.leds, k);
  }

  // ---------------------------------------------------------------------------
  // A snapshot of held keys

  /** The last JOG-table key of `order`, or `current` when it has none. */
  function LastJogKey(order: seq<SpeedEditorKey>, current: SpeedEditorKey): SpeedEditorKey
  {
    if |order| == 0 then current
    else if IsJogKey(order[|order| - 1]) then order[|order| - 1]
    else LastJogKey(order[..|order| - 1], current)
  }

  /** Pressing the keys of `order` one after another: the LED mask is toggled by
      all of them, the jog mode is that of the last mode key, and the held
      keys, the mirrored DAW flags and the jog accumulator are untouched. */
  lemma PressAllEffect(s: HandlerState, order: seq<SpeedEditorKey>, table: LedTable)
    ensures var r := PressAll(s, order, table);
      && r.keys == s.keys && r.playState == s.playState && r.zoomMode == s.zoomMode
      && r.scrubMode == s.scrubMode && r.jogUnsent == s.jogUnsent
      && r.leds == s.leds ^ XorLeds(table, order)
      && r.jogMode == LastJogKey(order, s.jogMode)
  {
    PressAllFrame(s, order, table);
    PressAllLeds(s, order, table);
    PressAllJogMode(s, order, table);
  }

  lemma {:induction false} PressAllFrame(s: HandlerState, order: seq<SpeedEditorKey>, table: LedTable)
    ensures var r := PressAll(s, order, table);
      && r.keys == s.keys && r.playState == s.playState && r.zoomMode == s.zoomMode
      && r.scrubMode == s.scrubMode && r.jogUnsent == s.jogUnsent
    decreases |order|
  {
    if |order| > 0 {
      PressAllFrame(s, order[..|order| - 1], table);
    }
  }

  lemma {:induction false} PressAllLeds(s: HandlerState, order: seq<SpeedEditorKey>, table: LedTable)
    ensures PressAll(s, order, table).leds == s.leds ^ XorLeds(table, order)
    decreases |order|
  {
    if |order| > 0 {
      PressAllLeds(s, order[..|order| - 1], table);
    }
  }

  lemma {:induction false} PressAllJogMode(s: HandlerState, order: seq<SpeedEditorKey>, table: LedTable)
    ensures PressAll(s, order, table).jogMode == LastJogKey(order, s.jogMode)
    decreases |order|
  {
    if |order| > 0 {
      PressAllJogMode(s, order[..|order| - 1], table);
    }
  }

  /** Pressing the keys of `order` keeps the handler's invariant and the count
      of fired timers, and the log only grows. */
  lemma {:induction false} PressAllKeeps(s: HandlerState, order: seq<SpeedEditorKey>, table: LedTable)
    requires Consistent(s)
    ensures var r := PressAll(s, order, table);
      && Consistent(r)
      && TimerBalance(r) == TimerBalance(s)
      && s.effects <= r.effects
    decreases |order|
  {
    if |order| > 0 {
      var n := |order| - 1;
      PressAllKeeps(s, order[..n], table);
      KeyPressedKeeps(PressAll(s, order[..n], table), order[n], table);
    }
  }

  /** key(): the new snapshot becomes the held set, whatever order the pressed
      keys are visited in the LED mask comes out the same, and an unchanged
      snapshot changes nothing at all. */
  lemma KeySnapshotEffect(s: HandlerState, snapshot: set<SpeedEditorKey>, order: seq<SpeedEditorKey>,
                          other: seq<SpeedEditorKey>, table: LedTable)
    requires Consistent(s)
    requires Enumerates(order, Edges(s.keys, snapshot).1)
    requires Enumerates(other, Edges(s.keys, snapshot).1)
    ensures PressAll(s.(keys := snapshot), order, table).keys == snapshot
    ensures PressAll(s.(keys := snapshot), order, table).leds == PressAll(s.(keys := snapshot), other, table).leds
    ensures snapshot == s.keys ==> PressAll(s.(keys := snapshot), order, table) == s
  {
    var t := s.(keys := snapshot);
    PressAllEffect(t, order, table);
    PressAllEffect(t, other, table);
    XorLedsOrderFree(table, order, other, Edges(s.keys, snapshot).1);
    EnumeratesEmpty(order, Edges(s.keys, snapshot).1);
  }

  /** Press, release, press of one key: the LED mask is back where it started. */
  lemma PressReleasePressScenario(s: HandlerState, k: SpeedEditorKey, table: LedTable)
    requires Consistent(s) && s.keys == {}
    ensures var r1 := PressAll(s.(keys := {k}), [k], table);
      var r2 := PressAll(r1.(keys := {}), [], table);
      var r3 := PressAll(r2.(keys := {k}), [k], table);
      r3.leds == s.leds
  {
    assert [k][..0] == [];
    ToggleTwice(table, s.leds, k);
  }

  // ---------------------------------------------------------------------------
  // Feedback

  /** The receive loop over a run of messages. */
  function ReceiveAll(s: HandlerState, msgs: seq<MidiMessage>): HandlerState
  {
    if |msgs| == 0 then s else ReceiveMessage(ReceiveAll(s, msgs[..|msgs| - 1]), msgs[|msgs| - 1])
  }

  /** The state reported by the last note-on for `note`, if there is one. */
  function LastReport(msgs: seq<MidiMessage>, note: int): Option<bool>
  {
    if |msgs| == 0 then None
    else if msgs[|msgs| - 1].NoteOn? && msgs[|msgs| - 1].note == note then Some(msgs[|msgs| - 1].velocity > 0)
    else LastReport(msgs[..|msgs| - 1], note)
  }

  function Mirrored(report: Option<bool>, before: bool): bool
  {
    if report.Some? then report.value else before
  }

  /** After any run of messages each mirrored flag is what the last note-on for
      its note said, or what it was when there was none; nothing else in the
      handler changes. */
  lemma {:induction false} ReceiveAllLastWins(s: HandlerState, msgs: seq<MidiMessage>)
    ensures var r := ReceiveAll(s, msgs);
      && r == s.(playState := r.playState, zoomMode := r.zoomMode, scrubMode := r.scrubMode)
      && r.playState == Mirrored(LastReport(msgs, McuPlay), s.playState)
      && r.zoomMode == Mirrored(LastReport(msgs, McuZoom), s.zoomMode)
      && r.scrubMode == Mirrored(LastReport(msgs, McuScrub), s.scrubMode)
    decreases |msgs|
  {
    if |msgs| > 0 {
      ReceiveAllLastWins(s, msgs[..|msgs| - 1]);
    }
  }

  /** With play state off, STOP_PLAY sends PLAY; once the DAW reports playing,
      STOP_PLAY sends STOP. */
  lemma StopPlayScenario(s: HandlerState, table: LedTable)
    requires !s.playState
    ensures var added := PressEffects(s, StopPlay, table);
      CountOf(added, Note(McuPlay)) == 1 && CountOf(added, Note(McuStop)) == 0
    ensures var added := PressEffects(ReceiveMessage(s, NoteOn(McuPlay, 127)), StopPlay, table);
      CountOf(added, Note(McuStop)) == 1 && CountOf(added, Note(McuPlay)) == 0
  {
    KeyPressedTransport(s, StopPlay, table);
    KeyPressedTransport(ReceiveMessage(s, NoteOn(McuPlay, 127)), StopPlay, table);
  }
}
