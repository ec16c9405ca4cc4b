/**
 * The MCU bridge handler as an object: the fields the source's MackieHandler
 * updates, and one method per method of the source. The entry points (the
 * constructor, Open, OnFeedback, Jog, Key with PressKeys, KeyPressed and
 * ZoomRepeat) are proved to leave the handler in the state the matching
 * transition of MackieSteps computes, and to keep the handler's invariant,
 * under which at most one zoom repeat timer is outstanding. The helpers they call are
 * specified field by field: which fields they set and exactly what they
 * append to the log.
 */
module Mackie {
  import opened Wrappers
  import opened SpeedEditor
  import opened MackieSteps
  import MackieProperties

  /** The port prefixes: the handler sends on the output port whose name starts
      with "mackieIn" and listens on the input port whose name starts with
      "mackieOut" (the two ends of a virtual MIDI loop). */
  const MidiInDevice: string := "mackieIn"
  const MidiOutDevice: string := "mackieOut"

  class MackieHandler {
    /** The LED flag of each key that has one (the device driver's LED enum). */
    const ledTable: LedTable

    var keys: set<SpeedEditorKey>
    var leds: bv32
    var playState: bool
    var zoomMode: bool
    var scrubMode: bool
    var jogUnsent: int
    var jogMode: SpeedEditorKey
    var zoomTimerOn: bool

    /** Everything sent to the DAW, written to the device or scheduled, in order. */
    var effects: seq<Effect>

    /** The names of the opened MIDI ports ("" until opened). */
    var midiOut: string
    var midiIn: string

    /** How many zoom repeat timers have fired so far. */
    ghost var timersFired: nat

    function State(): HandlerState
      reads this
    {
      HandlerState(keys, leds, playState, zoomMode, scrubMode, jogUnsent, jogMode, zoomTimerOn, effects)
    }

    /** The jog mode is a JOG-table key, less than one step is unsent, and every
        timer started has fired except the one the flag says is armed. */
    ghost predicate Valid()
      reads this
    {
      Consistent(State()) && timersFired == TimerBalance(State())
    }

    /** __init__'s state setup: LEDs off and pushed to the device, flags off,
        jog mode JOG. */
    constructor (ledTable: LedTable)
      ensures this.ledTable == ledTable
      ensures State() == Initial()
      ensures midiOut == "" && midiIn == ""
      ensures Valid()
    {
      this.ledTable := ledTable;
      zoomTimerOn := false;
      keys := {};
      leds := 0;
      effects := [Device(SetLeds(0))];
      playState := false;
      zoomMode := false;
      scrubMode := false;
      jogUnsent := 0;
      jogMode := Scrl;
      midiOut := "";
      midiIn := "";
      timersFired := 0;
      new;
      SetJogModeForKey(SpeedEditorKey.Jog);
      assert effects == [Device(SetLeds(0))] + JogModeEffects(SpeedEditorKey.Jog, false);
      CountOfAbsent(effects, ZoomTimerStarted);
    }

    /** __init__ in full: the state setup, then the lookup of the output and the
        input port, failing with the first lookup that fails. */
    static method Open(ledTable: LedTable, outputNames: seq<string>, inputNames: seq<string>)
      returns (r: Result<MackieHandler, LookupError>)
      ensures r.Failure? <==>
        FindDeviceInList(MidiInDevice, outputNames).Failure? || FindDeviceInList(MidiOutDevice, inputNames).Failure?
      ensures r.Failure? ==>
        r.error == (if FindDeviceInList(MidiInDevice, outputNames).Failure?
                    then FindDeviceInList(MidiInDevice, outputNames).error
                    else FindDeviceInList(MidiOutDevice, inputNames).error)
      ensures r.Success? ==>
        && fresh(r.value) && r.value.Valid() && r.value.State() == Initial() && r.value.ledTable == ledTable
        && r.value.midiOut == FindDeviceInList(MidiInDevice, outputNames).value
        && r.value.midiIn == FindDeviceInList(MidiOutDevice, inputNames).value
    {
      var h := new MackieHandler(ledTable);
      var outName := FindDeviceInList(MidiInDevice, outputNames);
      if outName.Failure? {
        return Failure(outName.error);
      }
      h.midiOut := outName.value;
      var inName := FindDeviceInList(MidiOutDevice, inputNames);
      if inName.Failure? {
        return Failure(inName.error);
      }
      h.midiIn := inName.value;
      return Success(h);
    }

    /** One message of receive_thread's loop. */
    method OnFeedback(msg: MidiMessage)
      requires Valid()
      modifies this
      ensures State() == ReceiveMessage(old(State()), msg)
      ensures unchanged(`midiOut, `midiIn, `timersFired)
      ensures Valid()
    {
      if msg.NoteOn? {
        if msg.note == McuPlay {
          playState := msg.velocity > 0;
        }
        if msg.note == McuZoom {
          zoomMode := msg.velocity > 0;
        }
        if msg.note == McuScrub {
          scrubMode := msg.velocity > 0;
        }
      }
    }

    /** _set_jog_mode_for_key. */
    method SetJogModeForKey(k: SpeedEditorKey)
      modifies `jogMode, `effects
      ensures jogMode == if IsJogKey(k) then k else old(jogMode)
      ensures effects == old(effects) + JogModeEffects(k, scrubMode)
    {
      if !IsJogKey(k) {
        return;
      }
      jogMode := k;
      var (led, mode) := JogTable(k).value;
      effects := effects + [Device(SetJogLeds(led))];
      effects := effects + [Device(SetJogMode(mode))];
      if (k == Shtl) == !scrubMode {
        SendMidiNote(McuScrub);
      }
      assert effects == old(effects) + JogModeEffects(k, scrubMode);
    }

    /** jog: the wheel moved by `value` raw units; the device's jog mode is not
        used. */
    method Jog(mode: SpeedEditorJogMode, value: int)
      requires Valid()
      modifies `jogUnsent, `effects
      ensures State() == OnJog(old(State()), value)
      ensures Valid()
    {
      ghost var s := State();
      JogBody(value);
      OnJogFields(s, value, State());
      MackieProperties.JogKeeps(s, value);
    }

    /** The statements of jog: accumulate whole notches, send the whole steps
        of the current speed factor and keep the remainder. */
    method JogBody(value: int)
      requires IsJogKey(jogMode)
      modifies `jogUnsent, `effects
      ensures jogUnsent == JogStep(old(jogUnsent), value, SpeedFactor(jogMode)).0
      ensures effects == old(effects) + CcMessages(JogCcValues(JogStep(old(jogUnsent), value, SpeedFactor(jogMode)).1))
    {
      var notches := value / NotchUnits;
      jogUnsent := jogUnsent + notches;
      var speedFactor := SpeedFactor(jogMode);
      var valueToSend := jogUnsent / speedFactor;
      if valueToSend == 0 {
        AppendEmpty(effects);
        return;
      }
      jogUnsent := jogUnsent - valueToSend * speedFactor;
      SendMidiJogCc(valueToSend);
    }

    /** key: a new snapshot of held keys. The released keys are handled first,
        then the pressed ones; the source iterates over Python sets, whose
        order is not specified, so `order` reports the order the pressed keys
        were handled in. */
    method Key(snapshot: seq<SpeedEditorKey>) returns (ghost order: seq<SpeedEditorKey>)
      requires Valid()
      modifies `keys, `jogMode, `leds, `zoomTimerOn, `effects
      ensures Enumerates(order, Edges(old(keys), SetOf(snapshot)).1)
      ensures State() == PressAll(old(State()).(keys := SetOf(snapshot)), order, ledTable)
      ensures Valid()
    {
      var keysSet := SetOf(snapshot);
      var (released, pressed) := Edges(keys, keysSet);
      keys := keysSet;
      ReleaseKeys(released);
      order := PressKeys(pressed);
    }

    /** The release half of key: key_released for each released key, which
        leaves the whole handler as it was. */
    method ReleaseKeys(released: set<SpeedEditorKey>)
      ensures State() == old(State())
    {
      var toRelease := released;
      while toRelease != {}
        decreases |toRelease|
      {
        var k :| k in toRelease;
        KeyReleased(k);
        toRelease := toRelease - {k};
      }
    }

    /** The press half of key: key_pressed for each pressed key, in the order
        reported. */
    method PressKeys(pressed: set<SpeedEditorKey>) returns (ghost order: seq<SpeedEditorKey>)
      requires Valid()
      modifies `jogMode, `leds, `zoomTimerOn, `effects
      ensures Enumerates(order, pressed)
      ensures State() == PressAll(old(State()), order, ledTable)
      ensures Valid()
    {
      ghost var start := State();
      var toPress := pressed;
      order := [];
      while toPress != {}
        invariant toPress <= pressed
        invariant Enumerates(order, pressed - toPress)
        invariant State() == PressAll(start, order, ledTable)
        invariant Valid()
        decreases |toPress|
      {
        var k :| k in toPress;
        KeyPressed(k);
        EnumeratesVisit(order, pressed, toPress, k);
        PressAllSnoc(start, order, k, ledTable);
        order := order + [k];
        toPress := toPress - {k};
      }
      assert pressed - toPress == pressed;
    }

    /** key_released: nothing to do. */
    method KeyReleased(k: SpeedEditorKey)
      ensures State() == old(State())
    {
    }

    /** key_pressed, with `keys` already the new snapshot. */
    method KeyPressed(k: SpeedEditorKey)
      requires Valid()
      modifies `jogMode, `leds, `zoomTimerOn, `effects
      ensures State() == MackieSteps.KeyPressed(old(State()), k, ledTable)
      ensures Valid()
    {
      ghost var s := State();
      KeyPressedBody(k);
      KeyPressedFields(s, k, ledTable, State());
      MackieProperties.KeyPressedKeeps(s, k, ledTable);
    }

    /** The statements of key_pressed: select the key's jog mode, toggle its
        LED, send the transport notes, and handle a zoom key. */
    method KeyPressedBody(k: SpeedEditorKey)
      modifies `jogMode, `leds, `zoomTimerOn, `effects
      ensures jogMode == (if IsJogKey(k) then k else old(jogMode))
      ensures leds == old(leds) ^ LedBit(ledTable, k)
      ensures zoomTimerOn == (old(zoomTimerOn) || (IsZoomKey(k) && AnyZoomKeyHeld(keys)))
      ensures effects == old(effects) + JogModeEffects(k, scrubMode) + [Device(SetLeds(old(leds) ^ LedBit(ledTable, k)))]
        + TransportEffects(k, playState) + (if IsZoomKey(k) then ZoomEffects(keys, zoomMode, old(zoomTimerOn)) else [])
    {
      SetJogModeForKey(k);
      ToggleLed(k);
      SendTransport(k);
      ZoomForKey(k);
    }

    /** The LED toggle of key_pressed. */
    method ToggleLed(k: SpeedEditorKey)
      modifies `leds, `effects
      ensures leds == old(leds) ^ LedBit(ledTable, k)
      ensures effects == old(effects) + [Device(SetLeds(leds))]
    {
      leds := leds ^ LedBit(ledTable, k);
      effects := effects + [Device(SetLeds(leds))];
    }

    /** The transport notes of key_pressed. */
    method SendTransport(k: SpeedEditorKey)
      modifies `effects
      ensures effects == old(effects) + TransportEffects(k, playState)
    {
      if k == StopPlay {
        SendMidiNote(if playState then McuStop else McuPlay);
      } else if k == FullView {
        SendMidiNote(McuRec);
      } else {
        AppendEmpty(effects);
      }
    }

    /** The zoom part of key_pressed: zoom handling for a zoom key only. */
    method ZoomForKey(k: SpeedEditorKey)
      modifies `zoomTimerOn, `effects
      ensures zoomTimerOn == (old(zoomTimerOn) || (IsZoomKey(k) && AnyZoomKeyHeld(keys)))
      ensures effects == old(effects) + (if IsZoomKey(k) then ZoomEffects(keys, zoomMode, old(zoomTimerOn)) else [])
    {
      if IsZoomKey(k) {
        ZoomHandleKeys();
      } else {
        AppendEmpty(effects);
      }
    }

    method SendMidiNote(note: int)
      modifies `effects
      ensures effects == old(effects) + [Note(note)]
    {
      effects := effects + [Note(note)];
    }

    /** send_midi_jog_cc: the step goes out as control changes of at most 63
        each, the sign in bit 6. */
    method SendMidiJogCc(shift: int)
      modifies `effects
      ensures effects == old(effects) + CcMessages(JogCcValues(shift))
    {
      var absValFull := Abs(shift);
      ghost var pending := CcMessages(CcValuesFrom(absValFull, shift < 0));
      while absValFull > 0
        invariant pending == CcMessages(CcValuesFrom(absValFull, shift < 0))
        invariant old(effects) + CcMessages(JogCcValues(shift)) == effects + pending
        decreases absValFull
      {
        var absVal := absValFull;
        if absVal > 63 {
          absVal := 63;
        }
        var sign := CcSign(shift < 0);
        var val := BitOr(absVal, sign);
        CcValuesFromStep(absValFull, shift < 0);
        ghost var rest := CcMessages(CcValuesFrom(absValFull - absVal, shift < 0));
        AppendAssoc(effects, [Send(ControlChange(McuJogCc, val))], rest);
        effects := effects + [Send(ControlChange(McuJogCc, val))];
        absValFull := absValFull - absVal;
        pending := rest;
      }
      assert effects + pending == effects;
    }

    method SetZoomMode()
      modifies `effects
      ensures effects == Emit(old(effects), !zoomMode, Note(McuZoom))
    {
      if !zoomMode {
        SendMidiNote(McuZoom);
      }
    }

    /** zoom_repeat: what the armed repeat timer runs when it fires. */
    method ZoomRepeat()
      requires Valid() && zoomTimerOn
      modifies `zoomTimerOn, `effects, `timersFired
      ensures State() == MackieSteps.ZoomRepeat(old(State()))
      ensures timersFired == old(timersFired) + 1
      ensures Valid()
    {
      MackieProperties.ZoomRepeatRetiresTimer(State());
      timersFired := timersFired + 1;
      zoomTimerOn := false;
      ZoomHandleKeys();
    }

    /** set_zoom_timer: start the one-shot repeat timer unless one is armed. */
    method SetZoomTimer()
      modifies `zoomTimerOn, `effects
      ensures zoomTimerOn
      ensures effects == Emit(old(effects), !old(zoomTimerOn), ZoomTimerStarted)
    {
      if !zoomTimerOn {
        zoomTimerOn := true;
        effects := effects + [ZoomTimerStarted];
      }
    }

    method ZoomHandleKeys()
      modifies `zoomTimerOn, `effects
      ensures zoomTimerOn == (old(zoomTimerOn) || AnyZoomKeyHeld(keys))
      ensures effects == old(effects) + ZoomEffects(keys, zoomMode, old(zoomTimerOn))
    {
      ZoomChain(effects, keys, zoomMode, zoomTimerOn);
      ghost var log := effects;
      var zoomPressed := false;
      if AnyZoomKeyHeld(keys) {
        SetZoomMode();
        zoomPressed := true;
      }
      log := Emit(log, AnyZoomKeyHeld(keys) && !zoomMode, Note(McuZoom));
      assert effects == log;
      if In in keys {
        SendMidiNote(McuRight);
      }
      log := Emit(log, In in keys, Note(McuRight));
      assert effects == log;
      if Out in keys {
        SendMidiNote(McuLeft);
      }
      log := Emit(log, Out in keys, Note(McuLeft));
      assert effects == log;
      if TrimIn in keys {
        SendMidiNote(McuDown);
      }
      log := Emit(log, TrimIn in keys, Note(McuDown));
      assert effects == log;
      if TrimOut in keys {
        SendMidiNote(McuUp);
      }
      log := Emit(log, TrimOut in keys, Note(McuUp));
      assert effects == log;
      if zoomPressed {
        SetZoomTimer();
      }
      log := Emit(log, zoomPressed && !old(zoomTimerOn), ZoomTimerStarted);
      assert effects == log;
    }
  }

  /** The log zoom_handle_keys builds one conditional send at a time is the
      log followed by the zoom effects. */
  lemma ZoomChain(base: seq<Effect>, keys: set<SpeedEditorKey>, zoomMode: bool, timerOn: bool)
    ensures var held := AnyZoomKeyHeld(keys);
      Emit(Emit(Emit(Emit(Emit(Emit(base, held && !zoomMode, Note(McuZoom)), In in keys, Note(McuRight)),
        Out in keys, Note(McuLeft)), TrimIn in keys, Note(McuDown)), TrimOut in keys, Note(McuUp)),
        held && !timerOn, ZoomTimerStarted) == base + ZoomEffects(keys, zoomMode, timerOn)
  {
    var held := AnyZoomKeyHeld(keys);
    var w1, w2, w3, w4, w5, w6 := When(held && !zoomMode, Note(McuZoom)), When(In in keys, Note(McuRight)),
      When(Out in keys, Note(McuLeft)), When(TrimIn in keys, Note(McuDown)), When(TrimOut in keys, Note(McuUp)),
      When(held && !timerOn, ZoomTimerStarted);
    EmitWhen(base, held && !zoomMode, Note(McuZoom));
    EmitWhen(base + w1, In in keys, Note(McuRight));
    AppendAssoc(base, w1, w2);
    EmitWhen(base + (w1 + w2), Out in keys, Note(McuLeft));
    AppendAssoc(base, w1 + w2, w3);
    EmitWhen(base + (w1 + w2 + w3), TrimIn in keys, Note(McuDown));
    AppendAssoc(base, w1 + w2 + w3, w4);
    EmitWhen(base + (w1 + w2 + w3 + w4), TrimOut in keys, Note(McuUp));
    AppendAssoc(base, w1 + w2 + w3 + w4, w5);
    EmitWhen(base + (w1 + w2 + w3 + w4 + w5), held && !timerOn, ZoomTimerStarted);
    AppendAssoc(base, w1 + w2 + w3 + w4 + w5, w6);
  }

  /** One round of send_midi_jog_cc's loop sends the first value of
      CcValuesFrom and leaves the rest. */
  lemma CcValuesFromStep(remaining: nat, negative: bool)
    requires remaining > 0
    ensures var chunk := if remaining > 63 then 63 else remaining;
      CcMessages(CcValuesFrom(remaining, negative)) ==
        [Send(ControlChange(McuJogCc, BitOr(chunk, CcSign(negative))))] + CcMessages(CcValuesFrom(remaining - chunk, negative))
  {
    var chunk := if remaining > 63 then 63 else remaining;
    var vals := CcValuesFrom(remaining, negative);
    assert vals[1..] == CcValuesFrom(remaining - chunk, negative);
  }
}
