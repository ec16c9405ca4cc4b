/**
 * The MCU bridge handler's behaviour as pure transitions on a value that holds
 * every field of the handler plus the ordered log of what it has sent to the
 * DAW and written to the device. The entry points of the class in module
 * Mackie (construction, open, MIDI feedback, jog, key snapshots and the zoom
 * repeat) are specified by the functions here; its smaller helpers are
 * specified directly by what they append to the log.
 */
module MackieSteps {
  import opened Wrappers
  import opened SpeedEditor

  // MCU note and controller numbers.
  const McuJogCc: int := 0x3c
  const McuStop: int := 0x5D
  const McuPlay: int := 0x5E
  const McuRec: int := 0x5F
  const McuUp: int := 0x60
  const McuDown: int := 0x61
  const McuLeft: int := 0x62
  const McuRight: int := 0x63
  const McuZoom: int := 0x64
  const McuScrub: int := 0x65

  /** The velocity of every note the bridge sends. */
  const NoteVelocity: int := 127

  /** Raw wheel units per physical notch. */
  const NotchUnits: int := 360

  /** The largest entry of the speed-factor table. */
  const MaxSpeedFactor: int := 20

  /** A message on the MIDI ports; `OtherMessage` stands for every other kind. */
  datatype MidiMessage =
    | NoteOn(note: int, velocity: int)
    | NoteOff(note: int, velocity: int)
    | ControlChange(control: int, value: int)
    | OtherMessage

  /** Something the handler does to the outside world, in the order it does it:
      a MIDI message sent to the DAW, a register write on the device, or the
      start of a one-shot zoom repeat timer. */
  datatype Effect =
    | Send(msg: MidiMessage)
    | Device(call: DeviceCall)
    | ZoomTimerStarted

  function Note(note: int): Effect
  {
    Send(NoteOn(note, NoteVelocity))
  }

  /** `[x]` when `c` holds, nothing otherwise: an effect the handler performs
      only under a condition. */
  function When(c: bool, x: Effect): seq<Effect>
  {
    if c then [x] else []
  }

  /** The log after an effect performed only when `c`. */
  function Emit(log: seq<Effect>, c: bool, x: Effect): seq<Effect>
  {
    if c then log + [x] else log
  }

  lemma EmitWhen(log: seq<Effect>, c: bool, x: Effect)
    ensures Emit(log, c, x) == log + When(c, x)
  {
  }

  lemma AppendAssoc(a: seq<Effect>, b: seq<Effect>, c: seq<Effect>)
    ensures (a + b) + c == a + (b + c)
  {
  }

  lemma AppendEmpty(a: seq<Effect>)
    ensures a + [] == a
  {
  }

  lemma AppendAssoc4(a: seq<Effect>, b: seq<Effect>, c: seq<Effect>, d: seq<Effect>, e: seq<Effect>)
    ensures a + b + c + d + e == a + (b + c + d + e)
  {
    AppendAssoc(a, b, c);
    AppendAssoc(a, b + c, d);
    AppendAssoc(a, b + c + d, e);
  }

  /** Every field of the handler, and the log of its effects so far. */
  datatype HandlerState = HandlerState(
    keys: set<SpeedEditorKey>,
    leds: bv32,
    playState: bool,
    zoomMode: bool,
    scrubMode: bool,
    jogUnsent: int,
    jogMode: SpeedEditorKey,
    zoomTimerOn: bool,
    effects: seq<Effect>)

  // ---------------------------------------------------------------------------
  // Tables

  /** The JOG table: for the three mode keys, the jog LED to light and the jog
      mode to program. */
  function JogTable(k: SpeedEditorKey): Option<(SpeedEditorJogLed, SpeedEditorJogMode)>
  {
    match k
    case Shtl => Some((JogLedShtl, Relative2))
    case Jog => Some((JogLedJog, Relative2))
    case Scrl => Some((JogLedScrl, Relative2))
    case _ => None
  }

  predicate IsJogKey(k: SpeedEditorKey)
  {
    JogTable(k).Some?
  }

  /** The JOG_SPEED_FACTOR table: notches per emitted jog step. */
  function SpeedFactor(k: SpeedEditorKey): (f: int)
    requires IsJogKey(k)
    ensures 1 <= f <= MaxSpeedFactor
  {
    if k == Shtl then 20 else if k == SpeedEditorKey.Jog then 15 else 1
  }

  /** Membership in ZOOM_KEYS. */
  predicate IsZoomKey(k: SpeedEditorKey)
  {
    k == In || k == Out || k == TrimIn || k == TrimOut
  }

  predicate AnyZoomKeyHeld(keys: set<SpeedEditorKey>)
  {
    In in keys || Out in keys || TrimIn in keys || TrimOut in keys
  }

  /** The state invariant of a constructed handler: the jog mode is one of the
      JOG table's keys and the accumulator holds less than one step of the
      coarsest mode. */
  predicate Consistent(s: HandlerState)
  {
    IsJogKey(s.jogMode) && 0 <= s.jogUnsent < MaxSpeedFactor
  }

  // ---------------------------------------------------------------------------
  // Counting effects

  /** How many times `e` occurs in the log. */
  function CountOf(effects: seq<Effect>, e: Effect): nat
  {
    if |effects| == 0 then 0
    else CountOf(effects[..|effects| - 1], e) + (if effects[|effects| - 1] == e then 1 else 0)
  }

  lemma {:induction false} CountOfAppend(a: seq<Effect>, b: seq<Effect>, e: Effect)
    ensures CountOf(a + b, e) == CountOf(a, e) + CountOf(b, e)
    decreases |b|
  {
    if |b| == 0 {
      assert a + b == a;
    } else {
      var n := |b| - 1;
      CountOfAppend(a, b[..n], e);
      assert (a + b)[..|a + b| - 1] == a + b[..n];
    }
  }

  lemma {:induction false} CountOfAbsent(effects: seq<Effect>, e: Effect)
    requires e !in effects
    ensures CountOf(effects, e) == 0
    decreases |effects|
  {
    if |effects| > 0 {
      CountOfAbsent(effects[..|effects| - 1], e);
    }
  }

  /** 1 when `x` is performed (`c`) and is the effect `e` counted, else 0. */
  function Occurs(c: bool, x: Effect, e: Effect): nat
  {
    if c && x == e then 1 else 0
  }

  lemma CountOfWhen(c: bool, x: Effect, e: Effect)
    ensures CountOf(When(c, x), e) == Occurs(c, x, e)
  {
    if c { assert When(c, x)[..0] == []; }
  }

  /** How many zoom repeat timers have been started and have since fired: all
      timers started, less the one still outstanding while the flag is set. */
  function TimerBalance(s: HandlerState): int
  {
    CountOf(s.effects, ZoomTimerStarted) - (if s.zoomTimerOn then 1 else 0)
  }

  // ---------------------------------------------------------------------------
  // Port lookup

  datatype LookupError = DeviceNotFound(device: string, names: seq<string>)

  /** Python's `str.startswith`. */
  predicate StartsWith(name: string, prefix: string)
  {
    prefix <= name
  }

  /** The index of the first name that starts with `prefix`, if any. */
  function FirstWithPrefix(names: seq<string>, prefix: string): (r: Option<nat>)
    ensures r.None? <==> forall i :: 0 <= i < |names| ==> !StartsWith(names[i], prefix)
    ensures r.Some? ==> r.value < |names| && StartsWith(names[r.value], prefix)
    ensures r.Some? ==> forall i :: 0 <= i < r.value ==> !StartsWith(names[i], prefix)
  {
    if |names| == 0 then None
    else if StartsWith(names[0], prefix) then Some(0)
    else match FirstWithPrefix(names[1..], prefix)
      case None => None
      case Some(i) => Some(i + 1)
  }

  /** find_device_in_list: the first name that starts with `device`; an error
      when there is none, and also when that first name is empty (an empty
      string is false in the source's test). */
  function FindDeviceInList(device: string, names: seq<string>): (r: Result<string, LookupError>)
    ensures r.Success? ==>
      exists i :: 0 <= i < |names| && names[i] == r.value && StartsWith(r.value, device) &&
        forall j :: 0 <= j < i ==> !StartsWith(names[j], device)
    ensures r.Success? ==> r.value != ""
    ensures r.Failure? <==>
      (forall i :: 0 <= i < |names| ==> !StartsWith(names[i], device)) ||
      (device == "" && |names| > 0 && names[0] == "")
    ensures r.Failure? ==> r.error == DeviceNotFound(device, names)
  {
    match FirstWithPrefix(names, device)
    case None => Failure(DeviceNotFound(device, names))
    case Some(i) =>
      if names[i] == "" then Failure(DeviceNotFound(device, names)) else Success(names[i])
  }

  // ---------------------------------------------------------------------------
  // Feedback from the DAW (one message of receive_thread's loop)

  /** The flag a note-on for `note` with `velocity` sets: the recorded state when
      the note is PLAY, ZOOM or SCRUB, else nothing. */
  function ReceiveMessage(s: HandlerState, msg: MidiMessage): (r: HandlerState)
    ensures r == s.(playState := r.playState, zoomMode := r.zoomMode, scrubMode := r.scrubMode)
    ensures r.playState == if msg.NoteOn? && msg.note == McuPlay then msg.velocity > 0 else s.playState
    ensures r.zoomMode == if msg.NoteOn? && msg.note == McuZoom then msg.velocity > 0 else s.zoomMode
    ensures r.scrubMode == if msg.NoteOn? && msg.note == McuScrub then msg.velocity > 0 else s.scrubMode
  {
    if msg.NoteOn? then
      var on := msg.velocity > 0;
      var s1 := if msg.note == McuPlay then s.(playState := on) else s;
      var s2 := if msg.note == McuZoom then s1.(zoomMode := on) else s1;
      if msg.note == McuScrub then s2.(scrubMode := on) else s2
    else
      s
  }

  // ---------------------------------------------------------------------------
  // Sending

  /** `1 << k`. */
  function Pow2(k: nat): nat
  {
    if k == 0 then 1 else 2 * Pow2(k - 1)
  }

  /** Python's `|` on non-negative integers. */
  function BitOr(x: nat, y: nat): nat
    decreases x + y
  {
    if x == 0 then y
    else if y == 0 then x
    else 2 * BitOr(x / 2, y / 2) + (if x % 2 == 1 || y % 2 == 1 then 1 else 0)
  }

  /** OR-ing a value below `1 << k` with `1 << k` adds the two. */
  lemma {:induction false} BitOrHighBit(a: nat, k: nat)
    requires a < Pow2(k)
    ensures BitOr(a, Pow2(k)) == a + Pow2(k)
  {
    if a != 0 {
      assert k > 0;
      var h := Pow2(k - 1);
      assert Pow2(k) / 2 == h && Pow2(k) % 2 == 0;
      BitOrHighBit(a / 2, k - 1);
    }
  }

  /** The sign bit of a jog control change: `int(negative) << 6`. */
  function CcSign(negative: bool): nat
  {
    (if negative then 1 else 0) * Pow2(6)
  }

  /** The value of one jog control change: the magnitude OR-ed with the sign bit. */
  function CcValue(magnitude: nat, negative: bool): (v: nat)
    requires magnitude <= 63
    ensures v == magnitude + (if negative then 64 else 0)
  {
    assert Pow2(6) == 64 by {
      assert Pow2(1) == 2 && Pow2(2) == 4 && Pow2(3) == 8 && Pow2(4) == 16 && Pow2(5) == 32;
    }
    if negative then
      BitOrHighBit(magnitude, 6);
      BitOr(magnitude, CcSign(negative))
    else
      BitOr(magnitude, CcSign(negative))
  }

  /** Bit 6 (0x40) of a control-change value: set for a step backwards. */
  predicate SignBitSet(v: int)
  {
    (v / 64) % 2 == 1
  }

  /** Bits 0-5 of a control-change value: the magnitude it carries. */
  function CcMagnitude(v: int): int
  {
    v % 64
  }

  function SumMagnitudes(vals: seq<nat>): int
  {
    if |vals| == 0 then 0 else CcMagnitude(vals[0]) + SumMagnitudes(vals[1..])
  }

  /** The control-change values send_midi_jog_cc sends while `remaining` of the
      magnitude is still to go: chunks of 63 and a last, smaller one, all with
      the same sign bit. */
  function CcValuesFrom(remaining: nat, negative: bool): (vals: seq<nat>)
    ensures remaining == 0 <==> vals == []
    ensures forall i :: 0 <= i < |vals| ==>
      vals[i] <= 127 && SignBitSet(vals[i]) == negative && 1 <= CcMagnitude(vals[i]) <= 63
    ensures forall i :: 0 <= i < |vals| - 1 ==> CcMagnitude(vals[i]) == 63
    ensures SumMagnitudes(vals) == remaining
    decreases remaining
  {
    if remaining == 0 then []
    else
      var chunk := if remaining > 63 then 63 else remaining;
      CcValueFields(chunk, negative);
      [CcValue(chunk, negative)] + CcValuesFrom(remaining - chunk, negative)
  }

  /** A value built from a magnitude of 1 to 63 and a sign reads back as both. */
  lemma CcValueFields(magnitude: nat, negative: bool)
    requires 1 <= magnitude <= 63
    ensures var v := CcValue(magnitude, negative);
      v <= 127 && SignBitSet(v) == negative && CcMagnitude(v) == magnitude
  {
  }

  function Abs(x: int): nat
  {
    if x < 0 then -x else x
  }

  /** The values send_midi_jog_cc sends for a signed step. */
  function JogCcValues(shift: int): (vals: seq<nat>)
    ensures shift == 0 <==> vals == []
    ensures forall i :: 0 <= i < |vals| ==>
      vals[i] <= 127 && SignBitSet(vals[i]) == (shift < 0) && 1 <= CcMagnitude(vals[i]) <= 63
    ensures forall i :: 0 <= i < |vals| - 1 ==> CcMagnitude(vals[i]) == 63
    ensures SumMagnitudes(vals) == Abs(shift)
  {
    CcValuesFrom(Abs(shift), shift < 0)
  }

  function CcMessages(vals: seq<nat>): (r: seq<Effect>)
    ensures |r| == |vals|
    ensures forall i :: 0 <= i < |vals| ==> r[i] == Send(ControlChange(McuJogCc, vals[i]))
  {
    if |vals| == 0 then [] else [Send(ControlChange(McuJogCc, vals[0]))] + CcMessages(vals[1..])
  }

  function SendMidiJogCc(s: HandlerState, shift: int): HandlerState
  {
    s.(effects := s.effects + CcMessages(JogCcValues(shift)))
  }

  // ---------------------------------------------------------------------------
  // Jog mode and wheel

  /** What _set_jog_mode_for_key writes and sends: for a JOG-table key, its jog
      LED and jog mode, then a SCRUB toggle when `(k == SHTL) == not scrubMode`. */
  function JogModeEffects(k: SpeedEditorKey, scrubMode: bool): seq<Effect>
  {
    match JogTable(k)
    case None => []
    case Some((led, mode)) =>
      [Device(SetJogLeds(led)), Device(SetJogMode(mode))] +
      When((k == Shtl) == !scrubMode, Note(McuScrub))
  }

  /** _set_jog_mode_for_key. */
  function SetJogModeForKey(s: HandlerState, k: SpeedEditorKey): (r: HandlerState)
    ensures !IsJogKey(k) ==> r == s
    ensures IsJogKey(k) ==> r.jogMode == k
    ensures r == s.(jogMode := r.jogMode, effects := s.effects + JogModeEffects(k, s.scrubMode))
  {
    if IsJogKey(k) then s.(jogMode := k, effects := s.effects + JogModeEffects(k, s.scrubMode))
    else s
  }

  /** The state __init__ leaves behind: nothing held, every LED off and pushed
      to the device, every mirrored flag off, nothing unsent, and jog mode JOG
      selected (which sends no SCRUB note, since scrub mode starts off). The
      source has no jog mode before the selection; `Scrl` stands in for it. */
  function Initial(): (s: HandlerState)
    ensures s.keys == {} && s.leds == 0 && s.jogUnsent == 0 && s.jogMode == Jog
    ensures !s.playState && !s.zoomMode && !s.scrubMode && !s.zoomTimerOn
    ensures s.effects == [Device(SetLeds(0)), Device(SetJogLeds(JogLedJog)), Device(SetJogMode(Relative2))]
  {
    SetJogModeForKey(HandlerState({}, 0, false, false, false, 0, Scrl, false, [Device(SetLeds(0))]), Jog)
  }

  /** The accumulator arithmetic of jog: whole notches are added to the unsent
      count, which is then split into whole steps of `factor` notches and a
      remainder. Returns the new unsent count and the step to send (0: none). */
  function JogStep(unsent: int, value: int, factor: int): (r: (int, int))
    requires factor > 0
    ensures unsent + value / NotchUnits == r.0 + r.1 * factor
    ensures 0 <= r.0 < factor
  {
    var acc := unsent + value / NotchUnits;
    var q := acc / factor;
    if q == 0 then (acc, 0) else (acc - q * factor, q)
  }

  /** jog: the wheel's raw delta `value` under the current jog mode. */
  function OnJog(s: HandlerState, value: int): (r: HandlerState)
    requires IsJogKey(s.jogMode)
    ensures r == s.(jogUnsent := r.jogUnsent, effects := r.effects)
  {
    var (unsent, q) := JogStep(s.jogUnsent, value, SpeedFactor(s.jogMode));
    if q == 0 then s.(jogUnsent := unsent) else SendMidiJogCc(s.(jogUnsent := unsent), q)
  }

  /** A state whose fields are those OnJog computes is OnJog. */
  lemma OnJogFields(s: HandlerState, value: int, r: HandlerState)
    requires IsJogKey(s.jogMode)
    requires r.keys == s.keys && r.leds == s.leds && r.playState == s.playState && r.zoomMode == s.zoomMode
    requires r.scrubMode == s.scrubMode && r.jogMode == s.jogMode && r.zoomTimerOn == s.zoomTimerOn
    requires r.jogUnsent == JogStep(s.jogUnsent, value, SpeedFactor(s.jogMode)).0
    requires r.effects == s.effects + CcMessages(JogCcValues(JogStep(s.jogUnsent, value, SpeedFactor(s.jogMode)).1))
    ensures r == OnJog(s, value)
  {
    if JogStep(s.jogUnsent, value, SpeedFactor(s.jogMode)).1 == 0 {
      AppendEmpty(s.effects);
    }
  }

  // ---------------------------------------------------------------------------
  // Zoom

  /** What zoom_handle_keys sends and starts, given the held keys, the mirrored
      zoom mode and the timer flag: when a zoom key is held, ZOOM unless zoom
      mode is on, one direction note per held zoom key, and a timer unless one
      is armed; nothing otherwise. */
  function ZoomEffects(keys: set<SpeedEditorKey>, zoomMode: bool, timerOn: bool): seq<Effect>
  {
    var held := AnyZoomKeyHeld(keys);
    When(held && !zoomMode, Note(McuZoom)) +
    When(In in keys, Note(McuRight)) +
    When(Out in keys, Note(McuLeft)) +
    When(TrimIn in keys, Note(McuDown)) +
    When(TrimOut in keys, Note(McuUp)) +
    When(held && !timerOn, ZoomTimerStarted)
  }

  /** zoom_handle_keys, reading the held keys of `s`. */
  function ZoomHandleKeys(s: HandlerState): HandlerState
  {
    s.(zoomTimerOn := s.zoomTimerOn || AnyZoomKeyHeld(s.keys),
       effects := s.effects + ZoomEffects(s.keys, s.zoomMode, s.zoomTimerOn))
  }

  /** zoom_repeat: what the repeat timer does when it fires. */
  function ZoomRepeat(s: HandlerState): (r: HandlerState)
    ensures r == s.(zoomTimerOn := r.zoomTimerOn, effects := r.effects)
  {
    ZoomHandleKeys(s.(zoomTimerOn := false))
  }

  // ---------------------------------------------------------------------------
  // Keys

  /** The edges between two snapshots: (released, pressed). */
  function Edges(previous: set<SpeedEditorKey>, snapshot: set<SpeedEditorKey>): (r: (set<SpeedEditorKey>, set<SpeedEditorKey>))
    ensures forall k :: k in r.0 <==> k in previous && k !in snapshot
    ensures forall k :: k in r.1 <==> k in snapshot && k !in previous
    ensures r.0 !! r.1
    ensures previous - r.0 + r.1 == snapshot
    ensures previous == snapshot ==> r.0 == {} && r.1 == {}
  {
    (previous - snapshot, snapshot - previous)
  }

  /** The keys of a snapshot, as a set. */
  function SetOf(ks: seq<SpeedEditorKey>): set<SpeedEditorKey>
  {
    set k | k in ks
  }

  /** What the transport part of key_pressed sends: STOP or PLAY for STOP_PLAY
      after the mirrored play state, REC for FULL_VIEW. */
  function TransportEffects(k: SpeedEditorKey, playState: bool): seq<Effect>
  {
    When(k == StopPlay, Note(if playState then McuStop else McuPlay)) +
    When(k == FullView, Note(McuRec))
  }

  /** What key_pressed writes, sends and starts, in order: the jog-mode
      selection, the LED mask after the toggle, the transport notes, and for a
      zoom key the zoom handling. */
  function PressEffects(s: HandlerState, k: SpeedEditorKey, table: LedTable): seq<Effect>
  {
    JogModeEffects(k, s.scrubMode) +
    [Device(SetLeds(s.leds ^ LedBit(table, k)))] +
    TransportEffects(k, s.playState) +
    (if IsZoomKey(k) then ZoomEffects(s.keys, s.zoomMode, s.zoomTimerOn) else [])
  }

  /** key_pressed for one key, with `s.keys` already the new snapshot: select
      the key's jog mode, flip its LED bits, arm the zoom timer for a zoom key
      while a zoom key is held, and append the jog-mode selection, the new LED
      mask, the transport notes and the zoom handling, in that order. */
  function KeyPressed(s: HandlerState, k: SpeedEditorKey, table: LedTable): HandlerState
  {
    s.(jogMode := if IsJogKey(k) then k else s.jogMode,
       leds := s.leds ^ LedBit(table, k),
       zoomTimerOn := s.zoomTimerOn || (IsZoomKey(k) && AnyZoomKeyHeld(s.keys)),
       effects := s.effects + PressEffects(s, k, table))
  }

  /** A state whose fields are those KeyPressed computes is KeyPressed. */
  lemma KeyPressedFields(s: HandlerState, k: SpeedEditorKey, table: LedTable, r: HandlerState)
    requires r.keys == s.keys && r.playState == s.playState && r.zoomMode == s.zoomMode
    requires r.scrubMode == s.scrubMode && r.jogUnsent == s.jogUnsent
    requires r.jogMode == (if IsJogKey(k) then k else s.jogMode)
    requires r.leds == s.leds ^ LedBit(table, k)
    requires r.zoomTimerOn == (s.zoomTimerOn || (IsZoomKey(k) && AnyZoomKeyHeld(s.keys)))
    requires r.effects == s.effects + JogModeEffects(k, s.scrubMode) + [Device(SetLeds(s.leds ^ LedBit(table, k)))]
      + TransportEffects(k, s.playState) + (if IsZoomKey(k) then ZoomEffects(s.keys, s.zoomMode, s.zoomTimerOn) else [])
    ensures r == KeyPressed(s, k, table)
  {
    AppendAssoc4(s.effects, JogModeEffects(k, s.scrubMode), [Device(SetLeds(s.leds ^ LedBit(table, k)))],
                 TransportEffects(k, s.playState), if IsZoomKey(k) then ZoomEffects(s.keys, s.zoomMode, s.zoomTimerOn) else []);
  }

  /** key_pressed for each key of `order`, in that order. */
  function PressAll(s: HandlerState, order: seq<SpeedEditorKey>, table: LedTable): HandlerState
  {
    if |order| == 0 then s
    else KeyPressed(PressAll(s, order[..|order| - 1], table), order[|order| - 1], table)
  }

  /** Pressing one more key after a run of presses. */
  lemma PressAllSnoc(s: HandlerState, order: seq<SpeedEditorKey>, k: SpeedEditorKey, table: LedTable)
    ensures PressAll(s, order + [k], table) == KeyPressed(PressAll(s, order, table), k, table)
  {
    assert (order + [k])[..|order|] == order;
  }
}
