/**
 * The demo handler: a second, smaller policy on the same device. It selects a
 * key's jog mode and toggles the key's LED when the key is released, and
 * ignores presses. The device writes it makes are recorded in order.
 */
module Demo {
  import opened Wrappers
  import opened SpeedEditor

  /** The demo's JOG table: unlike the MCU bridge it programs SHTL as an
      absolute wheel with a dead zone. */
  function DemoJogTable(k: SpeedEditorKey): Option<(SpeedEditorJogLed, SpeedEditorJogMode)>
  {
    match k
    case Shtl => Some((JogLedShtl, AbsoluteDeadzero))
    case Jog => Some((JogLedJog, Relative2))
    case Scrl => Some((JogLedScrl, Relative2))
    case _ => None
  }

  /** What _set_jog_mode_for_key writes: the key's jog LED and jog mode, or
      nothing for a key outside the table. Selecting a jog mode never writes
      the LED mask, and writes at most two registers. */
  function JogModeCalls(k: SpeedEditorKey): (r: seq<DeviceCall>)
    ensures forall c :: c in r ==> !c.SetLeds?
    ensures |r| <= 2
  {
    match DemoJogTable(k)
    case None => []
    case Some((led, mode)) => [SetJogLeds(led), SetJogMode(mode)]
  }

  /** The handler's LED mask and every register write it has made, in order. */
  datatype DemoState = DemoState(leds: bv32, calls: seq<DeviceCall>)

  /** What key does for one released key: select its jog mode, toggle its LED
      bits, and push the new mask. */
  function ReleaseStep(st: DemoState, k: SpeedEditorKey, table: LedTable): DemoState
  {
    var mask := st.leds ^ LedBit(table, k);
    DemoState(mask, st.calls + JogModeCalls(k) + [SetLeds(mask)])
  }

  /** The loop of key over the previous snapshot `previous`: every key missing
      from `now` is released, in the order of `previous`. */
  function ReleaseAll(st: DemoState, previous: seq<SpeedEditorKey>, now: seq<SpeedEditorKey>, table: LedTable): DemoState
  {
    if |previous| == 0 then st
    else
      var n := |previous| - 1;
      var r := ReleaseAll(st, previous[..n], now, table);
      if previous[n] in now then r else ReleaseStep(r, previous[n], table)
  }

  /** The keys of `previous` that are not in `now`, in the order of `previous`. */
  function Released(previous: seq<SpeedEditorKey>, now: seq<SpeedEditorKey>): (r: seq<SpeedEditorKey>)
    ensures |r| <= |previous|
    ensures forall k :: k in r <==> k in previous && k !in now
  {
    if |previous| == 0 then []
    else
      var k := previous[|previous| - 1];
      Released(previous[..|previous| - 1], now) + (if k in now then [] else [k])
  }

  /** The last LED mask written among `calls`, if any. */
  function LastLeds(calls: seq<DeviceCall>): Option<bv32>
  {
    if |calls| == 0 then None
    else if calls[|calls| - 1].SetLeds? then Some(calls[|calls| - 1].mask)
    else LastLeds(calls[..|calls| - 1])
  }

  /** Looking at one more key of the previous snapshot. */
  lemma ReleaseAllSnoc(st: DemoState, previous: seq<SpeedEditorKey>, now: seq<SpeedEditorKey>, i: nat, table: LedTable)
    requires i < |previous|
    ensures var r := ReleaseAll(st, previous[..i], now, table);
      ReleaseAll(st, previous[..i + 1], now, table) ==
        if previous[i] in now then r else ReleaseStep(r, previous[i], table)
  {
    assert previous[..i + 1][..i] == previous[..i];
  }

  /** Releasing the keys of `ks` one after the other, in order. */
  function Replay(st: DemoState, ks: seq<SpeedEditorKey>, table: LedTable): DemoState
  {
    if |ks| == 0 then st else ReleaseStep(Replay(st, ks[..|ks| - 1], table), ks[|ks| - 1], table)
  }

  /** One more key of the previous snapshot is either still held or released. */
  lemma ReleaseAllReplayStep(st: DemoState, previous: seq<SpeedEditorKey>, now: seq<SpeedEditorKey>, table: LedTable)
    requires |previous| > 0
    requires var front := previous[..|previous| - 1];
      ReleaseAll(st, front, now, table) == Replay(st, Released(front, now), table)
    ensures ReleaseAll(st, previous, now, table) == Replay(st, Released(previous, now), table)
  {
    var done := Released(previous[..|previous| - 1], now);
    var k := previous[|previous| - 1];
    if k in now {
      assert done + [] == done;
    } else {
      assert (done + [k])[..|done|] == done;
    }
  }

  /** Key's loop releases exactly the keys held before and missing now, in
      the order of the previous snapshot. */
  lemma {:induction false} ReleaseAllReplay(st: DemoState, previous: seq<SpeedEditorKey>, now: seq<SpeedEditorKey>, table: LedTable)
    ensures ReleaseAll(st, previous, now, table) == Replay(st, Released(previous, now), table)
    decreases |previous|
  {
    if |previous| > 0 {
      ReleaseAllReplay(st, previous[..|previous| - 1], now, table);
      ReleaseAllReplayStep(st, previous, now, table);
    }
  }

  /** One more release toggles that key's bits on top of the others. */
  lemma ReplayLedsStep(st: DemoState, ks: seq<SpeedEditorKey>, table: LedTable)
    requires |ks| > 0
    requires Replay(st, ks[..|ks| - 1], table).leds == st.leds ^ XorLeds(table, ks[..|ks| - 1])
    ensures Replay(st, ks, table).leds == st.leds ^ XorLeds(table, ks)
  {
  }

  /** Releasing keys toggles the mask by the LEDs of those keys. */
  lemma {:induction false} ReplayLeds(st: DemoState, ks: seq<SpeedEditorKey>, table: LedTable)
    ensures Replay(st, ks, table).leds == st.leds ^ XorLeds(table, ks)
    decreases |ks|
  {
    if |ks| > 0 {
      ReplayLeds(st, ks[..|ks| - 1], table);
      ReplayLedsStep(st, ks, table);
    }
  }

  /** The releases toggle the mask by exactly the LEDs of the keys held before
      and missing now. */
  lemma ReleaseAllLeds(st: DemoState, previous: seq<SpeedEditorKey>, now: seq<SpeedEditorKey>, table: LedTable)
    ensures ReleaseAll(st, previous, now, table).leds == st.leds ^ XorLeds(table, Released(previous, now))
  {
    ReleaseAllReplay(st, previous, now, table);
    ReplayLeds(st, Released(previous, now), table);
  }

  /** Whatever is released, the last mask written is the handler's mask, so
      the device keeps showing what the handler holds; writes are only ever
      appended. */
  lemma {:induction false} ReleaseAllMirrors(st: DemoState, previous: seq<SpeedEditorKey>, now: seq<SpeedEditorKey>, table: LedTable)
    requires LastLeds(st.calls) == Some(st.leds)
    ensures var r := ReleaseAll(st, previous, now, table);
      LastLeds(r.calls) == Some(r.leds) && st.calls <= r.calls
    decreases |previous|
  {
    if |previous| > 0 {
      var n := |previous| - 1;
      ReleaseAllMirrors(st, previous[..n], now, table);
      if previous[n] !in now {
        ReleaseStepMirrors(ReleaseAll(st, previous[..n], now, table), previous[n], table);
      }
    }
  }

  /** One release ends by writing the new mask, and only appends writes. */
  lemma ReleaseStepMirrors(st: DemoState, k: SpeedEditorKey, table: LedTable)
    ensures var r := ReleaseStep(st, k, table);
      LastLeds(r.calls) == Some(r.leds) && st.calls <= r.calls
  {
    var mask := st.leds ^ LedBit(table, k);
    var front := st.calls + JogModeCalls(k);
    assert (front + [SetLeds(mask)])[..|front|] == front;
  }

  /** Only keys held before and missing now take part: keys added to the
      snapshot never matter, however the rest of the new snapshot looks. */
  lemma {:induction false} ReleaseAllIgnoresPressed(st: DemoState, previous: seq<SpeedEditorKey>,
                                                    now: seq<SpeedEditorKey>, now': seq<SpeedEditorKey>, table: LedTable)
    requires forall i :: 0 <= i < |previous| ==> (previous[i] in now <==> previous[i] in now')
    ensures ReleaseAll(st, previous, now, table) == ReleaseAll(st, previous, now', table)
    decreases |previous|
  {
    if |previous| > 0 {
      ReleaseAllIgnoresPressed(st, previous[..|previous| - 1], now, now', table);
    }
  }

  /** Nothing happens when the snapshot still holds every key held before, in
      particular when it is the same snapshot: no LED toggles and no jog-mode
      selection. */
  lemma {:induction false} ReleaseAllNone(st: DemoState, previous: seq<SpeedEditorKey>, now: seq<SpeedEditorKey>, table: LedTable)
    requires forall i :: 0 <= i < |previous| ==> previous[i] in now
    ensures ReleaseAll(st, previous, now, table) == st
    decreases |previous|
  {
    if |previous| > 0 {
      ReleaseAllNone(st, previous[..|previous| - 1], now, table);
    }
  }

  /** Writing a jog mode leaves the last LED mask written unchanged. */
  lemma LastLedsJogModeCalls(calls: seq<DeviceCall>, k: SpeedEditorKey)
    ensures LastLeds(calls + JogModeCalls(k)) == LastLeds(calls)
  {
    var j := JogModeCalls(k);
    if j != [] {
      assert (calls + j)[..|calls + j| - 1] == calls + [j[0]];
      assert (calls + [j[0]])[..|calls|] == calls;
    } else {
      assert calls + j == calls;
    }
  }

  class DemoHandler {
    /** The LED flag of each key that has one. */
    const ledTable: LedTable

    /** The snapshot of held keys seen last, as the device reported it. */
    var keys: seq<SpeedEditorKey>
    var leds: bv32

    /** Every register write made on the device, in order. */
    var calls: seq<DeviceCall>

    function State(): DemoState
      reads this
    {
      DemoState(leds, calls)
    }

    /** The device shows the handler's LED mask. */
    predicate Valid()
      reads this
    {
      LastLeds(calls) == Some(leds)
    }

    /** __init__: no keys, every LED off and pushed to the device, then jog
        mode SCRL selected. */
    constructor (ledTable: LedTable)
      ensures this.ledTable == ledTable
      ensures keys == [] && leds == 0
      ensures calls == [SetLeds(0), SetJogLeds(JogLedScrl), SetJogMode(Relative2)]
      ensures Valid()
    {
      this.ledTable := ledTable;
      keys := [];
      leds := 0;
      calls := [SetLeds(0)];
      new;
      SetJogModeForKey(Scrl);
      LastLedsJogModeCalls([SetLeds(0)], Scrl);
    }

    /** _set_jog_mode_for_key. */
    method SetJogModeForKey(k: SpeedEditorKey)
      modifies `calls
      ensures calls == old(calls) + JogModeCalls(k)
    {
      if DemoJogTable(k).None? {
        assert calls + [] == calls;
        return;
      }
      var (led, mode) := DemoJogTable(k).value;
      calls := calls + [SetJogLeds(led)];
      calls := calls + [SetJogMode(mode)];
    }

    /** key: a new snapshot of held keys. Every key of the previous snapshot
        that is missing from the new one has its jog mode selected and its LED
        toggled, in the order of the previous snapshot; the new snapshot is
        then stored. */
    method Key(snapshot: seq<SpeedEditorKey>)
      requires Valid()
      modifies `keys, `leds, `calls
      ensures keys == snapshot
      ensures State() == ReleaseAll(old(State()), old(keys), snapshot, ledTable)
      ensures leds == old(leds) ^ XorLeds(ledTable, Released(old(keys), snapshot))
      ensures old(calls) <= calls
      ensures Valid()
    {
      ReleaseAllMirrors(State(), keys, snapshot, ledTable);
      ReleaseAllLeds(State(), keys, snapshot, ledTable);
      ReleaseMissing(keys, snapshot);
      keys := snapshot;
    }

    /** The loop of key over the previous snapshot. */
    method ReleaseMissing(previous: seq<SpeedEditorKey>, snapshot: seq<SpeedEditorKey>)
      modifies `leds, `calls
      ensures State() == ReleaseAll(old(State()), previous, snapshot, ledTable)
    {
      ghost var start := State();
      assert previous[..0] == [];
      for i := 0 to |previous|
        invariant State() == ReleaseAll(start, previous[..i], snapshot, ledTable)
      {
        var k := previous[i];
        ReleaseAllSnoc(start, previous, snapshot, i, ledTable);
        if k !in snapshot {
          ReleaseKey(k);
        }
      }
      assert previous[..|previous|] == previous;
    }

    /** The body of key's loop for a key that was released. */
    method ReleaseKey(k: SpeedEditorKey)
      modifies `leds, `calls
      ensures State() == ReleaseStep(old(State()), k, ledTable)
    {
      SetJogModeForKey(k);
      leds := leds ^ LedBit(ledTable, k);
      calls := calls + [SetLeds(leds)];
    }
  }
}
