/**
 * The vocabulary of the Speed Editor device driver (the `bmd` module) as far as
 * the two handlers use it: key identities, the jog LEDs and jog modes, the
 * register writes a handler makes, and the key-to-LED table.
 */
module SpeedEditor {

  /** A key of the control surface. The keys the handlers single out are named;
      every other key is `Other`, identified by a number. */
  datatype SpeedEditorKey =
    | StopPlay | FullView
    | In | Out | TrimIn | TrimOut
    | Shtl | Jog | Scrl
    | Other(id: nat)

  /** The indicator next to the jog wheel. */
  datatype SpeedEditorJogLed = JogLedShtl | JogLedJog | JogLedScrl

  /** How the device reports wheel movement. */
  datatype SpeedEditorJogMode = Relative2 | AbsoluteDeadzero

  /** A fire-and-forget register write a handler makes on the device. */
  datatype DeviceCall =
    | SetLeds(mask: bv32)
    | SetJogLeds(led: SpeedEditorJogLed)
    | SetJogMode(mode: SpeedEditorJogMode)

  /** The key-to-LED table: a key whose name is also the name of an LED flag
      maps to that flag's bits. */
  type LedTable = map<SpeedEditorKey, bv32>

  /** The LED bits of a key, 0 for a key without an LED. */
  function LedBit(table: LedTable, k: SpeedEditorKey): bv32
  {
    if k in table then table[k] else 0
  }

  /** Toggling a key's LED bits twice gives the mask back. */
  lemma ToggleTwice(table: LedTable, mask: bv32, k: SpeedEditorKey)
    ensures mask ^ LedBit(table, k) ^ LedBit(table, k) == mask
    ensures k !in table ==> mask ^ LedBit(table, k) == mask
  {
  }

  /** The combined toggle of a sequence of keys, applied left to right. */
  function XorLeds(table: LedTable, ks: seq<SpeedEditorKey>): bv32
  {
    if |ks| == 0 then 0 else XorLeds(table, ks[..|ks| - 1]) ^ LedBit(table, ks[|ks| - 1])
  }

  /** `order` is one way of iterating over the set `s`: its last element is a
      member of `s`, and what precedes it iterates over the rest. */
  predicate Enumerates(order: seq<SpeedEditorKey>, s: set<SpeedEditorKey>)
    decreases |order|
  {
    if |order| == 0 then s == {}
    else order[|order| - 1] in s && Enumerates(order[..|order| - 1], s - {order[|order| - 1]})
  }

  /** An enumeration of `s` lists the members of `s`, each exactly once. */
  lemma {:induction false} EnumeratesElements(order: seq<SpeedEditorKey>, s: set<SpeedEditorKey>)
    requires Enumerates(order, s)
    ensures forall x :: x in order <==> x in s
    ensures forall i, j :: 0 <= i < j < |order| ==> order[i] != order[j]
    ensures |order| == |s|
    decreases |order|
  {
    if |order| > 0 {
      var n := |order| - 1;
      var x, front := order[n], order[..n];
      EnumeratesElements(front, s - {x});
      assert order == front + [x];
      forall i, j | 0 <= i < j < |order| ensures order[i] != order[j] {
        assert order[i] == front[i] && order[i] in s - {x};
        if j < n {
          assert order[j] == front[j];
        }
      }
    }
  }

  /** Adding one key that is not yet visited extends an enumeration. */
  lemma EnumeratesSnoc(order: seq<SpeedEditorKey>, s: set<SpeedEditorKey>, k: SpeedEditorKey)
    requires Enumerates(order, s) && k !in s
    ensures Enumerates(order + [k], s + {k})
  {
    assert (order + [k])[..|order|] == order;
    assert s + {k} - {k} == s;
  }

  /** Moving one key from the keys still to visit to the visited ones
      extends the enumeration of the visited ones. */
  lemma EnumeratesVisit(order: seq<SpeedEditorKey>, all: set<SpeedEditorKey>, todo: set<SpeedEditorKey>, k: SpeedEditorKey)
    requires Enumerates(order, all - todo) && k in todo && todo <= all
    ensures Enumerates(order + [k], all - (todo - {k}))
  {
    EnumeratesSnoc(order, all - todo, k);
    assert all - todo + {k} == all - (todo - {k});
  }

  /** Taking one key out of the middle of the sequence takes its bits out of
      the combined toggle. */
  lemma {:induction false} XorLedsRemove(table: LedTable, ks: seq<SpeedEditorKey>, j: nat)
    requires j < |ks|
    ensures XorLeds(table, ks) == XorLeds(table, ks[..j] + ks[j + 1..]) ^ LedBit(table, ks[j])
  {
    var n := |ks| - 1;
    if j == n {
      assert ks[..j] + ks[j + 1..] == ks[..n];
    } else {
      var front := ks[..n];
      XorLedsRemove(table, front, j);
      var rest := ks[..j] + ks[j + 1..];
      assert rest[..|rest| - 1] == front[..j] + front[j + 1..];
      assert rest[|rest| - 1] == ks[n];
    }
  }

  /** Removing the element at position `j` from an enumeration of `s`
      enumerates `s` without that element. */
  lemma {:induction false} EnumeratesRemoveAt(b: seq<SpeedEditorKey>, j: nat, s: set<SpeedEditorKey>)
    requires Enumerates(b, s) && j < |b|
    ensures Enumerates(b[..j] + b[j + 1..], s - {b[j]})
    decreases |b|
  {
    var n := |b| - 1;
    var front := b[..n];
    if j == n {
      assert b[..j] + b[j + 1..] == front;
    } else {
      EnumeratesRemoveAt(front, j, s - {b[n]});
      EnumeratesElements(b, s);
      var rest := b[..j] + b[j + 1..];
      assert rest[..|rest| - 1] == front[..j] + front[j + 1..];
      assert rest[|rest| - 1] == b[n] && front[j] == b[j] && b[n] != b[j];
      assert s - {b[n]} - {b[j]} == s - {b[j]} - {b[n]};
    }
  }

  /** Only the empty sequence enumerates the empty set, and it enumerates
      nothing else. */
  lemma EnumeratesEmpty(b: seq<SpeedEditorKey>, s: set<SpeedEditorKey>)
    requires Enumerates(b, s)
    ensures s == {} <==> b == []
  {
  }

  /** The position of a member of `s` in an enumeration of `s`. */
  lemma EnumeratesIndex(b: seq<SpeedEditorKey>, s: set<SpeedEditorKey>, x: SpeedEditorKey) returns (j: nat)
    requires Enumerates(b, s) && x in s
    ensures j < |b| && b[j] == x
  {
    EnumeratesElements(b, s);
    j :| 0 <= j < |b| && b[j] == x;
  }

  /** Two sequences whose combined toggles agree once a common key is taken
      out of each agree in full. */
  lemma XorLedsLast(table: LedTable, a: seq<SpeedEditorKey>, b: seq<SpeedEditorKey>, j: nat)
    requires |a| > 0 && j < |b| && b[j] == a[|a| - 1]
    requires XorLeds(table, a[..|a| - 1]) == XorLeds(table, b[..j] + b[j + 1..])
    ensures XorLeds(table, a) == XorLeds(table, b)
  {
    XorLedsRemove(table, b, j);
  }

  /** The combined toggle does not depend on the order in which a set of keys
      is visited. */
  lemma {:induction false} XorLedsOrderFree(table: LedTable, a: seq<SpeedEditorKey>, b: seq<SpeedEditorKey>, s: set<SpeedEditorKey>)
    requires Enumerates(a, s) && Enumerates(b, s)
    ensures XorLeds(table, a) == XorLeds(table, b)
    decreases |a|
  {
    if |a| == 0 {
      EnumeratesEmpty(a, s);
      EnumeratesEmpty(b, s);
    } else {
      var x := a[|a| - 1];
      assert x in s;
      var j := EnumeratesIndex(b, s, x);
      EnumeratesRemoveAt(b, j, s);
      XorLedsOrderFree(table, a[..|a| - 1], b[..j] + b[j + 1..], s - {x});
      XorLedsLast(table, a, b, j);
    }
  }
}
