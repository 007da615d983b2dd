/** The entry state machine of the PIN widget: the list of entered digits, the
    key events of InputNumderKeyListener.onKey that edit it, and the PIN string
    that ensureFinishInput builds once the list is full.

    Everything here is a pure function of the digit list; the class in
    password_view.dfy holds the list as a field and is proved to follow these
    functions one key event at a time. */
module PinEntry {

  // Constants of android.view.KeyEvent that the listener compares against.
  const ACTION_DOWN: int := 0
  const KEYCODE_0: int := 7
  const KEYCODE_9: int := 16
  const KEYCODE_ENTER: int := 66
  const KEYCODE_DEL: int := 67

  /** A key event as the listener sees it: its action and its key code. */
  datatype KeyEvent = KeyEvent(action: int, code: int)

  predicate IsDigitKey(code: int) {
    KEYCODE_0 <= code <= KEYCODE_9
  }

  predicate IsDigits(ds: seq<int>) {
    forall i :: 0 <= i < |ds| ==> 0 <= ds[i] <= 9
  }

  /** The character StringBuffer.append(int) writes for a single digit. */
  function DigitChar(d: int): (c: char)
    requires 0 <= d <= 9
    ensures '0' <= c <= '9' && c as int - '0' as int == d
  {
    ('0' as int + d) as char
  }

  /** The PIN text: the digits written left to right in entry order, with no
      separator and no numeric interpretation (leading zeros stay). */
  function PinString(ds: seq<int>): (s: string)
    requires IsDigits(ds)
    ensures |s| == |ds|
    ensures forall i :: 0 <= i < |ds| ==> s[i] == DigitChar(ds[i])
  {
    if ds == [] then "" else PinString(ds[..|ds| - 1]) + [DigitChar(ds[|ds| - 1])]
  }

  /** Reads a PIN text back into its digit values. */
  function DigitsOf(s: string): seq<int> {
    if s == [] then [] else DigitsOf(s[..|s| - 1]) + [s[|s| - 1] as int - '0' as int]
  }

  lemma {:induction false} PinStringRoundTrip(ds: seq<int>)
    requires IsDigits(ds)
    ensures DigitsOf(PinString(ds)) == ds
  {
    if ds != [] {
      var init := ds[..|ds| - 1];
      PinStringRoundTrip(init);
      var s := PinString(ds);
      assert s[..|s| - 1] == PinString(init);
    }
  }

  lemma PinStringAppend(a: seq<int>, b: seq<int>)
    requires IsDigits(a) && IsDigits(b)
    ensures IsDigits(a + b)
    ensures PinString(a + b) == PinString(a) + PinString(b)
  {
  }

  /** The digit list after the key listener handles one event. A digit key
      appends keyCode - 7 while the list has room, DEL drops the last digit of
      a non-empty list, and every other event leaves the list alone. */
  function NextDigits(count: nat, ds: seq<int>, e: KeyEvent): (r: seq<int>)
    requires IsDigits(ds)
    ensures IsDigits(r)
    ensures |ds| <= count ==> |r| <= count
  {
    if e.action != ACTION_DOWN then ds
    else if IsDigitKey(e.code) then
      if |ds| < count then ds + [e.code - KEYCODE_0] else ds
    else if e.code == KEYCODE_DEL then
      if |ds| > 0 then ds[..|ds| - 1] else ds
    else ds
  }

  /** The list is only ever edited at its end, by one digit at a time. */
  lemma EditsAtEnd(count: nat, ds: seq<int>, e: KeyEvent)
    requires IsDigits(ds)
    ensures var r := NextDigits(count, ds, e);
      r == ds || (|ds| > 0 && r == ds[..|ds| - 1]) || (|r| == |ds| + 1 && r[..|ds|] == ds)
  {
  }

  /** Whether the listener reports the event as handled: a key down of one of
      the twelve keys it acts on, KEYCODE_0 .. KEYCODE_9 (7 .. 16), ENTER (66)
      and DEL (67). */
  predicate Handled(e: KeyEvent): (h: bool)
    ensures h <==> e.action == 0 && e.code in {7, 8, 9, 10, 11, 12, 13, 14, 15, 16, 66, 67}
  {
    e.action == ACTION_DOWN && (IsDigitKey(e.code) || e.code == KEYCODE_DEL || e.code == KEYCODE_ENTER)
  }

  /** What one run of ensureFinishInput reports: the PIN text when the list
      holds count digits, nothing otherwise. */
  function Completion(count: nat, ds: seq<int>): (out: seq<string>)
    requires IsDigits(ds)
    ensures |out| <= 1
    ensures |out| == 1 <==> |ds| == count
    ensures |out| == 1 ==> |out[0]| == count
    ensures |ds| == count ==> out == [PinString(ds)]
  {
    if |ds| == count then [PinString(ds)] else []
  }

  /** The completions reported while one event is handled: after a digit key
      (accepted or not) and on ENTER, ensureFinishInput runs on the list as it
      then is. */
  function Emitted(count: nat, ds: seq<int>, e: KeyEvent): (out: seq<string>)
    requires IsDigits(ds)
    ensures |out| <= 1
    ensures |out| == 1 ==> |NextDigits(count, ds, e)| == count && out[0] == PinString(NextDigits(count, ds, e))
  {
    if e.action != ACTION_DOWN then []
    else if IsDigitKey(e.code) then Completion(count, NextDigits(count, ds, e))
    else if e.code == KEYCODE_DEL then []
    else if e.code == KEYCODE_ENTER then Completion(count, ds)
    else []
  }

  /** A key event the listener leaves unhandled changes nothing and reports nothing. */
  lemma UnhandledChangesNothing(count: nat, ds: seq<int>, e: KeyEvent)
    requires IsDigits(ds) && !Handled(e)
    ensures NextDigits(count, ds, e) == ds && Emitted(count, ds, e) == []
  {
  }

  /** A digit key press appends its value (0..9) at the end while there is room,
      and is rejected without change once the list is full. */
  lemma DigitKey(count: nat, ds: seq<int>, e: KeyEvent)
    requires IsDigits(ds) && |ds| <= count
    requires e.action == ACTION_DOWN && IsDigitKey(e.code)
    ensures var r := NextDigits(count, ds, e);
      if |ds| < count then |r| == |ds| + 1 && r[..|ds|] == ds && r[|ds|] == e.code - 7 && 0 <= r[|ds|] <= 9
      else r == ds
  {
  }

  /** DEL removes exactly the last digit of a non-empty list and is a no-op on an empty one. */
  lemma DeleteKey(count: nat, ds: seq<int>, e: KeyEvent)
    requires IsDigits(ds)
    requires e.action == ACTION_DOWN && e.code == KEYCODE_DEL
    ensures var r := NextDigits(count, ds, e);
      (ds == [] ==> r == []) && (ds != [] ==> |r| == |ds| - 1 && ds == r + [ds[|ds| - 1]])
    ensures Emitted(count, ds, e) == []
  {
  }

  /** ENTER leaves the list alone and completes exactly when the list is full. */
  lemma EnterKey(count: nat, ds: seq<int>, e: KeyEvent)
    requires IsDigits(ds)
    requires e.action == ACTION_DOWN && e.code == KEYCODE_ENTER
    ensures NextDigits(count, ds, e) == ds
    ensures Emitted(count, ds, e) == if |ds| == count then [PinString(ds)] else []
  {
  }

  /** DEL undoes an accepted digit key press. */
  lemma DeleteUndoesDigit(count: nat, ds: seq<int>, code: int)
    requires IsDigits(ds) && |ds| < count && IsDigitKey(code)
    ensures NextDigits(count, NextDigits(count, ds, KeyEvent(ACTION_DOWN, code)), KeyEvent(ACTION_DOWN, KEYCODE_DEL)) == ds
  {
  }

  /** The digit list after a sequence of key events. */
  function Run(count: nat, ds: seq<int>, keys: seq<KeyEvent>): (r: seq<int>)
    requires IsDigits(ds)
    ensures IsDigits(r)
    ensures |ds| <= count ==> |r| <= count
    decreases |keys|
  {
    if keys == [] then ds else Run(count, NextDigits(count, ds, keys[0]), keys[1..])
  }

  /** Every completion reported during a sequence of key events, in order. */
  function RunLog(count: nat, ds: seq<int>, keys: seq<KeyEvent>): (log: seq<string>)
    requires IsDigits(ds)
    ensures |log| <= |keys|
    ensures forall i :: 0 <= i < |log| ==> |log[i]| == count
    decreases |keys|
  {
    if keys == [] then []
    else Emitted(count, ds, keys[0]) + RunLog(count, NextDigits(count, ds, keys[0]), keys[1..])
  }

  lemma {:induction false} RunAppend(count: nat, ds: seq<int>, a: seq<KeyEvent>, b: seq<KeyEvent>)
    requires IsDigits(ds)
    ensures Run(count, ds, a + b) == Run(count, Run(count, ds, a), b)
    ensures RunLog(count, ds, a + b) == RunLog(count, ds, a) + RunLog(count, Run(count, ds, a), b)
    decreases |a|
  {
    if a == [] {
      assert a + b == b;
    } else {
      assert (a + b)[0] == a[0] && (a + b)[1..] == a[1..] + b;
      RunAppend(count, NextDigits(count, ds, a[0]), a[1..], b);
    }
  }

  /** The key-down events that type the given digits. */
  function Presses(vals: seq<int>): seq<KeyEvent> {
    if vals == [] then [] else [KeyEvent(ACTION_DOWN, KEYCODE_0 + vals[0])] + Presses(vals[1..])
  }

  /** The first of a run of digit presses is handled first. */
  lemma PressesStep(count: nat, ds: seq<int>, vals: seq<int>)
    requires IsDigits(ds) && vals != []
    ensures var next := NextDigits(count, ds, KeyEvent(ACTION_DOWN, KEYCODE_0 + vals[0]));
      && Run(count, ds, Presses(vals)) == Run(count, next, Presses(vals[1..]))
      && RunLog(count, ds, Presses(vals)) == Emitted(count, ds, KeyEvent(ACTION_DOWN, KEYCODE_0 + vals[0])) + RunLog(count, next, Presses(vals[1..]))
  {
  }

  /** Moving the first typed digit onto the list keeps the whole text. */
  lemma ShiftHead(ds: seq<int>, vals: seq<int>)
    requires vals != []
    ensures (ds + [vals[0]]) + vals[1..] == ds + vals
  {
  }

  /** Digits typed after the list leave its prefix as it was. */
  lemma PrefixOfFull(ds: seq<int>, vals: seq<int>)
    ensures (ds + vals)[..|ds|] == ds
  {
  }

  /** A run of digit presses keeps the digits that fit: the list becomes the
      first count digits of the old list followed by the typed ones. */
  lemma {:induction false} RunPresses(count: nat, ds: seq<int>, vals: seq<int>)
    requires IsDigits(ds) && IsDigits(vals) && |ds| <= count
    ensures |ds| + |vals| <= count ==> Run(count, ds, Presses(vals)) == ds + vals
    ensures |ds| + |vals| >= count ==> Run(count, ds, Presses(vals)) == (ds + vals)[..count]
    decreases |vals|
  {
    if vals != [] {
      var next := NextDigits(count, ds, KeyEvent(ACTION_DOWN, KEYCODE_0 + vals[0]));
      PressesStep(count, ds, vals);
      RunPresses(count, next, vals[1..]);
      if |ds| < count {
        assert next == ds + [vals[0]];
        ShiftHead(ds, vals);
      } else {
        assert next == ds;
        PrefixOfFull(ds, vals);
        PrefixOfFull(ds, vals[1..]);
      }
    }
  }

  function Repeat(s: string, k: nat): (r: seq<string>) {
    if k == 0 then [] else [s] + Repeat(s, k - 1)
  }

  /** How many of m digit presses, starting from a list of len <= count
      digits, leave the list full (each of them triggers a completion). */
  function FullAfter(count: nat, len: nat, m: nat): nat {
    if len == count then m
    else if len + m < count then 0
    else len + m - count + 1
  }

  /** Once the list is full every further digit press is rejected and
      reports the same PIN again. */
  lemma {:induction false} PressesWhenFull(count: nat, ds: seq<int>, vals: seq<int>)
    requires IsDigits(ds) && IsDigits(vals) && |ds| == count
    ensures Run(count, ds, Presses(vals)) == ds
    ensures RunLog(count, ds, Presses(vals)) == Repeat(PinString(ds), |vals|)
    decreases |vals|
  {
    if vals != [] {
      PressesStep(count, ds, vals);
      PressesWhenFull(count, ds, vals[1..]);
    }
  }

  /** Completion fires after EVERY digit press that leaves the list full, the
      rejected ones included, and each time reports the same full list. */
  lemma {:induction false} PressesLog(count: nat, ds: seq<int>, vals: seq<int>)
    requires IsDigits(ds) && IsDigits(vals) && |ds| <= count
    ensures RunLog(count, ds, Presses(vals)) == Repeat(PinString(Run(count, ds, Presses(vals))), FullAfter(count, |ds|, |vals|))
    decreases |vals|
  {
    if |ds| == count {
      PressesWhenFull(count, ds, vals);
    } else if vals != [] {
      var rest := vals[1..];
      var next := NextDigits(count, ds, KeyEvent(ACTION_DOWN, KEYCODE_0 + vals[0]));
      assert next == ds + [vals[0]];
      PressesStep(count, ds, vals);
      if |next| == count {
        PressesWhenFull(count, next, rest);
        assert FullAfter(count, |ds|, |vals|) == |vals|;
      } else {
        PressesLog(count, next, rest);
        assert FullAfter(count, |ds|, |vals|) == FullAfter(count, |next|, |rest|);
      }
    }
  }

  /** Typing count digits into an empty list completes exactly once, at the last press. */
  lemma TypingFullPin(count: nat, vals: seq<int>)
    requires IsDigits(vals) && |vals| == count && count >= 1
    ensures Run(count, [], Presses(vals)) == vals
    ensures RunLog(count, [], Presses(vals)) == [PinString(vals)]
  {
    RunPresses(count, [], vals);
    PressesLog(count, [], vals);
    assert [] + vals == vals;
    assert Repeat(PinString(vals), 1) == [PinString(vals)];
  }

  /** ENTER after any key sequence reports the list once more if it is full,
      and nothing otherwise. */
  lemma EnterAfter(count: nat, ds: seq<int>, keys: seq<KeyEvent>)
    requires IsDigits(ds)
    ensures var enter := KeyEvent(ACTION_DOWN, KEYCODE_ENTER);
      RunLog(count, ds, keys + [enter]) == RunLog(count, ds, keys) + Completion(count, Run(count, ds, keys))
  {
    var enter := [KeyEvent(ACTION_DOWN, KEYCODE_ENTER)];
    RunAppend(count, ds, keys, enter);
    var fin := Run(count, ds, keys);
    assert enter[1..] == [];
    assert RunLog(count, fin, enter) == Emitted(count, fin, enter[0]) + RunLog(count, fin, []);
  }

  /** Typing a full PIN and then pressing ENTER reports the PIN twice: once on
      the last digit and once on ENTER. */
  lemma EnterAfterFullPinCompletesAgain(count: nat, vals: seq<int>)
    requires IsDigits(vals) && |vals| == count && count >= 1
    ensures RunLog(count, [], Presses(vals) + [KeyEvent(ACTION_DOWN, KEYCODE_ENTER)]) == [PinString(vals), PinString(vals)]
  {
    TypingFullPin(count, vals);
    EnterAfter(count, [], Presses(vals));
  }

  /** Six digits into six cells report "123456" once; DEL and then ENTER report nothing more. */
  lemma ScenarioSixDigitsThenDeleteAndEnter()
    ensures Run(6, [], Presses([1, 2, 3, 4, 5, 6])) == [1, 2, 3, 4, 5, 6]
    ensures RunLog(6, [], Presses([1, 2, 3, 4, 5, 6])) == ["123456"]
    ensures var keys := Presses([1, 2, 3, 4, 5, 6]) + [KeyEvent(ACTION_DOWN, KEYCODE_DEL), KeyEvent(ACTION_DOWN, KEYCODE_ENTER)];
      Run(6, [], keys) == [1, 2, 3, 4, 5] && RunLog(6, [], keys) == ["123456"]
  {
    var vals := [1, 2, 3, 4, 5, 6];
    TypingFullPin(6, vals);
    assert PinString(vals) == "123456";
    var tail := [KeyEvent(ACTION_DOWN, KEYCODE_DEL), KeyEvent(ACTION_DOWN, KEYCODE_ENTER)];
    RunAppend(6, [], Presses(vals), tail);
    var five := [1, 2, 3, 4, 5];
    assert vals[..5] == five;
    assert NextDigits(6, vals, tail[0]) == five && Emitted(6, vals, tail[0]) == [];
    assert NextDigits(6, five, tail[1]) == five && Emitted(6, five, tail[1]) == [];
    assert tail[1..][1..] == [];
    assert Run(6, vals, tail) == Run(6, five, tail[1..]) == Run(6, five, []) == five;
    assert RunLog(6, vals, tail) == RunLog(6, five, tail[1..]) == [];
  }

  /** With four cells: 9, 9, DEL, 5 leaves [9, 5] and reports nothing. */
  lemma ScenarioFourCells()
    ensures var keys := [KeyEvent(ACTION_DOWN, 16), KeyEvent(ACTION_DOWN, 16), KeyEvent(ACTION_DOWN, KEYCODE_DEL), KeyEvent(ACTION_DOWN, 12)];
      Run(4, [], keys) == [9, 5] && RunLog(4, [], keys) == []
  {
    var keys := [KeyEvent(ACTION_DOWN, 16), KeyEvent(ACTION_DOWN, 16), KeyEvent(ACTION_DOWN, KEYCODE_DEL), KeyEvent(ACTION_DOWN, 12)];
    assert NextDigits(4, [], keys[0]) == [9];
    assert NextDigits(4, [9], keys[1]) == [9, 9];
    assert NextDigits(4, [9, 9], keys[2]) == [9];
    assert NextDigits(4, [9], keys[3]) == [9, 5];
    assert keys[1..][1..][1..][1..] == [];
    assert Run(4, [], keys) == Run(4, [9], keys[1..]) == Run(4, [9, 9], keys[1..][1..])
        == Run(4, [9], keys[1..][1..][1..]) == Run(4, [9, 5], keys[1..][1..][1..][1..]);
    assert RunLog(4, [], keys) == RunLog(4, [9], keys[1..]) == RunLog(4, [9, 9], keys[1..][1..])
        == RunLog(4, [9], keys[1..][1..][1..]) == RunLog(4, [9, 5], keys[1..][1..][1..][1..]);
  }
}
