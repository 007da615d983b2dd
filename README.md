# PasswordView: a verified model of a fixed-length PIN-entry widget

`PasswordView` is an Android view that shows a rounded box divided into six
square cells, fills one cell with a dot per entered digit and accepts only
digit, DEL and ENTER keys. This project models its core in Dafny and proves
what the code promises:

- `PinEntry` (pin_entry.dfy): the key listener `InputNumderKeyListener.onKey`
  and `ensureFinishInput` as pure functions of the digit list: the next list
  after one key event, the completions one event reports, and their iteration
  over a sequence of events (`Run`, `RunLog`). Completion builds the PIN text,
  the left-to-right concatenation of the digits.
- `Layout` (layout.dfy): `measureSize` and `onMeasure` over constraints
  `AtMost(n) | Given(n)`, including the update of the cell size `mSize`.
- `Drawing` (drawing.dfy): the ordered draw calls `onDraw` issues.
- `Widget` (password_view.dfy): the class `PasswordView` with the fields the
  source updates in place (`mSize`, `mWidth`, `mHeight`, `mRoundRect`,
  `mResult`, the measured size) and the callbacks as methods. `OnKey`,
  `EnsureFinishInput`, `OnMeasure` and `OnDraw` are proved against the pure
  functions of `PinEntry`, `Layout` and `Drawing`; the constructor and
  `OnSizeChanged` state the new field values directly. The key handler and
  `ensureFinishInput` mutate the digit list and a ghost completion log. The
  buffer loop of `ensureFinishInput` and the two loops of `onDraw` are
  `while` loops with invariants.

Four behaviours of the code, kept as written:

- A digit key on a full list is rejected, but `ensureFinishInput` still runs
  after it, so completion is reported again on every digit press while the list
  is full (`PinEntry.PressesLog`). ENTER on a full list reports it once more
  (`PinEntry.EnterAfterFullPinCompletesAgain`).
- When only the width is given, the height is `width / 6` with a literal 6,
  whatever `mCount` is (`Layout.HeightIgnoresCellCount`).
- When both dimensions are given, `mSize` keeps whatever value it had before:
  the default `dpi * 20` or the value an earlier measure set.
- `onSizeChanged` leaves `mSize` as it is. It only insets the box by 2.

Key codes are Android's: `KEYCODE_0..KEYCODE_9` are 7..16, `KEYCODE_ENTER` is
66, `KEYCODE_DEL` is 67 and `ACTION_DOWN` is 0. That is why `keyCode - 7` is
the digit value. The screen density (`densityDpi`) is a constructor parameter.

## Model

| member | source | states |
|---|---|---|
| `PinEntry.DigitChar` | library/src/main/java/com/rtfsc/library/PasswordView.java:237-239 | appending one digit writes one character in '0'..'9' that reads back as that digit |
| `PinEntry.PinString` | library/src/main/java/com/rtfsc/library/PasswordView.java:234-240 | the PIN text has one character per digit, and character i is digit i, in entry order |
| `PinEntry.PinStringRoundTrip` | library/src/main/java/com/rtfsc/library/PasswordView.java:236-240 | reading the PIN text back gives exactly the digit list, so no information is lost or reordered |
| `PinEntry.PinStringAppend` | library/src/main/java/com/rtfsc/library/PasswordView.java:237-239 | the text of a concatenation is the concatenation of the texts (left-to-right order) |
| `PinEntry.NextDigits` | library/src/main/java/com/rtfsc/library/PasswordView.java:200-231 | one key event keeps the list all digits 0..9 and never pushes it past mCount entries |
| `PinEntry.EditsAtEnd` | library/src/main/java/com/rtfsc/library/PasswordView.java:204-221 | the list is unchanged, loses its last digit, or gains one digit at the end with the prefix untouched |
| `PinEntry.UnhandledChangesNothing` | library/src/main/java/com/rtfsc/library/PasswordView.java:200-231 | an event that onKey does not handle (not ACTION_DOWN, or another key) changes nothing and reports nothing |
| `PinEntry.DigitKey` | library/src/main/java/com/rtfsc/library/PasswordView.java:202-207 | with room, a digit key appends keyCode - 7, a value 0..9, at the end; on a full list it changes nothing |
| `PinEntry.DeleteKey` | library/src/main/java/com/rtfsc/library/PasswordView.java:215-221 | DEL on an empty list is a no-op; otherwise it removes exactly the last digit; it never completes |
| `PinEntry.EnterKey` | library/src/main/java/com/rtfsc/library/PasswordView.java:224-227 | ENTER leaves the list alone and completes with the PIN text exactly when the list is full |
| `PinEntry.DeleteUndoesDigit` | library/src/main/java/com/rtfsc/library/PasswordView.java:204-221 | DEL right after an accepted digit restores the list it started from |
| `PinEntry.Completion` | library/src/main/java/com/rtfsc/library/PasswordView.java:234-245 | ensureFinishInput reports one text exactly when the list holds mCount digits, and that text has mCount characters |
| `PinEntry.Emitted` | library/src/main/java/com/rtfsc/library/PasswordView.java:202-228 | an event reports at most one completion, only when the list after it is full, and that completion is the PIN text of that list |
| `PinEntry.Run` | library/src/main/java/com/rtfsc/library/PasswordView.java:200-231 | over any sequence of key events the list stays all digits and within mCount entries |
| `PinEntry.RunLog` | library/src/main/java/com/rtfsc/library/PasswordView.java:200-245 | a sequence of events reports at most one completion per event, each exactly mCount characters long |
| `PinEntry.RunAppend` | library/src/main/java/com/rtfsc/library/PasswordView.java:200-231 | handling a + b is handling a and then b from the list a leaves, and the completions are those of a followed by those of b |
| `PinEntry.RunPresses` | library/src/main/java/com/rtfsc/library/PasswordView.java:202-207 | typed digits are kept while they fit: the list becomes the first mCount digits of the old list followed by the typed ones |
| `PinEntry.PressesWhenFull` | library/src/main/java/com/rtfsc/library/PasswordView.java:204-210 | on a full list every digit press is rejected and still reports the same PIN text again |
| `PinEntry.PressesLog` | library/src/main/java/com/rtfsc/library/PasswordView.java:204-210 | over digit presses, one completion is reported for each press that leaves the list full, rejected presses included, always with the final PIN text |
| `PinEntry.TypingFullPin` | library/src/main/java/com/rtfsc/library/PasswordView.java:202-210 | typing mCount digits into the empty widget stores them and completes exactly once, with their text |
| `PinEntry.EnterAfter` | library/src/main/java/com/rtfsc/library/PasswordView.java:224-227 | ENTER after any key sequence adds one completion when the list is full and none otherwise |
| `PinEntry.EnterAfterFullPinCompletesAgain` | library/src/main/java/com/rtfsc/library/PasswordView.java:204-227 | typing a full PIN and pressing ENTER reports the PIN twice |
| `PinEntry.ScenarioSixDigitsThenDeleteAndEnter` | library/src/main/java/com/rtfsc/library/PasswordView.java:200-245 | 1..6 into six cells reports "123456" once; DEL and ENTER afterwards leave [1,2,3,4,5] and report nothing more |
| `PinEntry.ScenarioFourCells` | library/src/main/java/com/rtfsc/library/PasswordView.java:200-231 | with four cells, 9, 9, DEL, 5 leaves [9,5] and reports nothing |
| `PinEntry.Handled` | library/src/main/java/com/rtfsc/library/PasswordView.java:200-231 | true exactly for ACTION_DOWN with one of the twelve handled keys (KEYCODE_0 .. KEYCODE_9, ENTER, DEL) |
| `Layout.MeasureSize` | library/src/main/java/com/rtfsc/library/PasswordView.java:105-112 | -1 exactly for AT_MOST, otherwise the constraint's size |
| `Layout.Measure` | library/src/main/java/com/rtfsc/library/PasswordView.java:79-102 | the measured size never exceeds the proposed sizes; each of the four AT_MOST/given combinations fixes the width, the height and the new mSize |
| `Layout.DerivedWidthHoldsCells` | library/src/main/java/com/rtfsc/library/PasswordView.java:83-90 | a derived, unclamped width is exactly mCount square cells of the new cell size |
| `Layout.DerivedHeightFitsSixCells` | library/src/main/java/com/rtfsc/library/PasswordView.java:92-95 | a derived height is the largest cell size for which six cells fit the given width |
| `Layout.HeightIgnoresCellCount` | library/src/main/java/com/rtfsc/library/PasswordView.java:93-94 | the height derivation divides by 6 even when the cell count is 4 |
| `Layout.MeasureIdempotent` | library/src/main/java/com/rtfsc/library/PasswordView.java:79-102 | measuring again with the same constraints gives the same size and leaves mSize as the first measure set it |
| `Layout.ScenarioGivenWidth` | library/src/main/java/com/rtfsc/library/PasswordView.java:79-101 | a width of exactly 120 with a wrap_content height gives 120 by 20 with cells of 20 |
| `Drawing.DrawCalls` | library/src/main/java/com/rtfsc/library/PasswordView.java:123-140 | one rounded rect over mRoundRect, then mCount - 1 dividers at x = i * mSize from 0 to mHeight, then one dot per digit at ((i + 0.5) * mSize, 0.5 * mSize) with radius mSize / 6 |
| `Drawing.BorderBeforeDots` | library/src/main/java/com/rtfsc/library/PasswordView.java:125-139 | every call before the dots uses the border paint and every dot uses the dot paint |
| `Drawing.DotInsideCell` | library/src/main/java/com/rtfsc/library/PasswordView.java:128-138 | dot i lies strictly inside cell i, between its two dividers and within a square cell of side mSize |
| `Widget.PasswordView.constructor` | library/src/main/java/com/rtfsc/library/PasswordView.java:51-76 | a new widget has no digits, mSize = dpi * 20, corner radius dpi * 5 and an empty border rect |
| `Widget.PasswordView.OnKey` | library/src/main/java/com/rtfsc/library/PasswordView.java:200-231 | the new digit list, the completions logged and the handled flag are those of the pure key model; a redraw is requested exactly when the list changed |
| `Widget.PasswordView.EnsureFinishInput` | library/src/main/java/com/rtfsc/library/PasswordView.java:234-246 | the buffer loop builds the PIN text, which is logged exactly when the list is full |
| `Widget.PasswordView.OnMeasure` | library/src/main/java/com/rtfsc/library/PasswordView.java:79-102 | the measured size and the new mSize are those of Measure from the old mSize |
| `Widget.PasswordView.OnSizeChanged` | library/src/main/java/com/rtfsc/library/PasswordView.java:115-120 | mWidth = w - 2, mHeight = h - 2, the border rect is (0, 0, w - 2, h - 2), and mSize and the digits are unchanged |
| `Widget.PasswordView.OnDraw` | library/src/main/java/com/rtfsc/library/PasswordView.java:123-140 | the two loops issue exactly DrawCalls of the current state, and drawing changes no field |

## Left out

- Android `View` plumbing: the three constructor overloads, `super` calls, focusability and key-listener registration. Only the initial values of `mSize`, the corner radius and the border rect are kept.
- Paint and colour setup: it is configuration only, so a draw call records just which of the two paints it uses.
- Soft-keyboard handling in `onTouchEvent` and `onWindowFocusChanged`: it is host input-method I/O.
- `onCreateInputConnection`, `onCheckIsTextEditor` and `PrivateInputConnection`: these are input-method adapter plumbing.
- The debug `System.out.println` of the PIN: it is I/O. The ghost `completions` log records the printed text instead.
- `invalidate()`: it is modelled only as a ghost count of redraw requests.
- The bit packing of `MeasureSpec`: a constraint is the datatype `AtMost(n) | Given(n)`. `Given` covers both EXACTLY and UNSPECIFIED, which measureSize treats alike. Sizes are non-negative, as `MeasureSpec.getSize` returns them.
- The `View` and `KeyEvent` objects given to `onKey`, and the old size given to `onSizeChanged`: the model passes only the key code, the action and the new size.
- Drawing.DrawCalls: all draw coordinates are exact integers. The source passes floats to `drawRoundRect` (the rect set by `mRoundRect.set` and the radius `mDpi * 5`), to `drawLine` and to `drawCircle`, whose centres `(i + .5f) * mSize` are stored doubled here; float rounding at large sizes is not modelled.
- Layout.Measure: arithmetic is on unbounded integers. The source's 32-bit `height * mCount` and `mSize * mCount` wrap for sizes above 2^31 / 6, and that is not modelled; the same holds for `i * mSize` in `onDraw` (Drawing.DrawCalls). Because sizes are non-negative, Java's truncating `/` agrees with Dafny's.
