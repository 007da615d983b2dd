/** The PIN widget itself: the fields PasswordView updates in place and its
    callbacks onKey, ensureFinishInput, onMeasure, onSizeChanged and onDraw,
    each proved to follow the pure model of its module. */
module Widget {
  import opened PinEntry
  import opened Layout
  import opened Drawing

  class PasswordView {
    /** The number of cells (mCount). */
    const mCount: nat := 6
    /** Corner radius of the border, five times the screen density. */
    const mRoundRadius: int
    /** Cell size; it starts at twenty times the screen density. */
    var mSize: nat
    var mWidth: int
    var mHeight: int
    var mRoundRect: Rect
    /** The entered digits. */
    var mResult: seq<int>
    /** What onMeasure last passed to setMeasuredDimension. */
    var measuredWidth: int
    var measuredHeight: int
    /** Every PIN text ensureFinishInput has built, in order. */
    ghost var completions: seq<string>
    /** How many times a redraw was requested (invalidate). */
    ghost var redraws: nat

    ghost predicate Valid()
      reads this
    {
      IsDigits(mResult) && |mResult| <= mCount
    }

    /** A new widget on a screen of density dpi: no digits, an empty border. */
    constructor (dpi: nat)
      ensures Valid()
      ensures mResult == [] && completions == [] && redraws == 0
      ensures mSize == dpi * 20 && mRoundRadius == dpi * 5
      ensures mRoundRect == Rect(0, 0, 0, 0) && mWidth == 0 && mHeight == 0
      ensures measuredWidth == 0 && measuredHeight == 0
    {
      mRoundRadius := dpi * 5;
      mSize := dpi * 20;
      mWidth, mHeight := 0, 0;
      mRoundRect := Rect(0, 0, 0, 0);
      mResult := [];
      measuredWidth, measuredHeight := 0, 0;
      completions := [];
      redraws := 0;
    }

    /** InputNumderKeyListener.onKey: digits append while there is room, DEL
        drops the last digit, and completion is attempted after every digit
        key and on ENTER. */
    method OnKey(keyCode: int, action: int) returns (handled: bool)
      requires Valid()
      modifies this`mResult, this`completions, this`redraws
      ensures Valid()
      ensures handled == Handled(KeyEvent(action, keyCode))
      ensures mResult == NextDigits(mCount, old(mResult), KeyEvent(action, keyCode))
      ensures completions == old(completions) + Emitted(mCount, old(mResult), KeyEvent(action, keyCode))
      ensures redraws == old(redraws) + (if mResult == old(mResult) then 0 else 1)
    {
      if action == ACTION_DOWN {
        if KEYCODE_0 <= keyCode <= KEYCODE_9 {
          if |mResult| < mCount {
            mResult := mResult + [keyCode - 7];
            redraws := redraws + 1;
          }
          if |mResult| == mCount {
            EnsureFinishInput();
          }
          return true;
        }
        if keyCode == KEYCODE_DEL {
          if |mResult| != 0 {
            mResult := mResult[..|mResult| - 1];
            redraws := redraws + 1;
          }
          return true;
        }
        if keyCode == KEYCODE_ENTER {
          EnsureFinishInput();
          return true;
        }
      }
      return false;
    }

    /** ensureFinishInput: once all cells are filled, writes the digits one
        after the other into a buffer and records the text. */
    method EnsureFinishInput()
      requires Valid()
      modifies this`completions
      ensures completions == old(completions) + Completion(mCount, mResult)
    {
      if |mResult| == mCount {
        var buffer: string := "";
        var i := 0;
        while i < |mResult|
          invariant 0 <= i <= |mResult|
          invariant buffer == PinString(mResult[..i])
        {
          assert mResult[..i + 1][..i] == mResult[..i];
          buffer := buffer + [DigitChar(mResult[i])];
          i := i + 1;
        }
        assert mResult[..i] == mResult;
        completions := completions + [buffer];
      }
    }

    /** onMeasure: derives the missing dimension, possibly resets the cell
        size, and reports the clamped size. */
    method OnMeasure(widthSpec: MeasureSpec, heightSpec: MeasureSpec)
      modifies this`mSize, this`measuredWidth, this`measuredHeight
      ensures Measured(measuredWidth, measuredHeight, mSize) == Measure(mCount, old(mSize), widthSpec, heightSpec)
    {
      var width := MeasureSize(widthSpec);
      var height := MeasureSize(heightSpec);
      if width == -1 {
        if height != -1 {
          width := height * mCount;
          mSize := height;
        } else {
          width := mSize * mCount;
          height := mSize;
        }
      } else {
        if height == -1 {
          height := width / 6;
          mSize := height;
        }
      }
      measuredWidth, measuredHeight := Min(width, widthSpec.size), Min(height, heightSpec.size);
    }

    /** onSizeChanged: the drawable box is the new size less the 2-unit
        border; the cell size is not recomputed. */
    method OnSizeChanged(w: int, h: int)
      modifies this`mWidth, this`mHeight, this`mRoundRect
      ensures mWidth == w - 2 && mHeight == h - 2
      ensures mRoundRect == Rect(0, 0, w - 2, h - 2)
      ensures mSize == old(mSize) && mResult == old(mResult)
    {
      mWidth := w - 2;
      mHeight := h - 2;
      mRoundRect := Rect(0, 0, mWidth, mHeight);
    }

    /** onDraw: the border, then the dividers, then one dot per digit. It
        changes nothing. */
    method OnDraw() returns (calls: seq<DrawCall>)
      ensures calls == DrawCalls(mCount, mSize, mRoundRect, mRoundRadius, mHeight, |mResult|)
    {
      var border := RoundRect(mRoundRect, mRoundRadius, mRoundRadius, BorderPaint);
      calls := [border];
      var i := 1;
      while i < mCount
        invariant 1 <= i <= mCount
        invariant calls == [border] + Dividers(i, mSize, mHeight)
      {
        var x := i * mSize;
        assert Dividers(i + 1, mSize, mHeight) == Dividers(i, mSize, mHeight) + [Divider(i, mSize, mHeight)];
        calls := calls + [Line(x, 0, x, mHeight, BorderPaint)];
        i := i + 1;
      }
      var lines := calls;
      var dotRadius := mSize / 6;
      var size := |mResult|;
      i := 0;
      while i < size
        invariant 0 <= i <= size
        invariant calls == lines + Dots(i, mSize)
      {
        assert Dots(i + 1, mSize) == Dots(i, mSize) + [Dot(i, mSize)];
        calls := calls + [Circle((2 * i + 1) * mSize, mSize, dotRadius, DotPaint)];
        i := i + 1;
      }
    }
  }
}
