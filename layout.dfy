/** Size negotiation of the PIN widget (onMeasure and measureSize): each
    dimension is either wrap_content (the AT_MOST mode) or a size the parent
    gives, the missing dimension is derived from the other one through the
    cell size, and the result is clamped to the parent's proposal. */
module Layout {

  /** A parent's measure constraint for one dimension. AtMost is the AT_MOST
      mode; Given stands for the two other modes (EXACTLY, UNSPECIFIED), whose
      size measureSize takes as it is. */
  datatype MeasureSpec = AtMost(size: nat) | Given(size: nat)

  /** The outcome of onMeasure: the measured dimensions handed to
      setMeasuredDimension and the cell size mSize afterwards. */
  datatype Measured = Measured(width: int, height: int, cellSize: nat)

  function Min(a: int, b: int): (m: int)
    ensures m <= a && m <= b && (m == a || m == b)
  {
    if a <= b then a else b
  }

  /** measureSize: -1 marks wrap_content, and since sizes are never negative
      the marker cannot be mistaken for a size. */
  function MeasureSize(spec: MeasureSpec): (r: int)
    ensures r == -1 <==> spec.AtMost?
    ensures r != -1 ==> r == spec.size
  {
    if spec.AtMost? then -1 else spec.size
  }

  /** onMeasure for count cells, when the cell size before the call is
      cellSize. */
  function Measure(count: nat, cellSize: nat, ws: MeasureSpec, hs: MeasureSpec): (m: Measured)
    // never larger than the parent proposes
    ensures m.width <= ws.size && m.height <= hs.size
    // wrap_content width, given height: count cells as tall as the height
    ensures ws.AtMost? && hs.Given? ==>
      m == Measured(Min(hs.size * count, ws.size), hs.size, hs.size)
    // both wrap_content: count cells of the current cell size, which is kept
    ensures ws.AtMost? && hs.AtMost? ==>
      m == Measured(Min(cellSize * count, ws.size), Min(cellSize, hs.size), cellSize)
    // given width, wrap_content height: the height is a sixth of the width
    ensures ws.Given? && hs.AtMost? ==>
      m == Measured(ws.size, Min(ws.size / 6, hs.size), ws.size / 6)
    // both given: taken as they are, the cell size is left alone
    ensures ws.Given? && hs.Given? ==> m == Measured(ws.size, hs.size, cellSize)
  {
    var width := MeasureSize(ws);
    var height := MeasureSize(hs);
    if width == -1 then
      if height != -1 then
        Measured(Min(height * count, ws.size), Min(height, hs.size), height)
      else
        Measured(Min(cellSize * count, ws.size), Min(cellSize, hs.size), cellSize)
    else if height == -1 then
      Measured(Min(width, ws.size), Min(width / 6, hs.size), width / 6)
    else
      Measured(Min(width, ws.size), Min(height, hs.size), cellSize)
  }

  /** When the width is derived and the parent's bound does not cut it, the
      measured box holds exactly count square cells of the new cell size. */
  lemma DerivedWidthHoldsCells(count: nat, cellSize: nat, ws: MeasureSpec, hs: MeasureSpec)
    requires ws.AtMost?
    requires hs.Given? ==> hs.size * count <= ws.size
    requires hs.AtMost? ==> cellSize * count <= ws.size && cellSize <= hs.size
    ensures var m := Measure(count, cellSize, ws, hs);
      m.width == m.cellSize * count && m.height == m.cellSize
  {
  }

  /** A derived height is the largest cell size for which six cells fit into
      the given width. */
  lemma DerivedHeightFitsSixCells(count: nat, cellSize: nat, ws: MeasureSpec, hs: MeasureSpec)
    requires ws.Given? && hs.AtMost?
    ensures var m := Measure(count, cellSize, ws, hs);
      m.cellSize * 6 <= m.width < (m.cellSize + 1) * 6
  {
  }

  /** The derivation divides by six whatever the cell count: with four cells
      of a 100-wide box the cell size is 16, not 25. */
  lemma HeightIgnoresCellCount()
    ensures Measure(4, 0, Given(100), AtMost(1000)) == Measured(100, 16, 16)
  {
  }

  /** Measuring again with the same constraints gives the same size and the
      same cell size. */
  lemma MeasureIdempotent(count: nat, cellSize: nat, ws: MeasureSpec, hs: MeasureSpec)
    ensures var m := Measure(count, cellSize, ws, hs);
      Measure(count, m.cellSize, ws, hs) == m
  {
  }

  /** Exactly 120 wide, height wrap_content under 999, six cells: 120 by 20
      with cells of 20. */
  lemma ScenarioGivenWidth(cellSize: nat)
    ensures Measure(6, cellSize, Given(120), AtMost(999)) == Measured(120, 20, 20)
  {
  }
}
