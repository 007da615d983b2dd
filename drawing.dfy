/** What onDraw paints, as an ordered list of draw calls: the rounded border,
    the cell dividers and one dot per entered digit.

    The dots sit at half-cell positions; to stay in integers a circle records
    twice its centre coordinates. */
module Drawing {

  datatype Rect = Rect(left: int, top: int, right: int, bottom: int)

  /** The two paints: the stroked border paint and the filled dot paint. */
  datatype Paint = BorderPaint | DotPaint

  datatype DrawCall =
    | RoundRect(rect: Rect, rx: int, ry: int, paint: Paint)
    | Line(x0: int, y0: int, x1: int, y1: int, paint: Paint)
      /** cx2 and cy2 are twice the centre's coordinates */
    | Circle(cx2: int, cy2: int, radius: int, paint: Paint)

  function DividerCount(count: nat): nat {
    if count == 0 then 0 else count - 1
  }

  /** The divider between cell i - 1 and cell i, for i in 1 .. count - 1. */
  function Divider(i: int, cellSize: nat, height: int): DrawCall {
    Line(i * cellSize, 0, i * cellSize, height, BorderPaint)
  }

  /** The dot of cell k: centred at ((k + 0.5) * cellSize, 0.5 * cellSize),
      with radius cellSize / 6. */
  function Dot(k: int, cellSize: nat): DrawCall {
    Circle((2 * k + 1) * cellSize, cellSize, cellSize / 6, DotPaint)
  }

  function Dividers(count: nat, cellSize: nat, height: int): seq<DrawCall> {
    seq(DividerCount(count), k => Divider(k + 1, cellSize, height))
  }

  function Dots(dots: nat, cellSize: nat): seq<DrawCall> {
    seq(dots, k => Dot(k, cellSize))
  }

  /** The frame onDraw paints for count cells of size cellSize, the rounded
      rectangle bounds with corner radius radius, a box of the given height
      and dots entered digits. */
  function DrawCalls(count: nat, cellSize: nat, bounds: Rect, radius: int, height: int, dots: nat): (calls: seq<DrawCall>)
    ensures |calls| == 1 + DividerCount(count) + dots
    ensures calls[0] == RoundRect(bounds, radius, radius, BorderPaint)
    ensures forall i :: 1 <= i < count ==> calls[i] == Line(i * cellSize, 0, i * cellSize, height, BorderPaint)
    ensures forall k :: 0 <= k < dots ==>
      calls[1 + DividerCount(count) + k] == Circle((2 * k + 1) * cellSize, cellSize, cellSize / 6, DotPaint)
  {
    [RoundRect(bounds, radius, radius, BorderPaint)] + Dividers(count, cellSize, height) + Dots(dots, cellSize)
  }

  /** Border and dividers come first, every dot after them: no dot is ever
      painted under a border stroke. */
  lemma BorderBeforeDots(count: nat, cellSize: nat, bounds: Rect, radius: int, height: int, dots: nat)
    ensures var calls := DrawCalls(count, cellSize, bounds, radius, height, dots);
      forall i :: 0 <= i < |calls| ==> (calls[i].paint == DotPaint <==> i > DividerCount(count))
  {
  }

  /** Dot k lies strictly inside cell k: between the dividers at k * cellSize
      and (k + 1) * cellSize, and between the top and the bottom of a square
      cell. */
  lemma DotInsideCell(k: nat, cellSize: nat)
    requires cellSize > 0
    ensures var c := Dot(k, cellSize);
      && 2 * (k * cellSize) < c.cx2 - 2 * c.radius
      && c.cx2 + 2 * c.radius < 2 * ((k + 1) * cellSize)
      && 0 < c.cy2 - 2 * c.radius
      && c.cy2 + 2 * c.radius < 2 * cellSize
  {
  }
}
