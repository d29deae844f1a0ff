/** The geometry the six bounds calculators promise together: each
    quadrant stays inside the view, and the six rectangles tile the view
    exactly, split into columns at `width / 2` and into rows at
    `height / 3` and `2 * height / 3`. */
module Tiling {
  import opened JavaInt
  import opened Quadrants

  /** Heights from here on make `2 * height` wrap in Java `int`. */
  const OVERFLOW_HEIGHT: int := 0x4000_0000

  /** The view sizes for which the calculators are exact: not negative,
      and short enough that `2 * height` does not wrap. */
  predicate Fits(width: Int32, height: Int32) {
    0 <= width && 0 <= height < OVERFLOW_HEIGHT
  }

  /** The split points lie in order inside the view, and the lower row
      edge is `(2 * height) / 3`, not `2 * (height / 3)`. */
  lemma EdgesOrdered(width: Int32, height: Int32)
    requires Fits(width, height)
    ensures 0 <= ColumnEdge(width) <= width
    ensures 0 <= UpperEdge(height) <= LowerEdge(height) <= height
    ensures LowerEdge(height) == (2 * height) / 3
  {
    assert Wrap(2 * height) == 2 * height;
    DivMonotone(height, 2 * height, 3);
    DivMonotone(width, width, 2);
  }

  /** Every calculator yields a rectangle inside the view. */
  lemma BoundsInsideView(q: Quadrant, width: Int32, height: Int32)
    requires Fits(width, height)
    ensures var r := Bounds(q, width, height);
      0 <= r.left <= r.right <= width && 0 <= r.top <= r.bottom <= height
  {
  }

  /** Point location, stated independently of the calculators: the column
      of pixel (x, y) is fixed by `x`, its row by `y`. */
  function CellAt(width: Int32, height: Int32, x: int, y: int): Quadrant {
    var left := x < ColumnEdge(width);
    if y < UpperEdge(height) then (if left then TopLeft else TopRight)
    else if y < LowerEdge(height) then (if left then MiddleLeft else MiddleRight)
    else (if left then BottomLeft else BottomRight)
  }

  /** A pixel of the view lies in a quadrant's bounds exactly when it is
      that quadrant's cell: no gaps and no overlaps. */
  lemma ExactTiling(q: Quadrant, width: Int32, height: Int32, x: int, y: int)
    requires Fits(width, height)
    requires 0 <= x < width && 0 <= y < height
    ensures Bounds(q, width, height).Contains(x, y) <==> q == CellAt(width, height, x, y)
  {
  }

  /** The same fact read as a partition: some quadrant covers each pixel,
      and two different quadrants never both do. */
  lemma Partition(width: Int32, height: Int32, x: int, y: int)
    requires Fits(width, height)
    requires 0 <= x < width && 0 <= y < height
    ensures Bounds(CellAt(width, height, x, y), width, height).Contains(x, y)
    ensures forall p, q :: Bounds(p, width, height).Contains(x, y) && Bounds(q, width, height).Contains(x, y) ==> p == q
  {
  }

  /** The summed areas of the quadrants in `qs`. */
  function TotalArea(qs: seq<Quadrant>, width: Int32, height: Int32): int {
    if qs == [] then 0 else Bounds(qs[0], width, height).Area() + TotalArea(qs[1..], width, height)
  }

  /** The six areas add up to the view's area. */
  lemma AreasSum(width: Int32, height: Int32)
    requires Fits(width, height)
    ensures TotalArea(Values, width, height) == width * height
  {
    var c, a, b := ColumnEdge(width), UpperEdge(height), LowerEdge(height);
    UnfoldTotalArea(Values, width, height);
    assert Bounds(TopLeft, width, height).Area() == c * a;
    assert Bounds(TopRight, width, height).Area() == (width - c) * a;
    assert Bounds(MiddleRight, width, height).Area() == (width - c) * (b - a);
    assert Bounds(BottomRight, width, height).Area() == (width - c) * (height - b);
    assert Bounds(BottomLeft, width, height).Area() == c * (height - b);
    assert Bounds(MiddleLeft, width, height).Area() == c * (b - a);
    GridArea(width, height, c, a, b);
  }

  /** Six cells cut from a w by h box at column c and rows a and b have
      areas summing to w * h, wherever the cuts fall. */
  lemma GridArea(w: int, h: int, c: int, a: int, b: int)
    ensures c * a + (w - c) * a + (w - c) * (b - a) + (w - c) * (h - b) + c * (h - b) + c * (b - a) == w * h
  {
    // each row is split at the column edge into two parts that add up to the full width
    Distribute(c, w - c, a);
    Distribute(w - c, c, b - a);
    Distribute(w - c, c, h - b);
    // and the three row heights add up to the view's height
    Distribute(a, b - a, w);
    Distribute(b, h - b, w);
  }

  lemma Distribute(x: int, y: int, z: int)
    ensures x * z + y * z == (x + y) * z
    ensures z * x + z * y == z * (x + y)
  {
  }

  /** Unrolls the sum over six quadrants. */
  lemma UnfoldTotalArea(qs: seq<Quadrant>, width: Int32, height: Int32)
    requires |qs| == 6
    ensures TotalArea(qs, width, height)
      == Bounds(qs[0], width, height).Area() + Bounds(qs[1], width, height).Area()
       + Bounds(qs[2], width, height).Area() + Bounds(qs[3], width, height).Area()
       + Bounds(qs[4], width, height).Area() + Bounds(qs[5], width, height).Area()
  {
    var w, h := width, height;
    forall i | 0 <= i < 6
      ensures TotalArea(qs[i..], w, h) == Bounds(qs[i], w, h).Area() + TotalArea(qs[i + 1..], w, h)
    {
      assert qs[i..][1..] == qs[i + 1..];
    }
    assert qs[0..] == qs;
    assert qs[6..] == [];
  }

  /** A 100 by 90 view. Also shows that the lower edge
      differs from twice the upper edge when `height` is not a multiple of 3. */
  lemma ExampleBounds()
    ensures Bounds(BottomLeft, 100, 90) == Rect(0, 60, 50, 90)
    ensures Bounds(TopRight, 100, 90) == Rect(50, 0, 100, 30)
    ensures LowerEdge(2) == 1 && 2 * UpperEdge(2) == 0
  {
  }

  /** For heights of 2^30 and more, `2 * height` wraps negative and the
      middle row comes out upside down: its bottom lies above its top. */
  lemma MiddleRowInvertedOnOverflow(width: Int32, height: Int32)
    requires OVERFLOW_HEIGHT <= height
    ensures Bounds(MiddleLeft, width, height).bottom < Bounds(MiddleLeft, width, height).top
    ensures Bounds(MiddleRight, width, height).bottom < Bounds(MiddleRight, width, height).top
  {
  }
}
