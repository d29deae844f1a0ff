/** The `Quadrant` enum of LoaderView: six cells of a 2-column by 3-row
    grid, each with a fixed ARGB colour and a bounds calculator, plus the
    fixed successor `getNext` and the rejection sampler `getRandomQuadrant`. */
module Quadrants {
  import opened JavaInt
  import opened Wrappers

  datatype Quadrant = TopLeft | TopRight | MiddleRight | BottomRight | BottomLeft | MiddleLeft

  /** `Quadrant.values()`: the constants in declaration order. */
  const Values: seq<Quadrant> := [TopLeft, TopRight, MiddleRight, BottomRight, BottomLeft, MiddleLeft]

  /** The position of a constant in `Values` (Java's `ordinal()`). */
  function Ordinal(q: Quadrant): (i: nat)
    ensures i < |Values| && Values[i] == q
  {
    match q
    case TopLeft => 0
    case TopRight => 1
    case MiddleRight => 2
    case BottomRight => 3
    case BottomLeft => 4
    case MiddleLeft => 5
  }

  /** A rectangle as Android's `setBounds(left, top, right, bottom)` takes it. */
  datatype Rect = Rect(left: int, top: int, right: int, bottom: int)
  {
    /** The pixel (x, y) lies inside: edges left and top are in, right and bottom are out. */
    predicate Contains(x: int, y: int) {
      left <= x < right && top <= y < bottom
    }

    function Area(): int {
      (right - left) * (bottom - top)
    }
  }

  // ---------------------------------------------------------------- colours

  /** The alpha byte of an ARGB colour held in a Java `int`. */
  function Alpha(c: Int32): int {
    Unsigned(c) / 0x100_0000
  }

  /** The colour passed to the enum constructor, as the Java `int` the
      literal denotes (literals 0xff...... are negative ints). */
  function Color(q: Quadrant): (c: Int32)
    ensures c < 0
    ensures Alpha(c) == 0xff
  {
    match q
    case TopLeft => Wrap(0xffff0000)
    case TopRight => Wrap(0xffffff00)
    case MiddleRight => Wrap(0xff00ff00)
    case BottomRight => Wrap(0xff00ffff)
    case BottomLeft => Wrap(0xff0000ff)
    case MiddleLeft => Wrap(0xffff00ff)
  }

  /** No two quadrants share a colour. */
  lemma ColorsDistinct(p: Quadrant, q: Quadrant)
    requires p != q
    ensures Color(p) != Color(q)
  {
  }

  // ----------------------------------------------------------------- bounds

  /** `width / 2`: the edge between the two columns. */
  function ColumnEdge(width: Int32): Int32 {
    Div(width, 2)
  }

  /** `height / 3`: the edge between the top and the middle row. */
  function UpperEdge(height: Int32): Int32 {
    Div(height, 3)
  }

  /** `2 * height / 3`: the edge between the middle and the bottom row,
      with the product computed in Java `int` (it wraps for height >= 2^30). */
  function LowerEdge(height: Int32): Int32 {
    Div(Wrap(2 * height), 3)
  }

  /** The four calculator results `getLeft`, `getTop`, `getRight`,
      `getBottom` of a quadrant for a view of the given size. */
  function Bounds(q: Quadrant, width: Int32, height: Int32): Rect {
    match q
    case TopLeft => Rect(0, 0, ColumnEdge(width), UpperEdge(height))
    case TopRight => Rect(ColumnEdge(width), 0, width, UpperEdge(height))
    case MiddleRight => Rect(ColumnEdge(width), UpperEdge(height), width, LowerEdge(height))
    case BottomRight => Rect(ColumnEdge(width), LowerEdge(height), width, height)
    case BottomLeft => Rect(0, LowerEdge(height), ColumnEdge(width), height)
    case MiddleLeft => Rect(0, UpperEdge(height), ColumnEdge(width), LowerEdge(height))
  }

  // ------------------------------------------------------------- successor

  /** `getNext`: the clockwise walk TopLeft, TopRight, MiddleRight,
      BottomRight, BottomLeft, MiddleLeft and back. The walk happens to
      follow declaration order, so it is the next ordinal modulo six. */
  function Next(q: Quadrant): (r: Quadrant)
    ensures Ordinal(r) == (Ordinal(q) + 1) % |Values|
    ensures r != q
  {
    match q
    case TopLeft => TopRight
    case TopRight => MiddleRight
    case MiddleRight => BottomRight
    case BottomRight => BottomLeft
    case BottomLeft => MiddleLeft
    case MiddleLeft => TopLeft
  }

  /** The quadrant reached after `n` calls of `getNext`. */
  function NextN(q: Quadrant, n: nat): (r: Quadrant)
    ensures Ordinal(r) == (Ordinal(q) + n) % |Values|
  {
    if n == 0 then q else Next(NextN(q, n - 1))
  }

  /** Walking `a` steps and then `b` more is walking `a + b` steps. */
  lemma {:induction false} NextNAdd(q: Quadrant, a: nat, b: nat)
    ensures NextN(NextN(q, a), b) == NextN(q, a + b)
  {
    if b != 0 {
      NextNAdd(q, a, b - 1);
    }
  }

  /** Every quadrant has exactly one predecessor under `getNext`. */
  lemma NextIsPermutation(p: Quadrant, q: Quadrant)
    ensures Next(p) == Next(q) ==> p == q
    ensures exists s :: Next(s) == q
  {
    assert Next(NextN(q, 5)) == q;
  }

  /** Six steps return to the start; one to five steps never do. */
  lemma NextCycleLength(q: Quadrant, n: nat)
    requires 1 <= n <= 6
    ensures NextN(q, n) == q <==> n == 6
  {
  }

  /** Within one cycle no quadrant comes round twice. */
  lemma NextCycleNoRepeat(q: Quadrant, i: nat, j: nat)
    requires i < j < |Values|
    ensures NextN(q, i) != NextN(q, j)
  {
  }

  /** Within one cycle every quadrant is reached. */
  lemma NextCycleReachesAll(q: Quadrant, target: Quadrant)
    ensures exists k :: 0 <= k < |Values| && NextN(q, k) == target
  {
    var o, t := Ordinal(q), Ordinal(target);
    var k := if o <= t then t - o else t + |Values| - o;
    assert Ordinal(NextN(q, k)) == t;
  }

  // ---------------------------------------------------------------- random

  /** `getRandomQuadrant(current)`. The shared `Random` is replaced by the
      sequence of indices its `nextInt(6)` calls would return; the do-while
      loop takes draws until one names a quadrant other than `current`.
      `None` means the given draws ran out first. `used` is the number of
      draws taken. */
  method RandomQuadrant(current: Quadrant, draws: seq<int>) returns (r: Option<Quadrant>, used: nat)
    requires forall k :: 0 <= k < |draws| ==> 0 <= draws[k] < |Values|
    ensures used <= |draws|
    ensures r.Some? ==> 0 < used && r.value == Values[draws[used - 1]] && r.value != current
    ensures r.None? ==> used == |draws|
    ensures forall k :: 0 <= k < used && (r.None? || k < used - 1) ==> Values[draws[k]] == current
  {
    used := 0;
    while used < |draws|
      invariant used <= |draws|
      invariant forall k :: 0 <= k < used ==> Values[draws[k]] == current
    {
      var candidate := Values[draws[used]];
      used := used + 1;
      if candidate != current {
        return Some(candidate), used;
      }
    }
    r := None;
  }
}
