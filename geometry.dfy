/**
 * Integer rectangle geometry shared by every entity of the game (core.py):
 * the `Frame` rectangle with its derived edges, the boundary-inclusive
 * intersection test, the value-returning `resize`/`relocate`/`transform`,
 * the ball states, and the three-way helpers `compare` and `sign`.
 */
module Geometry {

  /** The `Size` named tuple: a width and a height. */
  datatype Size = Size(width: int, height: int)

  /** A displacement along both axes. */
  datatype Offset = Offset(dx: int, dy: int)

  /** The three states of a ball. */
  datatype BallState = Caught | Free | Fiery

  function Min(a: int, b: int): int { if a <= b then a else b }

  function Max(a: int, b: int): int { if a >= b then a else b }

  /**
   * Python's `int(n / 2)`: half of `n`, truncated toward zero
   * (Dafny's own `/` rounds toward negative infinity for negative `n`).
   */
  function TruncHalf(n: int): (r: int)
    ensures 0 <= n ==> 0 <= n - 2 * r <= 1
    ensures n <= 0 ==> -1 <= n - 2 * r <= 0
  {
    if n >= 0 then n / 2 else -((-n) / 2)
  }

  /** An axis-aligned rectangle with origin (x, y); y grows downwards. */
  datatype Frame = Frame(x: int, y: int, width: int, height: int)
  {
    function Top(): int { y }

    function Bottom(): int { y + height }

    function Left(): int { x }

    function Right(): int { x + width }

    /**
     * The vertical midpoint, `bottom - int(height / 2)`: for a rectangle of
     * non-negative height it lies between the top and the bottom, half-way,
     * rounded towards the bottom when the height is odd.
     */
    function Middle(): (m: int)
      ensures height >= 0 ==> Top() <= m <= Bottom()
      ensures height >= 0 ==> 0 <= 2 * m - (Top() + Bottom()) <= 1
    {
      Bottom() - TruncHalf(height)
    }

    function Location(): (int, int) { (x, y) }

    predicate NonNegative() { width >= 0 && height >= 0 }

    /** The `location` setter: a frame at a new origin with the same size. */
    function WithLocation(newX: int, newY: int): (f: Frame)
      ensures f.Location() == (newX, newY)
      ensures f.width == width && f.height == height
    {
      Frame(newX, newY, width, height)
    }

    /**
     * Closed-interval intersection: for rectangles of non-negative size, the
     * projections overlap on both axes, touching edges and corners included.
     */
    function IntersectsWith(other: Frame): (r: bool)
      ensures Left() > other.Right() || other.Left() > Right() ==> !r
      ensures Top() > other.Bottom() || other.Top() > Bottom() ==> !r
      ensures NonNegative() && other.NonNegative() ==>
                (r <==> (Left() <= other.Right() && other.Left() <= Right() &&
                         Top() <= other.Bottom() && other.Top() <= Bottom()))
    {
      Min(Right(), other.Right()) >= Max(Left(), other.Left()) &&
      Min(Bottom(), other.Bottom()) >= Max(Top(), other.Top())
    }

    function Resize(dWidth: int, dHeight: int): Frame
    {
      Frame(x, y, width + dWidth, height + dHeight)
    }

    function Relocate(dx: int, dy: int): Frame
    {
      Frame(x + dx, y + dy, width, height)
    }

    function Transform(dx: int, dy: int, dWidth: int, dHeight: int): Frame
    {
      Relocate(dx, dy).Resize(dWidth, dHeight)
    }
  }

  /** Contains(outer, inner): `inner` lies within `outer` on both axes. */
  predicate Contains(outer: Frame, inner: Frame)
  {
    outer.Left() <= inner.Left() && inner.Right() <= outer.Right() &&
    outer.Top() <= inner.Top() && inner.Bottom() <= outer.Bottom()
  }

  lemma IntersectsSymmetric(a: Frame, b: Frame)
    ensures a.IntersectsWith(b) == b.IntersectsWith(a)
  {
  }

  /** A rectangle of non-negative size intersects every rectangle containing it. */
  lemma ContainedIntersects(outer: Frame, inner: Frame)
    requires inner.width >= 0 && inner.height >= 0
    requires Contains(outer, inner)
    ensures inner.IntersectsWith(outer) && outer.IntersectsWith(inner)
  {
  }

  /** Rectangles sharing only an edge or a corner intersect; a gap of one unit separates. */
  lemma IntersectionIsBoundaryInclusive(a: Frame, dx: int, dy: int)
    requires a.width >= 0 && a.height >= 0
    ensures a.IntersectsWith(a.Relocate(a.width, a.height))
    ensures a.IntersectsWith(a.Relocate(a.width, 0))
    ensures !a.IntersectsWith(a.Relocate(a.width + 1, dy))
    ensures !a.IntersectsWith(a.Relocate(dx, a.height + 1))
  {
  }

  /** The cases of test_intersection. */
  lemma IntersectionExamples()
    ensures Frame(0, 0, 2, 2).IntersectsWith(Frame(1, 1, 2, 2))
    ensures Frame(1, 1, 1, 1).IntersectsWith(Frame(0, 0, 3, 3))
    ensures Frame(0, 1, 4, 2).IntersectsWith(Frame(1, 0, 2, 4))
    ensures !Frame(0, 0, 1, 4).IntersectsWith(Frame(0, 5, 3, 1))
    ensures !Frame(2, 2, 1, 1).IntersectsWith(Frame(0, 0, 1, 1))
    ensures Frame(0, 0, 1, 1).IntersectsWith(Frame(1, 1, 1, 1))
  {
  }

  /** `resize` keeps the origin and adds exactly the deltas to the size. */
  lemma ResizeKeepsOrigin(f: Frame, dWidth: int, dHeight: int)
    ensures f.Resize(dWidth, dHeight).Location() == f.Location()
    ensures f.Resize(dWidth, dHeight).width == f.width + dWidth
    ensures f.Resize(dWidth, dHeight).height == f.height + dHeight
  {
  }

  /** `relocate` keeps the size, and relocating back restores the frame. */
  lemma RelocateRoundTrip(f: Frame, dx: int, dy: int)
    ensures f.Relocate(dx, dy).width == f.width && f.Relocate(dx, dy).height == f.height
    ensures f.Relocate(dx, dy).Location() == (f.x + dx, f.y + dy)
    ensures f.Relocate(dx, dy).Relocate(-dx, -dy) == f
  {
  }

  /** `transform` moves the origin by (dx, dy) and grows the size by (dWidth, dHeight). */
  lemma TransformMovesAndResizes(f: Frame, dx: int, dy: int, dWidth: int, dHeight: int)
    ensures f.Transform(dx, dy, dWidth, dHeight)
         == Frame(f.x + dx, f.y + dy, f.width + dWidth, f.height + dHeight)
    ensures f.Transform(dx, dy, dWidth, dHeight) == f.Resize(dWidth, dHeight).Relocate(dx, dy)
  {
  }

  /** The cases of test_resizing and test_relocation. */
  lemma ResizeRelocateExamples()
    ensures Frame(0, 0, 20, 30).Resize(10, 0).width == 30 && Frame(0, 0, 20, 30).Resize(10, 0).height == 30
    ensures Frame(0, 0, 10, 10).Relocate(10, 20).Location() == (10, 20)
  {
  }

  /** The case of test_transformation. */
  lemma TransformExample()
    ensures Frame(0, 0, 10, 10).Transform(20, 30, 40, 50) == Frame(20, 30, 50, 60)
  {
  }

  /** Three-way comparison: -1, 0 or 1 as `one` is below, equal to or above `other`. */
  function Compare(one: int, other: int): (r: int)
    ensures r == -1 <==> one < other
    ensures r == 0 <==> one == other
    ensures r == 1 <==> one > other
  {
    if one < other then -1
    else if one > other then 1 else 0
  }

  lemma CompareAntisymmetric(a: int, b: int)
    ensures Compare(a, b) == -Compare(b, a)
  {
  }

  /** The cases of test_comparison. */
  lemma CompareExamples()
    ensures Compare(1, 2) == -1 && Compare(1, 1) == 0 && Compare(2, 1) == 1
  {
  }

  /** The sign of a number as -1, 0 or 1 (`copysign(1, n)` for non-zero `n`). */
  function Sign(number: real): (r: int)
    ensures r == -1 <==> number < 0.0
    ensures r == 0 <==> number == 0.0
    ensures r == 1 <==> number > 0.0
  {
    if number == 0.0 then 0
    else if number < 0.0 then -1 else 1
  }

  /** The cases of test_sign. */
  lemma SignExamples()
    ensures Sign(3.0) == 1 && Sign(0.0) == 0 && Sign(-100.0) == -1
  {
  }
}
