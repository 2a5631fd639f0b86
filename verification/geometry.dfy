/** Axis-aligned boxes and the numeric helpers of the simulation (src/utils.js).
    Coordinates are exact reals; y grows downwards, so a box's top is its
    smallest y. A random draw is passed in as a value in [0, 1). */
module Geometry {

  /** A box given by its top-left corner and its extent. */
  datatype Box = Box(x: real, y: real, width: real, height: real)
  {
    function Right(): real { x + width }
    function Bottom(): real { y + height }
  }

  /** The source's AABB test: all four comparisons are strict, so boxes that
      only share an edge do not collide. */
  predicate Overlaps(a: Box, b: Box)
  {
    a.x < b.Right() && a.Right() > b.x && a.y < b.Bottom() && a.Bottom() > b.y
  }

  lemma OverlapsSymmetric(a: Box, b: Box)
    ensures Overlaps(a, b) <==> Overlaps(b, a)
  {
  }

  /** Boxes that touch along a vertical or horizontal edge are not overlapping. */
  lemma EdgeContactIsNoOverlap(a: Box, b: Box)
    requires a.Right() == b.x || b.Right() == a.x || a.Bottom() == b.y || b.Bottom() == a.y
    ensures !Overlaps(a, b) && !Overlaps(b, a)
  {
  }

  /** A point strictly inside a box, off its edges. */
  predicate StrictlyInside(px: real, py: real, b: Box)
  {
    b.x < px < b.Right() && b.y < py < b.Bottom()
  }

  /** Boxes of positive size overlap exactly when some point lies strictly
      inside both; the centre of their intersection is such a point. */
  lemma OverlapsIffSharedInterior(a: Box, b: Box)
    ensures (exists px, py :: StrictlyInside(px, py, a) && StrictlyInside(px, py, b)) ==> Overlaps(a, b)
    ensures a.width > 0.0 && a.height > 0.0 && b.width > 0.0 && b.height > 0.0 && Overlaps(a, b) ==>
      exists px, py :: StrictlyInside(px, py, a) && StrictlyInside(px, py, b)
  {
    if a.width > 0.0 && a.height > 0.0 && b.width > 0.0 && b.height > 0.0 && Overlaps(a, b) {
      var px := (Max(a.x, b.x) + Min(a.Right(), b.Right())) / 2.0;
      var py := (Max(a.y, b.y) + Min(a.Bottom(), b.Bottom())) / 2.0;
      assert StrictlyInside(px, py, a) && StrictlyInside(px, py, b);
    }
  }

  lemma NonEmptyBoxOverlapsItself(a: Box)
    requires a.width > 0.0 && a.height > 0.0
    ensures Overlaps(a, a)
  {
  }

  function Min(a: real, b: real): real { if a <= b then a else b }
  function Max(a: real, b: real): real { if a >= b then a else b }

  /** Math.min(Math.max(value, lo), hi): when lo > hi the result is hi. */
  function Clamp(value: real, lo: real, hi: real): (r: real)
    ensures lo <= hi ==> lo <= r <= hi
    ensures lo <= value <= hi ==> r == value
    ensures value > hi ==> r == hi
    ensures value < lo && lo <= hi ==> r == lo
  {
    Min(Max(value, lo), hi)
  }

  lemma ClampIdempotent(value: real, lo: real, hi: real)
    requires lo <= hi
    ensures Clamp(Clamp(value, lo, hi), lo, hi) == Clamp(value, lo, hi)
  {
  }

  /** Linear interpolation start + (end - start) * factor. */
  function Lerp(start: real, end: real, factor: real): (r: real)
    ensures factor == 0.0 ==> r == start
    ensures factor == 1.0 ==> r == end
    ensures 0.0 <= factor <= 1.0 ==> Min(start, end) <= r <= Max(start, end)
  {
    LerpBetween(start, end, factor);
    start + (end - start) * factor
  }

  lemma LerpBetween(start: real, end: real, factor: real)
    ensures 0.0 <= factor <= 1.0 ==>
      Min(start, end) <= start + (end - start) * factor <= Max(start, end)
  {
    if 0.0 <= factor <= 1.0 {
      var d := end - start;
      if d >= 0.0 {
        UnitScale(d, factor);
      } else {
        UnitScale(-d, factor);
        assert (-d) * factor == -(d * factor);
      }
    }
  }

  /** Edge-inclusive containment of a point in a box. */
  predicate PointInRect(px: real, py: real, b: Box)
  {
    px >= b.x && px <= b.Right() && py >= b.y && py <= b.Bottom()
  }

  /** For a box of non-negative size, a point is in it exactly when clamping
      each coordinate to the box's extent leaves the point where it is. */
  lemma InRectIffClampFixes(px: real, py: real, b: Box)
    ensures b.width >= 0.0 && b.height >= 0.0 ==>
      (PointInRect(px, py, b) <==> Clamp(px, b.x, b.Right()) == px && Clamp(py, b.y, b.Bottom()) == py)
  {
  }

  /** A point strictly inside a box is in it. */
  lemma InsideIsInRect(px: real, py: real, b: Box)
    ensures StrictlyInside(px, py, b) ==> PointInRect(px, py, b)
  {
  }

  lemma CornersInRect(b: Box)
    requires b.width >= 0.0 && b.height >= 0.0
    ensures PointInRect(b.x, b.y, b) && PointInRect(b.Right(), b.y, b)
    ensures PointInRect(b.x, b.Bottom(), b) && PointInRect(b.Right(), b.Bottom(), b)
  {
  }

  function Sign(value: real): (r: int)
    ensures r == -1 || r == 0 || r == 1
    ensures r == 1 <==> value > 0.0
    ensures r == -1 <==> value < 0.0
    ensures r == 0 <==> value == 0.0
  {
    if value > 0.0 then 1 else if value < 0.0 then -1 else 0
  }

  function Abs(v: real): (r: real)
    ensures r >= 0.0 && (r == v || r == -v)
  {
    if v < 0.0 then -v else v
  }

  /** Utils.random(lo, hi) for the draw `draw`: draw * (hi - lo) + lo. */
  function RandomIn(lo: real, hi: real, draw: real): (r: real)
    ensures 0.0 <= draw < 1.0 && lo <= hi ==> lo <= r <= hi
    ensures 0.0 <= draw < 1.0 && lo < hi ==> r < hi
  {
    var span := hi - lo;
    ScaledDrawBounds(draw, span);
    draw * span + lo
  }

  /** Utils.randomInt(lo, hi) for the draw `draw`: floor(draw * (hi - lo + 1)) + lo. */
  function RandomInt(lo: int, hi: int, draw: real): (r: int)
    ensures 0.0 <= draw < 1.0 && lo <= hi ==> lo <= r <= hi
  {
    ScaledDrawBounds(draw, (hi - lo + 1) as real);
    (draw * (hi - lo + 1) as real).Floor + lo
  }

  /** Scaling a non-negative value by a factor in [0, 1] keeps it in [0, value]. */
  lemma UnitScale(v: real, f: real)
    requires v >= 0.0 && 0.0 <= f <= 1.0
    ensures 0.0 <= v * f <= v
  {
    assert v * f <= v * 1.0;
  }

  /** A draw in [0, 1) scaled by a non-negative span lands in [0, span]. */
  lemma ScaledDrawBounds(draw: real, span: real)
    ensures 0.0 <= draw < 1.0 && span >= 0.0 ==> 0.0 <= draw * span <= span
    ensures 0.0 <= draw < 1.0 && span > 0.0 ==> draw * span < span
  {
    if 0.0 <= draw < 1.0 && span >= 0.0 {
      UnitScale(span, draw);
      if span > 0.0 {
        assert draw * span < 1.0 * span;
      }
    }
  }

  /** The four penetration depths of a moving box `m` into a static box `p`,
      measured from each side of `p`. */
  datatype Depths = Depths(left: real, right: real, top: real, bottom: real)
  {
    /** Math.min over the four depths. */
    function Least(): (r: real)
      ensures r <= left && r <= right && r <= top && r <= bottom
      ensures r == left || r == right || r == top || r == bottom
    {
      Min(Min(left, right), Min(top, bottom))
    }
  }

  function Penetration(m: Box, p: Box): (d: Depths)
    ensures Overlaps(m, p) <==>
      d.left > 0.0 && d.right > 0.0 && d.top > 0.0 && d.bottom > 0.0
  {
    Depths(m.Right() - p.x, p.Right() - m.x, m.Bottom() - p.y, p.Bottom() - m.y)
  }
}
