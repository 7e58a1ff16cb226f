/// The axis-aligned bounding box of a transformed rectangle
/// (`getAABBFromTransform`).
module Bounds {
  import opened Types
  import opened Transforms

  /** The rectangle's local corners (0,0), (w,0), (w,h), (0,h) mapped through m, in that order. */
  function Corners(m: Matrix, width: real, height: real): (r: seq<Vec2>)
    ensures |r| == 4
  {
    [Apply(m, Vec2(0.0, 0.0)), Apply(m, Vec2(width, 0.0)),
     Apply(m, Vec2(width, height)), Apply(m, Vec2(0.0, height))]
  }

  /**
   * `getAABBFromTransform`: the min/max of the four transformed corners.
   * Every corner lies inside the result, every edge of the result touches
   * a corner, and the size is never negative.
   */
  function GetAABBFromTransform(m: Matrix, width: real, height: real): (r: Box)
    ensures r.width >= 0.0 && r.height >= 0.0
    ensures forall i :: 0 <= i < 4 ==>
              var p := Corners(m, width, height)[i];
              r.x <= p.x <= r.x + r.width && r.y <= p.y <= r.y + r.height
    ensures exists i :: 0 <= i < 4 && Corners(m, width, height)[i].x == r.x
    ensures exists i :: 0 <= i < 4 && Corners(m, width, height)[i].y == r.y
    ensures exists i :: 0 <= i < 4 && Corners(m, width, height)[i].x == r.x + r.width
    ensures exists i :: 0 <= i < 4 && Corners(m, width, height)[i].y == r.y + r.height
  {
    var cs := Corners(m, width, height);
    var minX := MinX(cs);
    var minY := MinY(cs);
    Box(minX, minY, MaxX(cs) - minX, MaxY(cs) - minY)
  }

  /** For a pure translation and a non-negative size the box is the translated rectangle itself. */
  lemma TranslationAABB(e: real, f: real, width: real, height: real)
    requires width >= 0.0 && height >= 0.0
    ensures GetAABBFromTransform(TranslationMatrix(e, f), width, height) == Box(e, f, width, height)
  {
    var cs := Corners(TranslationMatrix(e, f), width, height);
    assert cs == [Vec2(e, f), Vec2(width + e, f), Vec2(width + e, height + f), Vec2(e, height + f)];
    ExtremesOfCorners(cs, e, width + e, f, height + f);
  }

  /** Four points inside [x0, x1] x [y0, y1], the first at (x0, y0) and the third at (x1, y1), span exactly that rectangle. */
  lemma ExtremesOfCorners(cs: seq<Vec2>, x0: real, x1: real, y0: real, y1: real)
    requires |cs| == 4 && cs[0] == Vec2(x0, y0) && cs[2] == Vec2(x1, y1)
    requires forall i :: 0 <= i < 4 ==> x0 <= cs[i].x <= x1 && y0 <= cs[i].y <= y1
    ensures MinX(cs) == x0 && MaxX(cs) == x1 && MinY(cs) == y0 && MaxY(cs) == y1
  {
  }
}
