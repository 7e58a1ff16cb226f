/// Intersection of two transformed rectangles (`src/utils/hit-test.ts`): an
/// exact test when both are axis-aligned, otherwise a conservative
/// centre-distance pre-check followed by the separating axis test over the
/// eight edge normals, with the corners computed into preallocated buffers.
module HitTest {
  import opened Types
  import opened Transforms
  import Bounds

  /** A rectangle of the given size placed by an affine matrix (`MatrixElement`). */
  datatype MatrixElement = MatrixElement(matrix: Matrix, width: real, height: real)

  /** No rotation or skew, up to 1e-6. */
  predicate IsAxisAligned(m: Matrix)
  {
    Abs(m.b) < 0.000001 && Abs(m.c) < 0.000001
  }

  function Left(e: MatrixElement): real { e.matrix.e }
  function RightEdge(e: MatrixElement): real { e.matrix.e + e.width * e.matrix.a }
  function Top(e: MatrixElement): real { e.matrix.f }
  function BottomEdge(e: MatrixElement): real { e.matrix.f + e.height * e.matrix.d }

  /**
   * `axisAlignedIntersectionInline`: the two boxes overlap with positive
   * area; boxes that only touch along an edge do not intersect.
   */
  function AxisAlignedIntersection(e1: MatrixElement, e2: MatrixElement): bool
  {
    Left(e1) < RightEdge(e2) && RightEdge(e1) > Left(e2) &&
    Top(e1) < BottomEdge(e2) && BottomEdge(e1) > Top(e2)
  }

  /** `Math.sqrt`, supplied by the host. */
  type Sqrt = real -> real

  /** Half the pre-check's extent: |first column| * width + |second column| * height. */
  function Extent(e: MatrixElement, sqrt: Sqrt): real
  {
    var m := e.matrix;
    sqrt(m.a * m.a + m.b * m.b) * e.width + sqrt(m.c * m.c + m.d * m.d) * e.height
  }

  function Center(e: MatrixElement): Vec2
  {
    var m := e.matrix;
    Vec2(m.e + (m.a * e.width + m.c * e.height) * 0.5, m.f + (m.b * e.width + m.d * e.height) * 0.5)
  }

  /** `boundingBoxIntersect`: the centres are closer than half the summed extents on both axes. */
  function BoundingBoxIntersect(e1: MatrixElement, e2: MatrixElement, sqrt: Sqrt): bool
  {
    var c1, c2 := Center(e1), Center(e2);
    var reach := (Extent(e1, sqrt) + Extent(e2, sqrt)) * 0.5;
    Abs(c1.x - c2.x) < reach && Abs(c1.y - c2.y) < reach
  }

  // ---------------------------------------------------------------------
  // Corners and projections

  /** The corners (0,0), (w,0), (w,h), (0,h) mapped by the matrix, as x, y pairs. */
  function CornerValues(e: MatrixElement): (r: seq<real>)
    ensures |r| == 8
  {
    var m, w, h := e.matrix, e.width, e.height;
    [m.e, m.f, m.a * w + m.e, m.b * w + m.f,
     m.a * w + m.c * h + m.e, m.b * w + m.d * h + m.f, m.c * h + m.e, m.d * h + m.f]
  }

  /** The buffer pairs are exactly the transformed corners of the rectangle. */
  lemma CornerValuesAreCorners(e: MatrixElement, k: int)
    requires 0 <= k < 4
    ensures var cs := CornerValues(e);
            Vec2(cs[2 * k], cs[2 * k + 1]) == Bounds.Corners(e.matrix, e.width, e.height)[k]
  {
  }

  /** `getTransformedCornersInPlace`: writes the eight corner coordinates into the buffer. */
  method GetTransformedCornersInPlace(e: MatrixElement, pool: array<real>)
    requires pool.Length == 8
    modifies pool
    ensures pool[..] == CornerValues(e)
  {
    var m, w, h := e.matrix, e.width, e.height;
    var a, b, c, d, ee, f := m.a, m.b, m.c, m.d, m.e, m.f;
    pool[0] := ee;
    pool[1] := f;
    pool[2] := a * w + ee;
    pool[3] := b * w + f;
    pool[4] := a * w + c * h + ee;
    pool[5] := b * w + d * h + f;
    pool[6] := c * h + ee;
    pool[7] := d * h + f;
    var cs := CornerValues(e);
    assert pool[0] == cs[0] && pool[1] == cs[1] && pool[2] == cs[2] && pool[3] == cs[3];
    assert pool[4] == cs[4] && pool[5] == cs[5] && pool[6] == cs[6] && pool[7] == cs[7];
    assert pool[..] == cs;
  }

  /** The projection of corner k of an eight-entry polygon on the normal (nx, ny). */
  function Proj(poly: seq<real>, nx: real, ny: real, k: nat): real
    requires |poly| == 8 && k < 4
  {
    nx * poly[2 * k] + ny * poly[2 * k + 1]
  }

  /** The smallest projection of the four corners. */
  function ProjMin(poly: seq<real>, nx: real, ny: real): (r: real)
    requires |poly| == 8
  {
    Min(Min(Min(Proj(poly, nx, ny, 0), Proj(poly, nx, ny, 1)), Proj(poly, nx, ny, 2)), Proj(poly, nx, ny, 3))
  }

  /** The largest projection of the four corners. */
  function ProjMax(poly: seq<real>, nx: real, ny: real): (r: real)
    requires |poly| == 8
  {
    Max(Max(Max(Proj(poly, nx, ny, 0), Proj(poly, nx, ny, 1)), Proj(poly, nx, ny, 2)), Proj(poly, nx, ny, 3))
  }

  /** The projection interval covers every corner's projection and its ends are attained. */
  lemma ProjBounds(poly: seq<real>, nx: real, ny: real)
    requires |poly| == 8
    ensures forall k :: 0 <= k < 4 ==>
              ProjMin(poly, nx, ny) <= Proj(poly, nx, ny, k) <= ProjMax(poly, nx, ny)
    ensures exists k :: 0 <= k < 4 && ProjMin(poly, nx, ny) == Proj(poly, nx, ny, k)
    ensures exists k :: 0 <= k < 4 && ProjMax(poly, nx, ny) == Proj(poly, nx, ny, k)
  {
    var p0, p1, p2, p3 := Proj(poly, nx, ny, 0), Proj(poly, nx, ny, 1), Proj(poly, nx, ny, 2), Proj(poly, nx, ny, 3);
    assert forall k :: 0 <= k < 4 ==> Proj(poly, nx, ny, k) in {p0, p1, p2, p3};
  }

  lemma ProjWithin(poly: seq<real>, nx: real, ny: real, k: nat)
    requires |poly| == 8 && k < 4
    ensures ProjMin(poly, nx, ny) <= Proj(poly, nx, ny, k) <= ProjMax(poly, nx, ny)
  {
  }

  /**
   * `projectPolygonOptimized`: the unrolled scan that lowers the minimum or
   * else raises the maximum yields the smallest and largest projection.
   */
  method ProjectPolygonOptimized(polygon: array<real>, nx: real, ny: real) returns (min: real, max: real)
    requires polygon.Length == 8
    ensures min == ProjMin(polygon[..], nx, ny) && max == ProjMax(polygon[..], nx, ny)
  {
    ghost var poly := polygon[..];
    min := nx * polygon[0] + ny * polygon[1];
    max := min;
    assert min == Proj(poly, nx, ny, 0);

    var proj := nx * polygon[2] + ny * polygon[3];
    assert proj == Proj(poly, nx, ny, 1);
    if proj < min {
      min := proj;
    } else if proj > max {
      max := proj;
    }

    proj := nx * polygon[4] + ny * polygon[5];
    assert proj == Proj(poly, nx, ny, 2);
    if proj < min {
      min := proj;
    } else if proj > max {
      max := proj;
    }

    proj := nx * polygon[6] + ny * polygon[7];
    assert proj == Proj(poly, nx, ny, 3);
    if proj < min {
      min := proj;
    } else if proj > max {
      max := proj;
    }
  }

  /** The normal of edge i (from corner i to corner i+1 mod 4) of a polygon. */
  function Normal(poly: seq<real>, i: nat): Vec2
    requires |poly| == 8 && i < 4
  {
    var i2, j2 := i * 2, ((i + 1) % 4) * 2;
    Vec2(poly[j2 + 1] - poly[i2 + 1], poly[i2] - poly[j2])
  }

  /** The projections of the two polygons on n are disjoint intervals. */
  predicate Separates(p1: seq<real>, p2: seq<real>, n: Vec2)
    requires |p1| == 8 && |p2| == 8
  {
    ProjMax(p1, n.x, n.y) < ProjMin(p2, n.x, n.y) || ProjMax(p2, n.x, n.y) < ProjMin(p1, n.x, n.y)
  }

  /** The separating axis criterion: no edge normal of either polygon separates them. */
  predicate SatIntersects(p1: seq<real>, p2: seq<real>)
    requires |p1| == 8 && |p2| == 8
  {
    (forall i :: 0 <= i < 4 ==> !Separates(p1, p2, Normal(p1, i))) &&
    (forall i :: 0 <= i < 4 ==> !Separates(p1, p2, Normal(p2, i)))
  }

  /**
   * `polygonsIntersectOptimized`: tries poly1's edge normals, then poly2's,
   * and reports no intersection at the first separating one.
   */
  method PolygonsIntersectOptimized(poly1: array<real>, poly2: array<real>) returns (r: bool)
    requires poly1.Length == 8 && poly2.Length == 8
    ensures r <==> SatIntersects(poly1[..], poly2[..])
  {
    for i := 0 to 4
      invariant forall k :: 0 <= k < i ==> !Separates(poly1[..], poly2[..], Normal(poly1[..], k))
    {
      var i2 := i * 2;
      var j2 := ((i + 1) % 4) * 2;
      var nx := poly1[j2 + 1] - poly1[i2 + 1];
      var ny := poly1[i2] - poly1[j2];
      assert Vec2(nx, ny) == Normal(poly1[..], i);
      var min1, max1 := ProjectPolygonOptimized(poly1, nx, ny);
      var min2, max2 := ProjectPolygonOptimized(poly2, nx, ny);
      if max1 < min2 || max2 < min1 {
        return false;
      }
    }
    for i := 0 to 4
      invariant forall k :: 0 <= k < i ==> !Separates(poly1[..], poly2[..], Normal(poly2[..], k))
    {
      var i2 := i * 2;
      var j2 := ((i + 1) % 4) * 2;
      var nx := poly2[j2 + 1] - poly2[i2 + 1];
      var ny := poly2[i2] - poly2[j2];
      assert Vec2(nx, ny) == Normal(poly2[..], i);
      var min1, max1 := ProjectPolygonOptimized(poly1, nx, ny);
      var min2, max2 := ProjectPolygonOptimized(poly2, nx, ny);
      if max1 < min2 || max2 < min1 {
        return false;
      }
    }
    return true;
  }

  /** The two module-level corner buffers (`CORNER_POOL_1`, `CORNER_POOL_2`). */
  class CornerPools {
    const pool1: array<real>
    const pool2: array<real>

    ghost predicate Valid()
      reads this
    {
      pool1.Length == 8 && pool2.Length == 8 && pool1 != pool2
    }

    constructor()
      ensures Valid() && fresh(pool1) && fresh(pool2)
    {
      pool1 := new real[8](_ => 0.0);
      pool2 := new real[8](_ => 0.0);
    }
  }

  /** `satIntersectOptimized`: the corners of both rectangles into the buffers, then the axis test. */
  method SatIntersectOptimized(e1: MatrixElement, e2: MatrixElement, pools: CornerPools) returns (r: bool)
    requires pools.Valid()
    modifies pools.pool1, pools.pool2
    ensures pools.pool1[..] == CornerValues(e1) && pools.pool2[..] == CornerValues(e2)
    ensures r <==> SatIntersects(CornerValues(e1), CornerValues(e2))
  {
    GetTransformedCornersInPlace(e1, pools.pool1);
    GetTransformedCornersInPlace(e2, pools.pool2);
    r := PolygonsIntersectOptimized(pools.pool1, pools.pool2);
  }

  /**
   * The decision `hitMatrixNodeTest` makes: the exact test when both are
   * axis-aligned, otherwise the pre-check and then the separating axis test.
   */
  predicate MatrixNodesIntersect(e1: MatrixElement, e2: MatrixElement, sqrt: Sqrt)
  {
    if IsAxisAligned(e1.matrix) && IsAxisAligned(e2.matrix) then AxisAlignedIntersection(e1, e2)
    else BoundingBoxIntersect(e1, e2, sqrt) && SatIntersects(CornerValues(e1), CornerValues(e2))
  }

  /** `hitMatrixNodeTest`, using the shared corner buffers. */
  method HitMatrixNodeTest(e1: MatrixElement, e2: MatrixElement, sqrt: Sqrt, pools: CornerPools)
    returns (r: bool)
    requires pools.Valid()
    modifies pools.pool1, pools.pool2
    ensures r == MatrixNodesIntersect(e1, e2, sqrt)
  {
    var m1, m2 := e1.matrix, e2.matrix;
    var isAxis1 := Abs(m1.b) < 0.000001 && Abs(m1.c) < 0.000001;
    var isAxis2 := Abs(m2.b) < 0.000001 && Abs(m2.c) < 0.000001;
    if isAxis1 && isAxis2 {
      return AxisAlignedIntersection(e1, e2);
    }
    if !BoundingBoxIntersect(e1, e2, sqrt) {
      return false;
    }
    r := SatIntersectOptimized(e1, e2, pools);
  }

  // ---------------------------------------------------------------------
  // Properties

  /** The exact test is symmetric. */
  lemma AxisAlignedSymmetric(e1: MatrixElement, e2: MatrixElement)
    ensures AxisAlignedIntersection(e1, e2) == AxisAlignedIntersection(e2, e1)
  {
  }

  /** Two unrotated unit-scale boxes side by side, sharing only an edge, do not intersect. */
  lemma TouchingBoxesDoNotIntersect(x: real, y: real, w1: real, h1: real, w2: real, h2: real)
    requires h1 > 0.0 && h2 > 0.0
    ensures !AxisAlignedIntersection(MatrixElement(TranslationMatrix(x, y), w1, h1),
                                     MatrixElement(TranslationMatrix(x + w1, y), w2, h2))
  {
  }

  /** A unit-scale box always intersects itself when it has positive area. */
  lemma AxisAlignedSelf(x: real, y: real, w: real, h: real)
    requires w > 0.0 && h > 0.0
    ensures AxisAlignedIntersection(MatrixElement(TranslationMatrix(x, y), w, h),
                                    MatrixElement(TranslationMatrix(x, y), w, h))
  {
  }

  lemma SeparatesSymmetric(p1: seq<real>, p2: seq<real>, n: Vec2)
    requires |p1| == 8 && |p2| == 8
    ensures Separates(p1, p2, n) == Separates(p2, p1, n)
  {
  }

  /** The separating axis test does not depend on the order of the polygons. */
  lemma SatSymmetric(p1: seq<real>, p2: seq<real>)
    requires |p1| == 8 && |p2| == 8
    ensures SatIntersects(p1, p2) == SatIntersects(p2, p1)
  {
    forall i | 0 <= i < 4
      ensures Separates(p1, p2, Normal(p1, i)) == Separates(p2, p1, Normal(p1, i))
      ensures Separates(p1, p2, Normal(p2, i)) == Separates(p2, p1, Normal(p2, i))
    {
      SeparatesSymmetric(p1, p2, Normal(p1, i));
      SeparatesSymmetric(p1, p2, Normal(p2, i));
    }
  }

  /** The whole test does not depend on the order of the two rectangles. */
  lemma MatrixNodesIntersectSymmetric(e1: MatrixElement, e2: MatrixElement, sqrt: Sqrt)
    ensures MatrixNodesIntersect(e1, e2, sqrt) == MatrixNodesIntersect(e2, e1, sqrt)
  {
    SatSymmetric(CornerValues(e1), CornerValues(e2));
    AxisAlignedSymmetric(e1, e2);
    var c1, c2 := Center(e1), Center(e2);
    assert Abs(c1.x - c2.x) == Abs(c2.x - c1.x) && Abs(c1.y - c2.y) == Abs(c2.y - c1.y);
  }

  /** When both rectangles are axis-aligned only the exact test decides. */
  lemma AxisAlignedFastPath(e1: MatrixElement, e2: MatrixElement, sqrt: Sqrt)
    requires IsAxisAligned(e1.matrix) && IsAxisAligned(e2.matrix)
    ensures MatrixNodesIntersect(e1, e2, sqrt) == AxisAlignedIntersection(e1, e2)
  {
  }

  /** When either is rotated or skewed, a failed pre-check rules out a hit. */
  lemma PreCheckRejects(e1: MatrixElement, e2: MatrixElement, sqrt: Sqrt)
    requires !(IsAxisAligned(e1.matrix) && IsAxisAligned(e2.matrix))
    requires !BoundingBoxIntersect(e1, e2, sqrt)
    ensures !MatrixNodesIntersect(e1, e2, sqrt)
  {
  }

  /** A point both polygons have as a corner projects into both intervals. */
  lemma SharedCornerNotSeparated(p1: seq<real>, p2: seq<real>, k1: nat, k2: nat, n: Vec2)
    requires |p1| == 8 && |p2| == 8 && k1 < 4 && k2 < 4
    requires p1[2 * k1] == p2[2 * k2] && p1[2 * k1 + 1] == p2[2 * k2 + 1]
    ensures !Separates(p1, p2, n)
  {
    ProjWithin(p1, n.x, n.y, k1);
    ProjWithin(p2, n.x, n.y, k2);
    SameCornerSameProj(p1, p2, k1, k2, n.x, n.y);
    SharedValueMeets(ProjMin(p1, n.x, n.y), Proj(p1, n.x, n.y, k1), ProjMax(p1, n.x, n.y),
                     ProjMin(p2, n.x, n.y), Proj(p2, n.x, n.y, k2), ProjMax(p2, n.x, n.y));
  }

  /** A corner two polygons share projects to the same value. */
  lemma SameCornerSameProj(p1: seq<real>, p2: seq<real>, k1: nat, k2: nat, nx: real, ny: real)
    requires |p1| == 8 && |p2| == 8 && k1 < 4 && k2 < 4
    requires p1[2 * k1] == p2[2 * k2] && p1[2 * k1 + 1] == p2[2 * k2 + 1]
    ensures Proj(p1, nx, ny, k1) == Proj(p2, nx, ny, k2)
  {
    var x, y := p1[2 * k1], p1[2 * k1 + 1];
    assert Proj(p1, nx, ny, k1) == nx * x + ny * y;
    assert Proj(p2, nx, ny, k2) == nx * x + ny * y;
  }

  /** Two intervals holding the same value overlap. */
  lemma SharedValueMeets(lo1: real, v1: real, hi1: real, lo2: real, v2: real, hi2: real)
    requires lo1 <= v1 <= hi1 && lo2 <= v2 <= hi2 && v1 == v2
    ensures !(hi1 < lo2 || hi2 < lo1)
  {
  }

  /**
   * Two polygons with a corner in common are never separated, so the
   * separating axis test counts touching shapes as intersecting (unlike the
   * strict axis-aligned test).
   */
  lemma SharedCornerIntersects(p1: seq<real>, p2: seq<real>, k1: nat, k2: nat)
    requires |p1| == 8 && |p2| == 8 && k1 < 4 && k2 < 4
    requires p1[2 * k1] == p2[2 * k2] && p1[2 * k1 + 1] == p2[2 * k2 + 1]
    ensures SatIntersects(p1, p2)
  {
    forall i | 0 <= i < 4
      ensures !Separates(p1, p2, Normal(p1, i)) && !Separates(p1, p2, Normal(p2, i))
    {
      SharedCornerNotSeparated(p1, p2, k1, k2, Normal(p1, i));
      SharedCornerNotSeparated(p1, p2, k1, k2, Normal(p2, i));
    }
  }
}
