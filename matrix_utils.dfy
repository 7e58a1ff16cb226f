/// Matrix helpers working on plain coefficient arrays (`src/utils/matrix.ts`).
module MatrixUtils {
  import opened Types
  import opened Transforms
  import Bounds

  /** The matrix named by the first six entries of a coefficient array `[a, b, c, d, e, f]`. */
  function FromArray(m: seq<real>): Matrix
    requires |m| >= 6
  {
    Matrix(m[0], m[1], m[2], m[3], m[4], m[5])
  }

  function ToArray(m: Matrix): (r: seq<real>)
    ensures |r| == 6 && FromArray(r) == m
  {
    [m.a, m.b, m.c, m.d, m.e, m.f]
  }

  /** `applyTransform`: the same point map as `Transform.point`. */
  function ApplyTransform(point: Vec2, matrix: seq<real>): (r: Vec2)
    requires |matrix| >= 6
    ensures r == Apply(FromArray(matrix), point)
  {
    var a, b, c, d, e, f := matrix[0], matrix[1], matrix[2], matrix[3], matrix[4], matrix[5];
    Vec2(a * point.x + c * point.y + e, b * point.x + d * point.y + f)
  }

  function LocalCorners(width: real, height: real): seq<Vec2>
  {
    [Vec2(0.0, 0.0), Vec2(width, 0.0), Vec2(width, height), Vec2(0.0, height)]
  }

  /**
   * `getAbsoluteBoundingBoxForMatrix`: the box of the four transformed local
   * corners. It agrees with `getAABBFromTransform`, so its size is never negative.
   */
  function GetAbsoluteBoundingBoxForMatrix(width: real, height: real, matrix: seq<real>): (r: Box)
    requires |matrix| >= 6
    ensures r == Bounds.GetAABBFromTransform(FromArray(matrix), width, height)
    ensures r.width >= 0.0 && r.height >= 0.0
  {
    var local := LocalCorners(width, height);
    var pts := seq(4, i requires 0 <= i < 4 => ApplyTransform(local[i], matrix));
    assert pts == Bounds.Corners(FromArray(matrix), width, height);
    var minX := MinX(pts);
    var minY := MinY(pts);
    Box(minX, minY, MaxX(pts) - minX, MaxY(pts) - minY)
  }

  /** The translation part of `decomposeMatrix` (its angle and scale parts need trigonometry). */
  datatype DecomposedTranslation = DecomposedTranslation(x: real, y: real)

  /**
   * `decomposeMatrix`, translation only: x is read from index 2 and y from
   * index 5, i.e. the row-major layout [a, b, tx, d, e, ty], unlike every
   * other helper here, which keeps the translation at indices 4 and 5.
   */
  function DecomposeMatrix(matrix: seq<real>): (r: DecomposedTranslation)
    requires |matrix| >= 6
    ensures r.x == FromArray(matrix).c && r.y == FromArray(matrix).f
  {
    var a, b, c, d, e, f := matrix[0], matrix[1], matrix[2], matrix[3], matrix[4], matrix[5];
    DecomposedTranslation(c, f)
  }

  /**
   * For a pure translation by (tx, ty), `decomposeMatrix` reports x = 0
   * while `applyTransform` moves the origin to tx.
   */
  lemma DecomposeMissesTranslation(tx: real, ty: real)
    ensures DecomposeMatrix(ToArray(TranslationMatrix(tx, ty))).x == 0.0
    ensures ApplyTransform(Vec2(0.0, 0.0), ToArray(TranslationMatrix(tx, ty))) == Vec2(tx, ty)
  {
  }
}
