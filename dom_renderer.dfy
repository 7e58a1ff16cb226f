/// The matrix arithmetic the DOM overlay renderer uses to place an element:
/// lifting a six-entry affine matrix to a row-major 3x3 matrix, multiplying
/// two 3x3 matrices and reading the CSS `matrix(...)` arguments back out
/// (`src/core/engine/renderers/elements/dom-renderer.ts`).
module DomRenderer {
  import opened Types
  import opened Transforms
  import MatrixUtils

  /** `toMat3`: `[a, c, e, b, d, f, 0, 0, 1]`, row-major. */
  function ToMat3(m6: seq<real>): (r: seq<real>)
    requires |m6| >= 6
    ensures |r| == 9 && r[6] == 0.0 && r[7] == 0.0 && r[8] == 1.0
  {
    [m6[0], m6[2], m6[4], m6[1], m6[3], m6[5], 0.0, 0.0, 1.0]
  }

  /** The CSS `matrix(a, b, c, d, e, f)` arguments read from a row-major 3x3 matrix. */
  function CssMatrix(m: seq<real>): (r: seq<real>)
    requires |m| >= 9
    ensures |r| == 6
  {
    [m[0], m[3], m[1], m[4], m[2], m[5]]
  }

  /** Entry (r, c) of the product of two row-major 3x3 matrices. */
  function ProductEntry(A: seq<real>, B: seq<real>, r: nat, c: nat): real
    requires |A| >= 9 && |B| >= 9 && r < 3 && c < 3
  {
    A[r * 3 + 0] * B[0 * 3 + c] + A[r * 3 + 1] * B[1 * 3 + c] + A[r * 3 + 2] * B[2 * 3 + c]
  }

  /** The product of two row-major 3x3 matrices. */
  function Product(A: seq<real>, B: seq<real>): (r: seq<real>)
    requires |A| >= 9 && |B| >= 9
    ensures |r| == 9
  {
    seq(9, i requires 0 <= i < 9 => ProductEntry(A, B, i / 3, i % 3))
  }

  /** `multiply3x3`: fills a zeroed nine-entry array row by row. */
  method Multiply3x3(A: seq<real>, B: seq<real>) returns (out: seq<real>)
    requires |A| >= 9 && |B| >= 9
    ensures out == Product(A, B)
  {
    var buf := new real[9](_ => 0.0);
    for r := 0 to 3
      invariant forall i :: 0 <= i < r * 3 ==> buf[i] == ProductEntry(A, B, i / 3, i % 3)
    {
      for c := 0 to 3
        invariant forall i :: 0 <= i < r * 3 + c ==> buf[i] == ProductEntry(A, B, i / 3, i % 3)
      {
        RowMajorIndex(r, c);
        buf[r * 3 + c] := A[r * 3 + 0] * B[0 * 3 + c] + A[r * 3 + 1] * B[1 * 3 + c] + A[r * 3 + 2] * B[2 * 3 + c];
      }
    }
    out := buf[..];
  }

  /** Entry (r, c) of a row-major 3x3 matrix sits at index `r * 3 + c`. */
  lemma RowMajorIndex(r: nat, c: nat)
    requires r < 3 && c < 3
    ensures r * 3 + c < 9 && (r * 3 + c) / 3 == r && (r * 3 + c) % 3 == c && (r + 1) * 3 == r * 3 + 3
  {
  }

  /** Reading the CSS arguments back undoes `toMat3`. */
  lemma CssMatrixInvertsToMat3(m: Matrix)
    ensures CssMatrix(ToMat3(MatrixUtils.ToArray(m))) == MatrixUtils.ToArray(m)
  {
  }

  /** The product of two lifted affine matrices keeps the bottom row (0, 0, 1). */
  lemma ProductKeepsAffineRow(v: Matrix, w: Matrix)
    ensures var p := Product(ToMat3(MatrixUtils.ToArray(v)), ToMat3(MatrixUtils.ToArray(w)));
            p[6] == 0.0 && p[7] == 0.0 && p[8] == 1.0
  {
  }

  /**
   * The CSS matrix of `view * world` is the composition that applies the
   * node's world matrix first and the view matrix second, i.e. the same
   * coefficients `Transform.multiply` computes.
   */
  lemma ProductIsCompose(v: Matrix, w: Matrix)
    ensures CssMatrix(Product(ToMat3(MatrixUtils.ToArray(v)), ToMat3(MatrixUtils.ToArray(w)))) ==
            MatrixUtils.ToArray(Compose(v, w))
  {
    var A, B := ToMat3(MatrixUtils.ToArray(v)), ToMat3(MatrixUtils.ToArray(w));
    assert A[0] == v.a && A[1] == v.c && A[2] == v.e && A[3] == v.b && A[4] == v.d && A[5] == v.f;
    assert B == [w.a, w.c, w.e, w.b, w.d, w.f, 0.0, 0.0, 1.0];
    LiftedRow(A, B, 0, v.a, v.c, v.e, w);
    LiftedRow(A, B, 1, v.b, v.d, v.f, w);
    var p, c := Product(A, B), Compose(v, w);
    assert p[0] == c.a && p[3] == c.b && p[1] == c.c && p[4] == c.d && p[2] == c.e && p[5] == c.f;
    assert CssMatrix(p) == [c.a, c.b, c.c, c.d, c.e, c.f];
  }

  /** Row `r` of the product, when `A`'s row `r` is `(x, y, z)` and `B` is the lift of `w`. */
  lemma LiftedRow(A: seq<real>, B: seq<real>, r: nat, x: real, y: real, z: real, w: Matrix)
    requires |A| == 9 && r < 3 && A[r * 3] == x && A[r * 3 + 1] == y && A[r * 3 + 2] == z
    requires B == [w.a, w.c, w.e, w.b, w.d, w.f, 0.0, 0.0, 1.0]
    ensures Product(A, B)[r * 3] == x * w.a + y * w.b
    ensures Product(A, B)[r * 3 + 1] == x * w.c + y * w.d
    ensures Product(A, B)[r * 3 + 2] == x * w.e + y * w.f + z
  {
    assert (r * 3) / 3 == r && (r * 3) % 3 == 0;
    assert (r * 3 + 1) / 3 == r && (r * 3 + 1) % 3 == 1;
    assert (r * 3 + 2) / 3 == r && (r * 3 + 2) % 3 == 2;
  }

  /** The view matrix the viewport publishes, `[s, 0, ox, 0, s, oy, 0, 0, 1]`, is the lift of `[s, 0, 0, s, ox, oy]`. */
  lemma ViewMatrixIsLifted(s: real, ox: real, oy: real)
    ensures ToMat3(MatrixUtils.ToArray(Matrix(s, 0.0, 0.0, s, ox, oy))) ==
            [s, 0.0, ox, 0.0, s, oy, 0.0, 0.0, 1.0]
  {
  }
}
