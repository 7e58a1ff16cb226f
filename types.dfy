/// Value types shared by the canvas editor model: optional values, points,
/// axis-aligned boxes, 2D affine matrices and the design elements a scene is
/// built from.
module Types {

  datatype Option<T> = None | Some(value: T)

  /** A point or vector in the plane (`Vector2d`). */
  datatype Vec2 = Vec2(x: real, y: real)

  /** An axis-aligned box given by its top-left corner and its size (`BoundingBox`). */
  datatype Box = Box(x: real, y: real, width: real, height: real)

  /**
   * The affine matrix `[a, b, c, d, e, f]` (`TransformMatrix`): a point
   * (x, y) is mapped to (a*x + c*y + e, b*x + d*y + f).
   */
  datatype Matrix = Matrix(a: real, b: real, c: real, d: real, e: real, f: real)

  const Identity: Matrix := Matrix(1.0, 0.0, 0.0, 1.0, 0.0, 0.0)

  /** The pure translation `[1, 0, 0, 1, x, y]`. */
  function TranslationMatrix(x: real, y: real): Matrix
  {
    Matrix(1.0, 0.0, 0.0, 1.0, x, y)
  }

  /**
   * The `type` tag of a design element. The three declared tags, plus any
   * other string a loosely typed element may carry at run time.
   */
  datatype NodeType = Rectangle | Root | DomCard | Other(tag: string)

  /** A solid fill of an element (`FillPaint`). */
  datatype FillPaint = FillPaint(color: Rgba, visible: bool, blendMode: string)

  /** A colour with float channels in [0, 1]. */
  datatype Rgba = Rgba(r: real, g: real, b: real, a: real)

  /** The plain element record a scene is built from (`DesignElement`). */
  datatype DesignElement = DesignElement(
    id: string,
    kind: NodeType,
    matrix: Matrix,
    width: real,
    height: real,
    fillPaints: Option<seq<FillPaint>>,
    visible: bool,
    children: seq<DesignElement>)

  function Min(x: real, y: real): real { if x <= y then x else y }
  function Max(x: real, y: real): real { if x >= y then x else y }
  function Abs(x: real): real { if x < 0.0 then -x else x }
}
