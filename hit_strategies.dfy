/// Per-kind hit strategies (`hitPointStrategies`, `hitGhostStrategies`) and
/// the node-level point test that maps a world point into the node's local
/// frame (`hitTestPoint`, `intersectsWithGhost`).
module HitStrategies {
  import opened Types
  import opened Transforms
  import HitTest

  /**
   * `hitPointStrategies`: RECTANGLE and DOM_CARD accept a local point inside
   * the closed rectangle [0, width] x [0, height]; ROOT never hits, and a
   * kind without an entry in the table yields false.
   */
  predicate PointHit(kind: NodeType, p: Vec2, width: real, height: real)
  {
    match kind
    case Rectangle => 0.0 <= p.x <= width && 0.0 <= p.y <= height
    case DomCard => 0.0 <= p.x <= width && 0.0 <= p.y <= height
    case Root => false
    case Other(_) => false
  }

  /**
   * `hitTestPoint` once the absolute matrix is known: the point is mapped
   * through the inverse and handed to the kind's strategy. A singular matrix
   * makes every inverse coefficient NaN or infinite, so every comparison of
   * the strategy fails and the result is false.
   */
  predicate HitTestPoint(kind: NodeType, abs: Matrix, width: real, height: real, pt: Vec2)
  {
    if Det(abs) == 0.0 then false
    else PointHit(kind, Apply(Inverse(abs), pt), width, height)
  }

  /** The element `[1, 0, 0, 1, box.x, box.y]` of size box.width x box.height. */
  function BoxElement(box: Box): (r: HitTest.MatrixElement)
    ensures r.matrix == TranslationMatrix(box.x, box.y)
    ensures r.width == box.width && r.height == box.height
  {
    HitTest.MatrixElement(TranslationMatrix(box.x, box.y), box.width, box.height)
  }

  /**
   * `hitGhostStrategies` / `intersectsWithGhost`: RECTANGLE and DOM_CARD run
   * the matrix-node test of the translated box against the node's absolute
   * matrix and local size; ROOT and unknown kinds are false.
   */
  predicate GhostHit(kind: NodeType, box: Box, abs: Matrix, width: real, height: real, sqrt: HitTest.Sqrt)
  {
    match kind
    case Rectangle => HitTest.MatrixNodesIntersect(BoxElement(box), HitTest.MatrixElement(abs, width, height), sqrt)
    case DomCard => HitTest.MatrixNodesIntersect(BoxElement(box), HitTest.MatrixElement(abs, width, height), sqrt)
    case Root => false
    case Other(_) => false
  }

  /** Whether a kind has a strategy at all: only these need the absolute matrix. */
  predicate HasGhostStrategy(kind: NodeType)
  {
    kind.Rectangle? || kind.DomCard?
  }

  // ---------------------------------------------------------------------
  // Properties

  /** RECTANGLE and DOM_CARD use the same point rule and the same ghost rule. */
  lemma DomCardLikeRectangle(p: Vec2, box: Box, abs: Matrix, width: real, height: real, sqrt: HitTest.Sqrt)
    ensures PointHit(DomCard, p, width, height) == PointHit(Rectangle, p, width, height)
    ensures GhostHit(DomCard, box, abs, width, height, sqrt) == GhostHit(Rectangle, box, abs, width, height, sqrt)
  {
  }

  /** A DOM_CARD is hit exactly where a RECTANGLE with the same matrix and size is. */
  lemma DomCardHitsLikeRectangle(abs: Matrix, width: real, height: real, pt: Vec2)
    ensures HitTestPoint(DomCard, abs, width, height, pt) == HitTestPoint(Rectangle, abs, width, height, pt)
  {
  }

  /** A ROOT node, or one of a kind without a strategy, never hits and never intersects. */
  lemma NoStrategyNeverHits(kind: NodeType, abs: Matrix, box: Box, width: real, height: real,
                            pt: Vec2, sqrt: HitTest.Sqrt)
    requires !HasGhostStrategy(kind)
    ensures !HitTestPoint(kind, abs, width, height, pt)
    ensures !GhostHit(kind, box, abs, width, height, sqrt)
  {
  }

  /**
   * For an invertible absolute matrix, a point hits exactly when it is the
   * image of a point of the node's local rectangle.
   */
  lemma HitIsImageOfLocalPoint(kind: NodeType, abs: Matrix, width: real, height: real, pt: Vec2)
    requires Det(abs) != 0.0
    requires HasGhostStrategy(kind)
    ensures HitTestPoint(kind, abs, width, height, pt) <==>
            exists q: Vec2 :: 0.0 <= q.x <= width && 0.0 <= q.y <= height && Apply(abs, q) == pt
  {
    var local := Apply(Inverse(abs), pt);
    InverseApply(abs, pt);
    if q: Vec2 :| 0.0 <= q.x <= width && 0.0 <= q.y <= height && Apply(abs, q) == pt {
      InverseApply(abs, q);
    }
  }

  /**
   * For the absolute matrix (1, 0, 0, 1, e, f), a RECTANGLE is hit exactly on
   * the closed rectangle [e, e + w] x [f, f + h].
   */
  lemma TranslatedRectangleHit(e: real, f: real, width: real, height: real, pt: Vec2)
    ensures HitTestPoint(Rectangle, TranslationMatrix(e, f), width, height, pt) <==>
            e <= pt.x <= e + width && f <= pt.y <= f + height
  {
    var t := TranslationMatrix(e, f);
    assert Det(t) == 1.0;
    assert Inverse(t) == TranslationMatrix(-e, -f);
  }
}
