/// The scene as the engine's queries read it at one moment: the root's
/// children as element values holding their local matrices, and for every
/// node its absolute matrix, its box and its hit tests, computed down the
/// tree the way `SceneNode` computes them (the local matrix on the left of
/// the parent's absolute matrix, the root's being the identity).
module Stage {
  import opened Types
  import T = Transforms
  import Bounds
  import HS = HitStrategies
  import HT = HitTest

  /** A node as a query sees it: its id, kind, local and absolute matrices, size and visibility. */
  datatype Shown = Shown(id: string, kind: NodeType, matrix: Matrix, abs: Matrix, width: real, height: real, visible: bool)

  /** The node of element `el` under a parent whose absolute matrix is `parentAbs`. */
  function Show(el: DesignElement, parentAbs: Matrix): (r: Shown)
    ensures r.id == el.id && r.kind == el.kind && r.visible == el.visible
    ensures r.width == el.width && r.height == el.height
    ensures r.matrix == el.matrix && r.abs == T.Compose(el.matrix, parentAbs)
  {
    Shown(el.id, el.kind, el.matrix, T.Compose(el.matrix, parentAbs), el.width, el.height, el.visible)
  }

  /** `getAbsoluteBoundingBox`, which is also what `getRenderBox` reports. */
  function BoxOf(s: Shown): Box
  {
    Bounds.GetAABBFromTransform(s.abs, s.width, s.height)
  }

  /** `hitTest(point)`: an invisible node never hits. */
  predicate HitsPoint(s: Shown, p: Vec2)
  {
    s.visible && HS.HitTestPoint(s.kind, s.abs, s.width, s.height, p)
  }

  /** `intersectsWith(box)`: an invisible node never intersects. */
  predicate HitsBox(s: Shown, box: Box, sqrt: HT.Sqrt)
  {
    s.visible && HS.GhostHit(s.kind, box, s.abs, s.width, s.height, sqrt)
  }

  /** The root's children as shown. */
  function TopShown(scene: seq<DesignElement>): (r: seq<Shown>)
    ensures |r| == |scene| && forall i :: 0 <= i < |scene| ==> r[i] == Show(scene[i], Identity)
  {
    seq(|scene|, i requires 0 <= i < |scene| => Show(scene[i], Identity))
  }

  /** Every node under the given siblings, in pre-order, each under its parent's absolute matrix. */
  function AllShown(els: seq<DesignElement>, parentAbs: Matrix): seq<Shown>
    decreases els
  {
    if |els| == 0 then []
    else
      var s := Show(els[0], parentAbs);
      [s] + AllShown(els[0].children, s.abs) + AllShown(els[1..], parentAbs)
  }

  // ---------------------------------------------------------------------
  // Properties

  /** A top-level node's absolute matrix is its local matrix. */
  lemma TopLevelAbsIsLocal(el: DesignElement)
    ensures Show(el, Identity).abs == el.matrix
  {
    T.ComposeIdentity(el.matrix);
  }

  /** The pre-order of a list of siblings is the concatenation of the pre-orders of its parts. */
  lemma {:induction false} AllShownAppend(a: seq<DesignElement>, b: seq<DesignElement>, parentAbs: Matrix)
    ensures AllShown(a + b, parentAbs) == AllShown(a, parentAbs) + AllShown(b, parentAbs)
    decreases a
  {
    if |a| == 0 {
      assert a + b == b;
    } else {
      assert (a + b)[0] == a[0] && (a + b)[1..] == a[1..] + b;
      AllShownAppend(a[1..], b, parentAbs);
    }
  }

  /** Every child of a listed node is listed too, under its parent's absolute matrix. */
  lemma {:induction false} ChildShown(els: seq<DesignElement>, parentAbs: Matrix, i: nat, j: nat)
    requires i < |els| && j < |els[i].children|
    ensures Show(els[i].children[j], Show(els[i], parentAbs).abs) in AllShown(els, parentAbs)
    decreases els
  {
    var el := els[i];
    var s := Show(el, parentAbs);
    var cs := el.children;
    assert cs == cs[..j] + [cs[j]] + cs[j + 1..];
    AllShownAppend(cs[..j] + [cs[j]], cs[j + 1..], s.abs);
    AllShownAppend(cs[..j], [cs[j]], s.abs);
    assert AllShown([cs[j]], s.abs)[0] == Show(cs[j], s.abs);
    assert Show(cs[j], s.abs) in AllShown(cs, s.abs);
    if i == 0 {
      assert AllShown(els, parentAbs) == [s] + AllShown(cs, s.abs) + AllShown(els[1..], parentAbs);
    } else {
      ChildShown(els[1..], parentAbs, i - 1, j);
      assert els[1..][i - 1] == el;
    }
  }
}
