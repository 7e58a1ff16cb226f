/// Viewport culling (`ViewportCulling`): which nodes are visible in the
/// current viewport, cached until one of the five viewport fields changes
/// or the cache is cleared.
module Culling {
  import opened Types
  import HT = HitTest
  import HS = HitStrategies
  import V = Viewport
  import opened Stage

  /** The cached answer: the viewport it was computed for, the visible nodes and their ids. */
  datatype CullCache = CullCache(viewport: V.ViewportState, visibleNodes: seq<Shown>, idSet: set<string>)

  /** The viewport as an unrotated rectangle at its top-left world corner. */
  function ViewportElement(vp: V.ViewportState): HT.MatrixElement
  {
    HT.MatrixElement(TranslationMatrix(vp.x, vp.y), vp.width, vp.height)
  }

  /**
   * `isNodeOutsideViewport`: a ROOT node is never outside; any other node
   * is outside when its render box, as an unrotated rectangle, does not
   * intersect the viewport rectangle.
   */
  predicate IsNodeOutsideViewport(n: Shown, vp: V.ViewportState, sqrt: HT.Sqrt)
  {
    if n.kind == Root then false
    else !HT.MatrixNodesIntersect(ViewportElement(vp), HS.BoxElement(BoxOf(n)), sqrt)
  }

  /** `isNodeVisible`: inside the viewport and visible. */
  predicate IsNodeVisible(n: Shown, vp: V.ViewportState, sqrt: HT.Sqrt)
  {
    !IsNodeOutsideViewport(n, vp, sqrt) && n.visible
  }

  /** The visible nodes of a list, order kept. */
  function VisibleOf(ns: seq<Shown>, vp: V.ViewportState, sqrt: HT.Sqrt): seq<Shown>
  {
    if |ns| == 0 then []
    else
      var rest := VisibleOf(ns[1..], vp, sqrt);
      if IsNodeVisible(ns[0], vp, sqrt) then [ns[0]] + rest else rest
  }

  /** The ids of a list of nodes. */
  function IdsOf(ns: seq<Shown>): set<string>
  {
    if |ns| == 0 then {} else {ns[0].id} + IdsOf(ns[1..])
  }

  /** What `rebuildCache` collects: the visible nodes among all nodes under the root, in pre-order. */
  function Collected(scene: seq<DesignElement>, vp: V.ViewportState, sqrt: HT.Sqrt): seq<Shown>
  {
    VisibleOf(AllShown(scene, Identity), vp, sqrt)
  }

  /**
   * `collectVisibleNodes`: walk the list in order, append each visible node
   * and its id, and descend into every node's children whether the node
   * itself was visible or not.
   */
  method CollectVisibleNodes(nodeList: seq<DesignElement>, parentAbs: Matrix, vp: V.ViewportState, sqrt: HT.Sqrt,
                             visibleNodes: seq<Shown>, idSet: set<string>)
    returns (visibleNodes': seq<Shown>, idSet': set<string>)
    ensures visibleNodes' == visibleNodes + VisibleOf(AllShown(nodeList, parentAbs), vp, sqrt)
    ensures idSet' == idSet + IdsOf(VisibleOf(AllShown(nodeList, parentAbs), vp, sqrt))
    decreases nodeList, 1
  {
    visibleNodes', idSet' := visibleNodes, idSet;
    for i := 0 to |nodeList|
      invariant visibleNodes' == visibleNodes + VisibleOf(AllShown(nodeList[..i], parentAbs), vp, sqrt)
      invariant idSet' == idSet + IdsOf(VisibleOf(AllShown(nodeList[..i], parentAbs), vp, sqrt))
    {
      ghost var before := VisibleOf(AllShown(nodeList[..i], parentAbs), vp, sqrt);
      ghost var step := VisibleOf(AllShown([nodeList[i]], parentAbs), vp, sqrt);
      visibleNodes', idSet' := CollectNode(nodeList[i], parentAbs, vp, sqrt, visibleNodes', idSet');
      StepCollected(nodeList, i, parentAbs, vp, sqrt);
      Associative(visibleNodes, before, step);
      IdsOfAppend(before, step);
    }
    assert nodeList[..|nodeList|] == nodeList;
  }

  /** One iteration of `collectVisibleNodes`: the node itself, then its subtree. */
  method CollectNode(node: DesignElement, parentAbs: Matrix, vp: V.ViewportState, sqrt: HT.Sqrt,
                     visibleNodes: seq<Shown>, idSet: set<string>)
    returns (visibleNodes': seq<Shown>, idSet': set<string>)
    ensures visibleNodes' == visibleNodes + VisibleOf(AllShown([node], parentAbs), vp, sqrt)
    ensures idSet' == idSet + IdsOf(VisibleOf(AllShown([node], parentAbs), vp, sqrt))
    decreases node, 0
  {
    var shown := Show(node, parentAbs);
    ghost var own: seq<Shown> := [];
    ghost var ownIds: set<string> := {};
    visibleNodes', idSet' := visibleNodes, idSet;
    if IsNodeVisible(shown, vp, sqrt) {
      visibleNodes' := visibleNodes' + [shown];
      idSet' := idSet' + {node.id};
      own, ownIds := [shown], {node.id};
    }
    ghost var mid := visibleNodes';
    ghost var midIds := idSet';
    assert mid == visibleNodes + own && midIds == idSet + ownIds;
    ghost var below := VisibleOf(AllShown(node.children, shown.abs), vp, sqrt);
    if |node.children| > 0 {
      visibleNodes', idSet' := CollectVisibleNodes(node.children, shown.abs, vp, sqrt, visibleNodes', idSet');
    } else {
      assert below == [];
    }
    assert visibleNodes' == mid + below && idSet' == midIds + IdsOf(below);
    NodeCollected(node, parentAbs, vp, sqrt);
    Associative(visibleNodes, own, below);
    UnionAssociative(idSet, ownIds, IdsOf(below));
  }

  /**
   * The cache (a static field of the class in the editor, an object here).
   * `Valid` says the id set is always the set of ids of the cached nodes.
   */
  class ViewportCulling {
    var cache: Option<CullCache>

    ghost predicate Valid()
      reads this
    {
      cache.Some? ==> cache.value.idSet == IdsOf(cache.value.visibleNodes)
    }

    constructor ()
      ensures Valid() && cache.None?
    {
      cache := None;
    }

    /** `isViewportChanged`: no cache, or any of the five fields differs. */
    predicate IsViewportChanged(current: V.ViewportState)
      reads this
    {
      cache.None? ||
      var cached := cache.value.viewport;
      cached.x != current.x || cached.y != current.y || cached.width != current.width ||
      cached.height != current.height || cached.scale != current.scale
    }

    /** `rebuildCache`: collect the visible nodes under the root for the current viewport. */
    method RebuildCache(scene: seq<DesignElement>, vp: V.ViewportState, sqrt: HT.Sqrt)
      modifies this
      ensures Valid()
      ensures cache == Some(CullCache(vp, Collected(scene, vp, sqrt), IdsOf(Collected(scene, vp, sqrt))))
    {
      var visibleNodes, idSet := CollectVisibleNodes(scene, Identity, vp, sqrt, [], {});
      assert visibleNodes == Collected(scene, vp, sqrt);
      cache := Some(CullCache(vp, visibleNodes, idSet));
    }

    /** `ensureCacheIsValid`: rebuild exactly when there is no cache or the viewport changed. */
    method EnsureCacheIsValid(scene: seq<DesignElement>, vp: V.ViewportState, sqrt: HT.Sqrt)
      requires Valid()
      modifies this
      ensures Valid() && cache.Some? && cache.value.viewport == vp
      ensures old(IsViewportChanged(vp)) ==> cache.value.visibleNodes == Collected(scene, vp, sqrt)
      ensures !old(IsViewportChanged(vp)) ==> cache == old(cache)
    {
      if cache.None? || IsViewportChanged(vp) {
        RebuildCache(scene, vp, sqrt);
      }
    }

    /** `shouldCull`: a node is culled when its id is not among the visible ids. */
    method ShouldCull(node: Shown, scene: seq<DesignElement>, vp: V.ViewportState, sqrt: HT.Sqrt) returns (r: bool)
      requires Valid()
      modifies this
      ensures Valid() && cache.Some? && cache.value.viewport == vp
      ensures old(IsViewportChanged(vp)) ==> cache.value.visibleNodes == Collected(scene, vp, sqrt)
      ensures !old(IsViewportChanged(vp)) ==> cache == old(cache)
      ensures r <==> forall k :: 0 <= k < |cache.value.visibleNodes| ==> cache.value.visibleNodes[k].id != node.id
    {
      EnsureCacheIsValid(scene, vp, sqrt);
      r := node.id !in cache.value.idSet;
      IdsOfMembers(cache.value.visibleNodes, node.id);
    }

    /** `getVisibleNodes`. */
    method GetVisibleNodes(scene: seq<DesignElement>, vp: V.ViewportState, sqrt: HT.Sqrt) returns (r: seq<Shown>)
      requires Valid()
      modifies this
      ensures Valid() && cache.Some? && cache.value.viewport == vp && r == cache.value.visibleNodes
      ensures old(IsViewportChanged(vp)) ==> r == Collected(scene, vp, sqrt)
      ensures !old(IsViewportChanged(vp)) ==> cache == old(cache)
    {
      EnsureCacheIsValid(scene, vp, sqrt);
      r := cache.value.visibleNodes;
    }

    /** `clearCache`: the next query rebuilds. */
    method ClearCache()
      modifies this
      ensures Valid() && cache.None? && forall vp :: IsViewportChanged(vp)
    {
      cache := None;
    }
  }

  // ---------------------------------------------------------------------
  // Properties

  lemma Associative<X>(a: seq<X>, b: seq<X>, c: seq<X>)
    ensures (a + b) + c == a + (b + c)
  {
  }

  lemma UnionAssociative<X>(a: set<X>, b: set<X>, c: set<X>)
    ensures (a + b) + c == a + (b + c)
  {
  }

  /** Filtering a concatenation filters each part. */
  lemma {:induction false} VisibleOfAppend(a: seq<Shown>, b: seq<Shown>, vp: V.ViewportState, sqrt: HT.Sqrt)
    ensures VisibleOf(a + b, vp, sqrt) == VisibleOf(a, vp, sqrt) + VisibleOf(b, vp, sqrt)
  {
    if |a| == 0 {
      assert a + b == b;
    } else {
      assert (a + b)[0] == a[0] && (a + b)[1..] == a[1..] + b;
      VisibleOfAppend(a[1..], b, vp, sqrt);
      var rest := VisibleOf(a[1..], vp, sqrt);
      if IsNodeVisible(a[0], vp, sqrt) {
        Associative([a[0]], rest, VisibleOf(b, vp, sqrt));
      }
    }
  }

  lemma {:induction false} IdsOfAppend(a: seq<Shown>, b: seq<Shown>)
    ensures IdsOf(a + b) == IdsOf(a) + IdsOf(b)
  {
    if |a| == 0 {
      assert a + b == b;
    } else {
      assert (a + b)[0] == a[0] && (a + b)[1..] == a[1..] + b;
      IdsOfAppend(a[1..], b);
    }
  }

  /** The id set holds exactly the ids of the listed nodes. */
  lemma {:induction false} IdsOfMembers(ns: seq<Shown>, id: string)
    ensures id in IdsOf(ns) <==> exists k :: 0 <= k < |ns| && ns[k].id == id
  {
    if |ns| > 0 {
      IdsOfMembers(ns[1..], id);
      if id in IdsOf(ns[1..]) {
        var k :| 0 <= k < |ns[1..]| && ns[1..][k].id == id;
        assert ns[k + 1].id == id;
      }
      if exists k :: 0 <= k < |ns| && ns[k].id == id {
        var k :| 0 <= k < |ns| && ns[k].id == id;
        if k > 0 {
          assert ns[1..][k - 1].id == id;
        }
      }
    }
  }

  /** The visible nodes of a list are exactly its members that are visible in the viewport. */
  lemma {:induction false} VisibleOfMembers(ns: seq<Shown>, vp: V.ViewportState, sqrt: HT.Sqrt, n: Shown)
    ensures n in VisibleOf(ns, vp, sqrt) <==> n in ns && IsNodeVisible(n, vp, sqrt)
  {
    if |ns| > 0 {
      VisibleOfMembers(ns[1..], vp, sqrt, n);
      assert n in ns <==> n == ns[0] || n in ns[1..] by {
        assert ns == [ns[0]] + ns[1..];
      }
    }
  }

  /** One more sibling adds what its own walk collects. */
  lemma StepCollected(nodeList: seq<DesignElement>, i: nat, parentAbs: Matrix, vp: V.ViewportState, sqrt: HT.Sqrt)
    requires i < |nodeList|
    ensures VisibleOf(AllShown(nodeList[..i + 1], parentAbs), vp, sqrt)
            == VisibleOf(AllShown(nodeList[..i], parentAbs), vp, sqrt)
               + VisibleOf(AllShown([nodeList[i]], parentAbs), vp, sqrt)
  {
    assert nodeList[..i + 1] == nodeList[..i] + [nodeList[i]];
    AllShownAppend(nodeList[..i], [nodeList[i]], parentAbs);
    VisibleOfAppend(AllShown(nodeList[..i], parentAbs), AllShown([nodeList[i]], parentAbs), vp, sqrt);
  }

  /** A single node's walk: the node itself if visible, then what its children's walk collects. */
  lemma NodeCollected(node: DesignElement, parentAbs: Matrix, vp: V.ViewportState, sqrt: HT.Sqrt)
    ensures var shown := Show(node, parentAbs);
            var below := VisibleOf(AllShown(node.children, shown.abs), vp, sqrt);
            VisibleOf(AllShown([node], parentAbs), vp, sqrt)
            == (if IsNodeVisible(shown, vp, sqrt) then [shown] else []) + below
            && IdsOf(VisibleOf(AllShown([node], parentAbs), vp, sqrt))
               == (if IsNodeVisible(shown, vp, sqrt) then {node.id} else {}) + IdsOf(below)
  {
    var shown := Show(node, parentAbs);
    var below := VisibleOf(AllShown(node.children, shown.abs), vp, sqrt);
    assert [node][1..] == [];
    assert AllShown([node], parentAbs) == [shown] + AllShown(node.children, shown.abs);
    VisibleOfAppend([shown], AllShown(node.children, shown.abs), vp, sqrt);
    assert [shown][1..] == [];
    var own := VisibleOf([shown], vp, sqrt);
    assert own == if IsNodeVisible(shown, vp, sqrt) then [shown] else [];
    IdsOfAppend(own, below);
    if IsNodeVisible(shown, vp, sqrt) {
      assert IdsOf(own) == {node.id} by { assert own[1..] == []; }
    }
  }

  /** A ROOT node is never outside the viewport. */
  lemma RootNeverOutside(n: Shown, vp: V.ViewportState, sqrt: HT.Sqrt)
    requires n.kind == Root
    ensures !IsNodeOutsideViewport(n, vp, sqrt)
    ensures IsNodeVisible(n, vp, sqrt) == n.visible
  {
  }

  /**
   * Any other node is visible exactly when it is visible and its render box
   * overlaps the viewport with positive area; a box that only touches the
   * viewport's edge is culled. The square root is never consulted.
   */
  lemma VisibleIffOverlap(n: Shown, vp: V.ViewportState, sqrt: HT.Sqrt)
    requires n.kind != Root
    ensures var b := BoxOf(n);
            IsNodeVisible(n, vp, sqrt) <==>
              n.visible && vp.x < b.x + b.width && vp.x + vp.width > b.x
              && vp.y < b.y + b.height && vp.y + vp.height > b.y
  {
    var e1, e2 := ViewportElement(vp), HS.BoxElement(BoxOf(n));
    HT.AxisAlignedFastPath(e1, e2, sqrt);
  }

  /**
   * The walk descends into every node: a child that is visible in the
   * viewport is collected even when its parent is invisible or culled.
   */
  lemma ChildOfHiddenParentCollected(scene: seq<DesignElement>, vp: V.ViewportState, sqrt: HT.Sqrt, i: nat, j: nat)
    requires i < |scene| && j < |scene[i].children|
    requires IsNodeVisible(Show(scene[i].children[j], Show(scene[i], Identity).abs), vp, sqrt)
    ensures Show(scene[i].children[j], Show(scene[i], Identity).abs) in Collected(scene, vp, sqrt)
  {
    var c := Show(scene[i].children[j], Show(scene[i], Identity).abs);
    ChildShown(scene, Identity, i, j);
    VisibleOfMembers(AllShown(scene, Identity), vp, sqrt, c);
  }


}
