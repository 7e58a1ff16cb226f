/// The behaviours the interaction states share: hover and click hit tests
/// against the root's children, and wheel panning and zooming of the
/// viewport. The hover and click tests read and write the selection store,
/// passed in and returned as a value.
module Behaviors {
  import opened Types
  import opened Stage
  import opened Selection
  import C = Collision
  import HT = HitTest
  import V = Viewport

  /** The canvas's `getBoundingClientRect()`. */
  datatype Rect = Rect(left: real, top: real, width: real, height: real)

  /** A wheel event: mouse position, scroll deltas and the two modifier keys it reports. */
  datatype WheelEvent = WheelEvent(clientX: real, clientY: real, deltaX: real, deltaY: real, metaKey: bool, ctrlKey: bool)

  /** `node?.id` used as a condition: no node, or a node whose id is empty, counts as nothing. */
  predicate HasId(n: Option<Shown>)
  {
    n.Some? && n.value.id != ""
  }

  /** The `DOM_CARD` nodes among `ns`, order kept (the overlay's `filterNodes`). */
  function DomCards(ns: seq<Shown>): (r: seq<Shown>)
    ensures |r| <= |ns|
    ensures forall n :: n in r <==> n in ns && n.kind == DomCard
  {
    if |ns| == 0 then []
    else
      var rest := DomCards(ns[1..]);
      assert forall n :: n in ns <==> n == ns[0] || n in ns[1..];
      if ns[0].kind == DomCard then [ns[0]] + rest else rest
  }

  // ---------------------------------------------------------------------
  // Hover

  /**
   * What `_hoverHitTest` makes of the topmost hit `found`: a hit on a node
   * that belongs to a selection of more than one node clears the hover and
   * reports nothing; otherwise the hover becomes the hit's id (or nothing)
   * and the hit is reported. Only `hoverId` is written.
   */
  function HoverOutcome(s: SelectionState, found: Option<Shown>, index: map<string, Shown>): (r: (Option<Shown>, SelectionState))
    ensures r.1 == s.(hoverId := r.1.hoverId)
    ensures HasId(found) && |s.ids| > 1 && found.value.id in s.ids ==> r.0.None? && r.1.hoverId.None?
    ensures !(HasId(found) && |s.ids| > 1 && found.value.id in s.ids) ==>
              r.0 == found && (r.1.hoverId.Some? <==> HasId(found))
              && (HasId(found) ==> r.1.hoverId == Some(found.value.id))
  {
    if HasId(found) && |s.ids| > 1 && found.value.id in s.ids then
      (None, SetSelectionState(s, NoFields.(hoverId := Some(None)), index))
    else
      (found, SetSelectionState(s, NoFields.(hoverId := Some(if HasId(found) then Some(found.value.id) else None)), index))
  }

  /** `_hoverHitTest`: find the topmost candidate under the point, then apply `HoverOutcome`. */
  method HoverHitTest(s: SelectionState, point: Vec2, candidates: seq<Shown>, index: map<string, Shown>)
    returns (node: Option<Shown>, s': SelectionState)
    ensures (node, s') == HoverOutcome(s, C.Topmost(point, candidates, BoxOf, HitsPoint), index)
  {
    var found := C.FindHit(point, candidates, BoxOf, HitsPoint);
    var r := HoverOutcome(s, found, index);
    node, s' := r.0, r.1;
  }

  // ---------------------------------------------------------------------
  // Click

  /** The 1×1 probe at the mouse that `_downHitTest` tests against a selection frame. */
  predicate ProbeHits(item: SelectionBoxItem, point: Vec2, sqrt: HT.Sqrt)
  {
    HT.MatrixNodesIntersect(HT.MatrixElement(TranslationMatrix(point.x, point.y), 1.0, 1.0),
                            HT.MatrixElement(item.matrix, item.width, item.height), sqrt)
  }

  /** The first frame the probe hits, or -1. */
  function FirstProbeHit(boxes: seq<SelectionBoxItem>, point: Vec2, sqrt: HT.Sqrt): (r: int)
    ensures -1 <= r < |boxes|
    ensures r == -1 <==> forall i :: 0 <= i < |boxes| ==> !ProbeHits(boxes[i], point, sqrt)
    ensures r >= 0 ==> ProbeHits(boxes[r], point, sqrt) && forall j :: 0 <= j < r ==> !ProbeHits(boxes[j], point, sqrt)
  {
    if |boxes| == 0 then -1
    else if ProbeHits(boxes[0], point, sqrt) then 0
    else
      var k := FirstProbeHit(boxes[1..], point, sqrt);
      assert forall i :: 1 <= i < |boxes| ==> boxes[i] == boxes[1..][i - 1];
      if k == -1 then -1 else k + 1
  }

  /**
   * The node half of `_downHitTest`, after the hover test reported `node`
   * (the topmost hit, or nothing): a node with an id becomes the whole
   * selection, is hovered and will be moved, and the frames are cleared;
   * anything else clears what a drag would move and misses.
   */
  function NodeClick(s: SelectionState, node: Option<Shown>, index: map<string, Shown>): (r: (bool, SelectionState))
    ensures r.0 <==> HasId(node)
    ensures r.0 ==> r.1 == s.(ids := [node.value.id], selectionBoxs := [], hoverId := Some(node.value.id),
                              moveInfo := Some(MoveById(node.value.id)))
    ensures !r.0 ==> r.1 == s.(moveInfo := None)
  {
    if HasId(node) then
      var id := node.value.id;
      (true, SetSelectionState(s, Patch(Some([id]), None, Some([]), Some(Some(id)), Some(Some(MoveById(id)))), index))
    else
      (false, SetSelectionState(s, NoFields.(moveInfo := Some(None)), index))
  }

  /**
   * `_downHitTest`, as a value: the frames first, in order, then the
   * candidates through the hover test.
   */
  function ClickOutcome(s: SelectionState, point: Vec2, candidates: seq<Shown>, index: map<string, Shown>, sqrt: HT.Sqrt)
    : (r: (bool, SelectionState))
  {
    var i := FirstProbeHit(s.selectionBoxs, point, sqrt);
    if i >= 0 then (true, SetSelectionState(s, NoFields.(moveInfo := Some(Some(MoveSelectionBox(i)))), index))
    else
      var hover := HoverOutcome(s, C.Topmost(point, candidates, BoxOf, HitsPoint), index);
      NodeClick(hover.1, hover.0, index)
  }

  /**
   * `_downHitTest`: test the frames in order and stop at the first one the
   * probe hits; otherwise test the candidates.
   */
  method DownHitTest(s: SelectionState, point: Vec2, candidates: seq<Shown>, index: map<string, Shown>, sqrt: HT.Sqrt)
    returns (isHit: bool, s': SelectionState)
    ensures (isHit, s') == ClickOutcome(s, point, candidates, index, sqrt)
  {
    var boxes := s.selectionBoxs;
    for i := 0 to |boxes|
      invariant forall j :: 0 <= j < i ==> !ProbeHits(boxes[j], point, sqrt)
    {
      var box := boxes[i];
      if HT.MatrixNodesIntersect(HT.MatrixElement(TranslationMatrix(point.x, point.y), 1.0, 1.0),
                                 HT.MatrixElement(box.matrix, box.width, box.height), sqrt) {
        assert FirstProbeHit(boxes, point, sqrt) == i;
        return true, SetSelectionState(s, NoFields.(moveInfo := Some(Some(MoveSelectionBox(i)))), index);
      }
    }
    var node, hovered := HoverHitTest(s, point, candidates, index);
    var r := NodeClick(hovered, node, index);
    isHit, s' := r.0, r.1;
  }

  // ---------------------------------------------------------------------
  // Wheel

  /** The viewport was panned by (dx, dy): offsets moved, nothing else about the view changed. */
  twostate predicate Panned(vm: V.ViewportManager, dx: real, dy: real)
    reads vm
  {
    vm.scale == old(vm.scale) && vm.minScale == old(vm.minScale) && vm.maxScale == old(vm.maxScale)
    && vm.listeners == old(vm.listeners)
    && vm.offsetX == old(vm.offsetX) + dx && vm.offsetY == old(vm.offsetY) + dy
    && (dx == 0.0 && dy == 0.0 ==> vm.store == old(vm.store) && vm.delivered == old(vm.delivered))
  }

  /**
   * The viewport was zoomed by `delta` about (cx, cy): either nothing
   * changed (a zero delta or a change below 0.001), or the scale is the
   * clamped target and the world point under the anchor is the same.
   */
  twostate predicate Zoomed(vm: V.ViewportManager, delta: real, cx: real, cy: real, pow: V.Pow)
    requires old(vm.Valid()) && vm.Valid() && V.PowAtLeastOne(pow)
    reads vm, vm.canvas
  {
    vm.minScale == old(vm.minScale) && vm.maxScale == old(vm.maxScale) && vm.listeners == old(vm.listeners)
    && var target := V.ZoomTarget(vm.minScale, vm.maxScale, old(vm.scale), delta, pow);
       if delta == 0.0 || Abs(target - old(vm.scale)) < 0.001 then
         vm.scale == old(vm.scale) && vm.offsetX == old(vm.offsetX) && vm.offsetY == old(vm.offsetY)
         && vm.store == old(vm.store) && vm.delivered == old(vm.delivered)
       else
         vm.scale == target && vm.ScreenToWorld(cx, cy) == old(vm.ScreenToWorld(cx, cy))
  }

  /** `PanBehavior.handle`: pan by the negated wheel deltas. */
  method PanBehavior(vm: V.ViewportManager, ev: WheelEvent)
    requires vm.Valid()
    modifies vm
    ensures vm.Valid() && Panned(vm, -ev.deltaX, -ev.deltaY)
  {
    vm.Pan(-ev.deltaX, -ev.deltaY);
  }

  /** `ZoomBehavior.handle`: zoom by `delta` about the mouse's position on the canvas. */
  method ZoomBehavior(vm: V.ViewportManager, rect: Rect, ev: WheelEvent, delta: real, pow: V.Pow)
    requires vm.Valid() && V.PowAtLeastOne(pow)
    modifies vm
    ensures vm.Valid() && Zoomed(vm, delta, ev.clientX - rect.left, ev.clientY - rect.top, pow)
  {
    vm.ZoomDelta(delta, ev.clientX - rect.left, ev.clientY - rect.top, pow);
  }

  /**
   * What `PanZoomBehavior.handle` did to the viewport: with the main
   * modifier held, a zoom by a hundredth of the vertical delta; else with
   * meta or ctrl, a zoom by a fifth of it; else a pan by the negated deltas.
   * Each zoom is about the mouse's position on the canvas.
   */
  twostate predicate WheelHandled(vm: V.ViewportManager, rect: Rect, ev: WheelEvent, isMainPressed: bool, pow: V.Pow)
    requires old(vm.Valid()) && vm.Valid() && V.PowAtLeastOne(pow)
    reads vm, vm.canvas
  {
    if isMainPressed then Zoomed(vm, -ev.deltaY / 100.0, ev.clientX - rect.left, ev.clientY - rect.top, pow)
    else if ev.metaKey || ev.ctrlKey then Zoomed(vm, -ev.deltaY / 5.0, ev.clientX - rect.left, ev.clientY - rect.top, pow)
    else Panned(vm, -ev.deltaX, -ev.deltaY)
  }

  /** `PanZoomBehavior.handle`: exactly one of the three branches of `WheelHandled` runs. */
  method PanZoom(vm: V.ViewportManager, rect: Rect, ev: WheelEvent, isMainPressed: bool, pow: V.Pow)
    requires vm.Valid() && V.PowAtLeastOne(pow)
    modifies vm
    ensures vm.Valid() && WheelHandled(vm, rect, ev, isMainPressed, pow)
  {
    if isMainPressed {
      ZoomBehavior(vm, rect, ev, -ev.deltaY / 100.0, pow);
      return;
    }
    if ev.metaKey || ev.ctrlKey {
      ZoomBehavior(vm, rect, ev, -ev.deltaY / 5.0, pow);
      return;
    }
    PanBehavior(vm, ev);
  }

  // ---------------------------------------------------------------------
  // Properties

  /** A reported hover hit is a candidate under the point with no candidate under the point above it. */
  lemma HoverReportsTopmost(s: SelectionState, point: Vec2, candidates: seq<Shown>, index: map<string, Shown>)
    ensures var node := HoverOutcome(s, C.Topmost(point, candidates, BoxOf, HitsPoint), index).0;
            node.Some? ==>
              exists i :: 0 <= i < |candidates| && candidates[i] == node.value
                          && C.Accepts(candidates[i], point, BoxOf, HitsPoint) && HitsPoint(candidates[i], point)
                          && forall j :: i < j < |candidates| ==> !C.Accepts(candidates[j], point, BoxOf, HitsPoint)
  {
    C.TopmostMeaning(point, candidates, BoxOf, HitsPoint);
  }

  /** The overlay's hover only ever reports a `DOM_CARD`. */
  lemma OverlayHoverIsDomCard(s: SelectionState, point: Vec2, candidates: seq<Shown>, index: map<string, Shown>)
    ensures var node := HoverOutcome(s, C.Topmost(point, DomCards(candidates), BoxOf, HitsPoint), index).0;
            node.Some? ==> node.value.kind == DomCard && node.value in candidates
  {
    var cards := DomCards(candidates);
    C.TopmostMeaning(point, cards, BoxOf, HitsPoint);
  }

  /**
   * A click whose probe hits a frame only records which frame a drag
   * moves; the selection itself, its frames and the hover are kept.
   */
  lemma FrameClickKeepsSelection(s: SelectionState, point: Vec2, candidates: seq<Shown>, index: map<string, Shown>, sqrt: HT.Sqrt)
    requires exists i :: 0 <= i < |s.selectionBoxs| && ProbeHits(s.selectionBoxs[i], point, sqrt)
    ensures var r := ClickOutcome(s, point, candidates, index, sqrt);
            r.0 && r.1.ids == s.ids && r.1.selectionBoxs == s.selectionBoxs && r.1.hoverId == s.hoverId
            && r.1.moveInfo.Some? && r.1.moveInfo.value.MoveSelectionBox?
            && ProbeHits(s.selectionBoxs[r.1.moveInfo.value.index], point, sqrt)
  {
  }

  /**
   * A click that hits no frame and no node, or only a node of a larger
   * selection, keeps the selection and its frames and leaves nothing to move.
   */
  lemma MissKeepsSelection(s: SelectionState, point: Vec2, candidates: seq<Shown>, index: map<string, Shown>, sqrt: HT.Sqrt)
    requires forall i :: 0 <= i < |s.selectionBoxs| ==> !ProbeHits(s.selectionBoxs[i], point, sqrt)
    ensures var r := ClickOutcome(s, point, candidates, index, sqrt);
            !r.0 ==> r.1.ids == s.ids && r.1.selectionBoxs == s.selectionBoxs && r.1.moveInfo.None?
  {
  }

  /** A node that belongs to a selection of more than one node is never clicked on its own. */
  lemma MultiSelectedNodeIsNotClicked(s: SelectionState, point: Vec2, candidates: seq<Shown>, index: map<string, Shown>, sqrt: HT.Sqrt)
    requires forall i :: 0 <= i < |s.selectionBoxs| ==> !ProbeHits(s.selectionBoxs[i], point, sqrt)
    requires var found := C.Topmost(point, candidates, BoxOf, HitsPoint);
             HasId(found) && |s.ids| > 1 && found.value.id in s.ids
    ensures var r := ClickOutcome(s, point, candidates, index, sqrt);
            !r.0 && r.1.hoverId.None? && r.1.ids == s.ids
  {
  }
}
