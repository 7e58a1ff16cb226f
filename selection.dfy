/// The selection store: the selected ids (a JavaScript `Set`, kept here as a
/// duplicate-free sequence in insertion order), the marquee ("ghost") box,
/// the selection frames drawn around the selection, the hovered id and what
/// a drag would move. The store is a plain record; `setSelectionState`
/// merges a partial record into it after recomputing the frames from any
/// ids it is given.
module Selection {
  import opened Types
  import opened Stage
  import BB = BoundingBoxes
  import Bounds

  /** A selection frame: a box of the given size drawn under `matrix`. */
  datatype SelectionBoxItem = SelectionBoxItem(matrix: Matrix, width: real, height: real)

  /** What a drag moves: one node, or everything inside the frame at `index`. */
  datatype MoveInfo = MoveById(id: string) | MoveSelectionBox(index: nat)

  datatype SelectionState = SelectionState(
    ids: seq<string>,
    ghostBox: Box,
    selectionBoxs: seq<SelectionBoxItem>,
    hoverId: Option<string>,
    moveInfo: Option<MoveInfo>)

  const Initial: SelectionState := SelectionState([], Box(0.0, 0.0, 0.0, 0.0), [], None, None)

  /** A partial record for `setSelectionState`: `None` is a field left out of the call. */
  datatype Patch = Patch(
    ids: Option<seq<string>>,
    ghostBox: Option<Box>,
    selectionBoxs: Option<seq<SelectionBoxItem>>,
    hoverId: Option<Option<string>>,
    moveInfo: Option<Option<MoveInfo>>)

  const NoFields: Patch := Patch(None, None, None, None, None)

  // ---------------------------------------------------------------------
  // JavaScript sets of ids

  predicate NoDuplicates(xs: seq<string>)
  {
    forall i, j :: 0 <= i < j < |xs| ==> xs[i] != xs[j]
  }

  /** Adding `xs` one by one to a set already holding `acc`. */
  function AddAll(acc: seq<string>, xs: seq<string>): (r: seq<string>)
    requires NoDuplicates(acc)
    ensures NoDuplicates(r)
    ensures forall x :: x in r <==> x in acc || x in xs
    ensures |acc| <= |r| && r[..|acc|] == acc
    decreases |xs|
  {
    if |xs| == 0 then acc
    else
      var next := if xs[0] in acc then acc else acc + [xs[0]];
      var r := AddAll(next, xs[1..]);
      assert forall x :: x in xs ==> x == xs[0] || x in xs[1..];
      assert r[..|acc|] == r[..|next|][..|acc|];
      r
  }

  /** `new Set(xs)`: the distinct elements of `xs` in order of first occurrence. */
  function SetOf(xs: seq<string>): (r: seq<string>)
    ensures NoDuplicates(r)
    ensures forall x :: x in r <==> x in xs
  {
    AddAll([], xs)
  }

  // ---------------------------------------------------------------------
  // The scene's id index

  /** The ROOT node as the index holds it. */
  const RootShown: Shown := Shown("ROOT", Root, Identity, Identity, 0.0, 0.0, true)

  /** Enter the nodes into the index in order; a later node replaces an earlier one with the same id. */
  function Indexed(ns: seq<Shown>, m: map<string, Shown>): map<string, Shown>
    decreases |ns|
  {
    if |ns| == 0 then m else Indexed(ns[1..], m[ns[0].id := ns[0]])
  }

  /** `nodeMap` after `build`: ROOT first, then every node in pre-order. */
  function NodeMap(scene: seq<DesignElement>): map<string, Shown>
  {
    Indexed(AllShown(scene, Identity), map["ROOT" := RootShown])
  }

  /** `findByIds`: the indexed node of every id, in the order of the ids; unknown ids are skipped. */
  function FindByIds(index: map<string, Shown>, ids: seq<string>): (r: seq<Shown>)
    ensures |r| <= |ids|
    ensures forall n :: n in r <==> exists id :: id in ids && id in index && index[id] == n
  {
    if |ids| == 0 then []
    else
      var rest := FindByIds(index, ids[1..]);
      assert forall id :: id in ids <==> id == ids[0] || id in ids[1..];
      if ids[0] in index then [index[ids[0]]] + rest else rest
  }

  /** The absolute bounding box of every node. */
  function BoxesOf(ns: seq<Shown>): (r: seq<Box>)
    ensures |r| == |ns| && forall i :: 0 <= i < |ns| ==> r[i] == BoxOf(ns[i])
  {
    seq(|ns|, i requires 0 <= i < |ns| => BoxOf(ns[i]))
  }

  // ---------------------------------------------------------------------
  // Updates

  /**
   * `updateSelectionBoxs`: no ids, no frame; several nodes found, one
   * unrotated frame over the merge of their absolute boxes; one node found,
   * a frame with that node's own size and (local) matrix; ids of which none
   * is found leave the frames as they were.
   */
  function UpdateSelectionBoxs(s: SelectionState, ids: seq<string>, index: map<string, Shown>): (r: SelectionState)
    ensures r == s.(selectionBoxs := r.selectionBoxs)
    ensures |ids| == 0 ==> r.selectionBoxs == []
    ensures |ids| > 0 && FindByIds(index, ids) == [] ==> r.selectionBoxs == s.selectionBoxs
    ensures var found := FindByIds(index, ids);
            |ids| > 0 && |found| == 1 ==>
              r.selectionBoxs == [SelectionBoxItem(found[0].matrix, found[0].width, found[0].height)]
    ensures var found := FindByIds(index, ids);
            |ids| > 0 && |found| > 1 ==>
              |r.selectionBoxs| == 1 && r.selectionBoxs[0].width >= 0.0 && r.selectionBoxs[0].height >= 0.0
              && r.selectionBoxs[0].matrix.a == 1.0 && r.selectionBoxs[0].matrix.b == 0.0
              && r.selectionBoxs[0].matrix.c == 0.0 && r.selectionBoxs[0].matrix.d == 1.0
    ensures var found := FindByIds(index, ids);
            |ids| > 0 && |found| > 1 ==>
              var m := BB.Merged(BoxesOf(found));
              r.selectionBoxs == [SelectionBoxItem(TranslationMatrix(m.x, m.y), m.width, m.height)]
  {
    if |ids| == 0 then s.(selectionBoxs := [])
    else
      var nodes := FindByIds(index, ids);
      if |nodes| > 1 then
        var boxes := BoxesOf(nodes);
        BB.MergedSizeNonNegative(boxes);
        var merged := BB.Merged(boxes);
        s.(selectionBoxs := [SelectionBoxItem(TranslationMatrix(merged.x, merged.y), merged.width, merged.height)])
      else if |nodes| == 1 then
        s.(selectionBoxs := [SelectionBoxItem(nodes[0].matrix, nodes[0].width, nodes[0].height)])
      else s
  }

  /** Every field the patch holds replaces the store's. */
  function Merge(s: SelectionState, data: Patch): SelectionState
  {
    SelectionState(
      if data.ids.Some? then data.ids.value else s.ids,
      if data.ghostBox.Some? then data.ghostBox.value else s.ghostBox,
      if data.selectionBoxs.Some? then data.selectionBoxs.value else s.selectionBoxs,
      if data.hoverId.Some? then data.hoverId.value else s.hoverId,
      if data.moveInfo.Some? then data.moveInfo.value else s.moveInfo)
  }

  /**
   * `setSelectionState`: recompute the frames when ids are given, then merge
   * the patch, so frames passed in the same call replace the recomputed ones.
   */
  function SetSelectionState(s: SelectionState, data: Patch, index: map<string, Shown>): (r: SelectionState)
    ensures data.ids.Some? ==> r.ids == data.ids.value
    ensures data.ids.None? ==> r.ids == s.ids
    ensures data.ghostBox.Some? ==> r.ghostBox == data.ghostBox.value
    ensures data.ghostBox.None? ==> r.ghostBox == s.ghostBox
    ensures data.hoverId.Some? ==> r.hoverId == data.hoverId.value
    ensures data.hoverId.None? ==> r.hoverId == s.hoverId
    ensures data.moveInfo.Some? ==> r.moveInfo == data.moveInfo.value
    ensures data.moveInfo.None? ==> r.moveInfo == s.moveInfo
    ensures data.selectionBoxs.Some? ==> r.selectionBoxs == data.selectionBoxs.value
    ensures data.selectionBoxs.None? && data.ids.Some? ==>
              r.selectionBoxs == UpdateSelectionBoxs(s, data.ids.value, index).selectionBoxs
    ensures data.selectionBoxs.None? && data.ids.None? ==> r.selectionBoxs == s.selectionBoxs
  {
    var recomputed := if data.ids.Some? then UpdateSelectionBoxs(s, data.ids.value, index) else s;
    Merge(recomputed, data)
  }

  // ---------------------------------------------------------------------
  // Properties

  /**
   * The index holds ROOT and every node's id; a node's id leads to the
   * last node carrying it.
   */
  lemma {:induction false} IndexedLookup(ns: seq<Shown>, m: map<string, Shown>, id: string)
    ensures id in Indexed(ns, m) <==> id in m || exists k :: 0 <= k < |ns| && ns[k].id == id
    ensures (forall k :: 0 <= k < |ns| ==> ns[k].id != id) && id in m ==> Indexed(ns, m)[id] == m[id]
    ensures (exists k :: 0 <= k < |ns| && ns[k].id == id) ==>
              exists k :: 0 <= k < |ns| && ns[k].id == id && Indexed(ns, m)[id] == ns[k]
                          && forall j :: k < j < |ns| ==> ns[j].id != id
    decreases |ns|
  {
    if |ns| > 0 {
      var m' := m[ns[0].id := ns[0]];
      var tail := ns[1..];
      IndexedLookup(tail, m', id);
      assert forall k :: 1 <= k < |ns| ==> ns[k] == tail[k - 1];
      if exists k :: 0 <= k < |tail| && tail[k].id == id {
        var k :| 0 <= k < |tail| && tail[k].id == id && Indexed(tail, m')[id] == tail[k]
                 && forall j :: k < j < |tail| ==> tail[j].id != id;
        assert ns[k + 1] == tail[k];
      } else if ns[0].id == id {
        assert Indexed(ns, m)[id] == ns[0];
      }
    }
  }

  /** Nothing is found exactly when none of the ids is in the index. */
  lemma NothingFound(index: map<string, Shown>, ids: seq<string>)
    ensures FindByIds(index, ids) == [] <==> forall id :: id in ids ==> id !in index
  {
    var r := FindByIds(index, ids);
    if r != [] {
      assert r[0] in r;
    }
  }

  /** Several nodes found: the single frame covers the absolute box of every one of them. */
  lemma MergedFrameCovers(s: SelectionState, ids: seq<string>, index: map<string, Shown>, i: nat)
    requires |FindByIds(index, ids)| > 1 && i < |FindByIds(index, ids)|
    ensures var item := UpdateSelectionBoxs(s, ids, index).selectionBoxs[0];
            var frame := Bounds.GetAABBFromTransform(item.matrix, item.width, item.height);
            var b := BoxOf(FindByIds(index, ids)[i]);
            frame.x <= b.x && b.x + b.width <= frame.x + frame.width
            && frame.y <= b.y && b.y + b.height <= frame.y + frame.height
  {
    var nodes := FindByIds(index, ids);
    var boxes := BoxesOf(nodes);
    BB.MergedSizeNonNegative(boxes);
    var merged := BB.Merged(boxes);
    Bounds.TranslationAABB(merged.x, merged.y, merged.width, merged.height);
    BB.MergedContainsAll(boxes, i);
  }

  /**
   * Several nodes found: the single frame is the smallest box that covers
   * them all, since any box covering every found box contains it.
   */
  lemma MergedFrameSmallest(s: SelectionState, ids: seq<string>, index: map<string, Shown>, c: Box)
    requires |FindByIds(index, ids)| > 1
    requires forall i :: 0 <= i < |FindByIds(index, ids)| ==> BB.Covers(c, BoxOf(FindByIds(index, ids)[i]))
    ensures var item := UpdateSelectionBoxs(s, ids, index).selectionBoxs[0];
            BB.Covers(c, Bounds.GetAABBFromTransform(item.matrix, item.width, item.height))
  {
    var nodes := FindByIds(index, ids);
    var boxes := BoxesOf(nodes);
    BB.MergedSizeNonNegative(boxes);
    var merged := BB.Merged(boxes);
    assert |ids| > 0;
    assert UpdateSelectionBoxs(s, ids, index).selectionBoxs
           == [SelectionBoxItem(TranslationMatrix(merged.x, merged.y), merged.width, merged.height)];
    Bounds.TranslationAABB(merged.x, merged.y, merged.width, merged.height);
    assert forall i :: 0 <= i < |boxes| ==> boxes[i] == BoxOf(nodes[i]);
    BB.MergedSmallest(boxes, c);
  }

  /**
   * One root child found: its frame, drawn under its local matrix, is its
   * absolute box, since a root child's local and absolute matrices agree.
   */
  lemma SingleTopLevelFrameIsItsBox(s: SelectionState, ids: seq<string>, index: map<string, Shown>, el: DesignElement)
    requires |ids| > 0 && FindByIds(index, ids) == [Show(el, Identity)]
    ensures var item := UpdateSelectionBoxs(s, ids, index).selectionBoxs[0];
            Bounds.GetAABBFromTransform(item.matrix, item.width, item.height) == BoxOf(Show(el, Identity))
  {
    TopLevelAbsIsLocal(el);
  }

  /** Applying the same patch twice is applying it once. */
  lemma SetSelectionStateIdempotent(s: SelectionState, data: Patch, index: map<string, Shown>)
    ensures SetSelectionState(SetSelectionState(s, data, index), data, index) == SetSelectionState(s, data, index)
  {
  }

  /**
   * Ids given without frames leave the frames agreeing with the new ids:
   * recomputing them from the result changes nothing.
   */
  lemma FramesFollowIds(s: SelectionState, ids: seq<string>, index: map<string, Shown>)
    ensures var r := SetSelectionState(s, NoFields.(ids := Some(ids)), index);
            UpdateSelectionBoxs(r, r.ids, index) == r
  {
  }
}
