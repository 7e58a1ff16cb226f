/// Merging boxes into the box that covers them all (`mergeBoundingBoxes`).
module BoundingBoxes {
  import opened Types

  function Right(b: Box): real { b.x + b.width }
  function Bottom(b: Box): real { b.y + b.height }

  /** The smallest left edge, taken over the boxes in order. */
  function MinLeft(bs: seq<Box>): real
    requires |bs| > 0
  {
    if |bs| == 1 then bs[0].x else Min(MinLeft(bs[..|bs| - 1]), bs[|bs| - 1].x)
  }

  function MinTop(bs: seq<Box>): real
    requires |bs| > 0
  {
    if |bs| == 1 then bs[0].y else Min(MinTop(bs[..|bs| - 1]), bs[|bs| - 1].y)
  }

  function MaxRight(bs: seq<Box>): real
    requires |bs| > 0
  {
    if |bs| == 1 then Right(bs[0]) else Max(MaxRight(bs[..|bs| - 1]), Right(bs[|bs| - 1]))
  }

  function MaxBottom(bs: seq<Box>): real
    requires |bs| > 0
  {
    if |bs| == 1 then Bottom(bs[0]) else Max(MaxBottom(bs[..|bs| - 1]), Bottom(bs[|bs| - 1]))
  }

  /** The smallest left edge bounds every box's and is one of them. */
  lemma {:induction false} LeftExtreme(bs: seq<Box>)
    requires |bs| > 0
    ensures forall i :: 0 <= i < |bs| ==> MinLeft(bs) <= bs[i].x
    ensures exists i :: 0 <= i < |bs| && MinLeft(bs) == bs[i].x
  {
    if |bs| > 1 {
      var front := bs[..|bs| - 1];
      LeftExtreme(front);
      assert forall i :: 0 <= i < |front| ==> bs[i] == front[i];
      var a :| 0 <= a < |front| && MinLeft(front) == front[a].x;
      if MinLeft(bs) == bs[a].x {
        assert 0 <= a < |bs| && MinLeft(bs) == bs[a].x;
      } else {
        assert MinLeft(bs) == bs[|bs| - 1].x;
      }
    } else {
      assert MinLeft(bs) == bs[0].x;
    }
  }

  /** The smallest top edge bounds every box's and is one of them. */
  lemma {:induction false} TopExtreme(bs: seq<Box>)
    requires |bs| > 0
    ensures forall i :: 0 <= i < |bs| ==> MinTop(bs) <= bs[i].y
    ensures exists i :: 0 <= i < |bs| && MinTop(bs) == bs[i].y
  {
    if |bs| > 1 {
      var front := bs[..|bs| - 1];
      TopExtreme(front);
      assert forall i :: 0 <= i < |front| ==> bs[i] == front[i];
      var b :| 0 <= b < |front| && MinTop(front) == front[b].y;
      if MinTop(bs) == bs[b].y {
        assert 0 <= b < |bs| && MinTop(bs) == bs[b].y;
      } else {
        assert MinTop(bs) == bs[|bs| - 1].y;
      }
    } else {
      assert MinTop(bs) == bs[0].y;
    }
  }

  /** The largest right edge bounds every box's and is one of them. */
  lemma {:induction false} RightExtreme(bs: seq<Box>)
    requires |bs| > 0
    ensures forall i :: 0 <= i < |bs| ==> Right(bs[i]) <= MaxRight(bs)
    ensures exists i :: 0 <= i < |bs| && MaxRight(bs) == Right(bs[i])
  {
    if |bs| > 1 {
      var front := bs[..|bs| - 1];
      RightExtreme(front);
      assert forall i :: 0 <= i < |front| ==> bs[i] == front[i];
      var c :| 0 <= c < |front| && MaxRight(front) == Right(front[c]);
      if MaxRight(bs) == Right(bs[c]) {
        assert 0 <= c < |bs| && MaxRight(bs) == Right(bs[c]);
      } else {
        assert MaxRight(bs) == Right(bs[|bs| - 1]);
      }
    } else {
      assert MaxRight(bs) == Right(bs[0]);
    }
  }

  /** The largest bottom edge bounds every box's and is one of them. */
  lemma {:induction false} BottomExtreme(bs: seq<Box>)
    requires |bs| > 0
    ensures forall i :: 0 <= i < |bs| ==> Bottom(bs[i]) <= MaxBottom(bs)
    ensures exists i :: 0 <= i < |bs| && MaxBottom(bs) == Bottom(bs[i])
  {
    if |bs| > 1 {
      var front := bs[..|bs| - 1];
      BottomExtreme(front);
      assert forall i :: 0 <= i < |front| ==> bs[i] == front[i];
      var d :| 0 <= d < |front| && MaxBottom(front) == Bottom(front[d]);
      if MaxBottom(bs) == Bottom(bs[d]) {
        assert 0 <= d < |bs| && MaxBottom(bs) == Bottom(bs[d]);
      } else {
        assert MaxBottom(bs) == Bottom(bs[|bs| - 1]);
      }
    } else {
      assert MaxBottom(bs) == Bottom(bs[0]);
    }
  }

  /** Each extreme bounds every box and is attained by one of them. */
  lemma ExtremesBounds(bs: seq<Box>)
    requires |bs| > 0
    ensures forall i :: 0 <= i < |bs| ==> MinLeft(bs) <= bs[i].x && MinTop(bs) <= bs[i].y
    ensures forall i :: 0 <= i < |bs| ==> Right(bs[i]) <= MaxRight(bs) && Bottom(bs[i]) <= MaxBottom(bs)
    ensures exists i :: 0 <= i < |bs| && MinLeft(bs) == bs[i].x
    ensures exists i :: 0 <= i < |bs| && MinTop(bs) == bs[i].y
    ensures exists i :: 0 <= i < |bs| && MaxRight(bs) == Right(bs[i])
    ensures exists i :: 0 <= i < |bs| && MaxBottom(bs) == Bottom(bs[i])
  {
    LeftExtreme(bs);
    TopExtreme(bs);
    RightExtreme(bs);
    BottomExtreme(bs);
  }

  /** The covering box the merge is specified by. */
  function Merged(bs: seq<Box>): Box
    requires |bs| > 0
  {
    Box(MinLeft(bs), MinTop(bs), MaxRight(bs) - MinLeft(bs), MaxBottom(bs) - MinTop(bs))
  }

  /**
   * `mergeBoundingBoxes`: one pass keeping the running minimum left/top and
   * maximum right/bottom edges. The pass is seeded with plus and minus
   * infinity, which the first box replaces; an empty input keeps the seeds,
   * a box of infinities that has no real counterpart and is `None` here.
   */
  method MergeBoundingBoxes(boxes: seq<Box>) returns (r: Option<Box>)
    ensures |boxes| == 0 <==> r.None?
    ensures |boxes| > 0 ==> r == Some(Merged(boxes))
  {
    if |boxes| == 0 {
      return None;
    }
    var minX, minY := boxes[0].x, boxes[0].y;
    var maxX, maxY := boxes[0].x + boxes[0].width, boxes[0].y + boxes[0].height;
    assert boxes[..1] == [boxes[0]];
    var i := 1;
    while i < |boxes|
      invariant 1 <= i <= |boxes|
      invariant minX == MinLeft(boxes[..i]) && minY == MinTop(boxes[..i])
      invariant maxX == MaxRight(boxes[..i]) && maxY == MaxBottom(boxes[..i])
    {
      var box := boxes[i];
      MergeStep(boxes, i);
      minX := Min(minX, box.x);
      minY := Min(minY, box.y);
      maxX := Max(maxX, box.x + box.width);
      maxY := Max(maxY, box.y + box.height);
      i := i + 1;
    }
    assert boxes[..i] == boxes;
    r := Some(Box(minX, minY, maxX - minX, maxY - minY));
  }

  lemma MergeStep(bs: seq<Box>, i: int)
    requires 0 < i < |bs|
    ensures MinLeft(bs[..i + 1]) == Min(MinLeft(bs[..i]), bs[i].x)
    ensures MinTop(bs[..i + 1]) == Min(MinTop(bs[..i]), bs[i].y)
    ensures MaxRight(bs[..i + 1]) == Max(MaxRight(bs[..i]), Right(bs[i]))
    ensures MaxBottom(bs[..i + 1]) == Max(MaxBottom(bs[..i]), Bottom(bs[i]))
  {
    assert bs[..i + 1][..i] == bs[..i];
  }

  /** The merged box contains every input box. */
  lemma MergedContainsAll(bs: seq<Box>, i: int)
    requires 0 <= i < |bs|
    ensures var m := Merged(bs);
            m.x <= bs[i].x && Right(bs[i]) <= m.x + m.width &&
            m.y <= bs[i].y && Bottom(bs[i]) <= m.y + m.height
  {
    ExtremesBounds(bs);
  }

  /** `c` contains `b`. */
  predicate Covers(c: Box, b: Box)
  {
    c.x <= b.x && Right(b) <= Right(c) && c.y <= b.y && Bottom(b) <= Bottom(c)
  }

  /** The merged box is the smallest cover: any box containing every input box contains it. */
  lemma MergedSmallest(bs: seq<Box>, c: Box)
    requires |bs| > 0
    requires forall i :: 0 <= i < |bs| ==> Covers(c, bs[i])
    ensures Covers(c, Merged(bs))
  {
    ExtremesBounds(bs);
    var a :| 0 <= a < |bs| && MinLeft(bs) == bs[a].x;
    var b :| 0 <= b < |bs| && MinTop(bs) == bs[b].y;
    var r :| 0 <= r < |bs| && MaxRight(bs) == Right(bs[r]);
    var d :| 0 <= d < |bs| && MaxBottom(bs) == Bottom(bs[d]);
  }

  /** When every input size is non-negative, so is the merged size. */
  lemma MergedSizeNonNegative(bs: seq<Box>)
    requires |bs| > 0
    requires forall i :: 0 <= i < |bs| ==> bs[i].width >= 0.0 && bs[i].height >= 0.0
    ensures Merged(bs).width >= 0.0 && Merged(bs).height >= 0.0
  {
    ExtremesBounds(bs);
    var i :| 0 <= i < |bs| && MinLeft(bs) == bs[i].x;
    assert Right(bs[i]) <= MaxRight(bs);
    var j :| 0 <= j < |bs| && MinTop(bs) == bs[j].y;
    assert Bottom(bs[j]) <= MaxBottom(bs);
  }

  /** `bs` and `cs` hold the same boxes, whatever their order and multiplicity. */
  predicate SameBoxes(bs: seq<Box>, cs: seq<Box>)
  {
    (forall b :: b in bs ==> b in cs) && (forall c :: c in cs ==> c in bs)
  }

  lemma MinLeftSameBoxes(bs: seq<Box>, cs: seq<Box>)
    requires |bs| > 0 && |cs| > 0 && SameBoxes(bs, cs)
    ensures MinLeft(bs) == MinLeft(cs)
  {
    ExtremesBounds(bs);
    ExtremesBounds(cs);
    var i :| 0 <= i < |bs| && MinLeft(bs) == bs[i].x;
    var j :| 0 <= j < |cs| && MinLeft(cs) == cs[j].x;
    assert bs[i] in cs && cs[j] in bs;
  }

  lemma MinTopSameBoxes(bs: seq<Box>, cs: seq<Box>)
    requires |bs| > 0 && |cs| > 0 && SameBoxes(bs, cs)
    ensures MinTop(bs) == MinTop(cs)
  {
    ExtremesBounds(bs);
    ExtremesBounds(cs);
    var i :| 0 <= i < |bs| && MinTop(bs) == bs[i].y;
    var j :| 0 <= j < |cs| && MinTop(cs) == cs[j].y;
    assert bs[i] in cs && cs[j] in bs;
  }

  lemma MaxRightSameBoxes(bs: seq<Box>, cs: seq<Box>)
    requires |bs| > 0 && |cs| > 0 && SameBoxes(bs, cs)
    ensures MaxRight(bs) == MaxRight(cs)
  {
    ExtremesBounds(bs);
    ExtremesBounds(cs);
    var i :| 0 <= i < |bs| && MaxRight(bs) == Right(bs[i]);
    var j :| 0 <= j < |cs| && MaxRight(cs) == Right(cs[j]);
    assert bs[i] in cs && cs[j] in bs;
  }

  lemma MaxBottomSameBoxes(bs: seq<Box>, cs: seq<Box>)
    requires |bs| > 0 && |cs| > 0 && SameBoxes(bs, cs)
    ensures MaxBottom(bs) == MaxBottom(cs)
  {
    ExtremesBounds(bs);
    ExtremesBounds(cs);
    var i :| 0 <= i < |bs| && MaxBottom(bs) == Bottom(bs[i]);
    var j :| 0 <= j < |cs| && MaxBottom(cs) == Bottom(cs[j]);
    assert bs[i] in cs && cs[j] in bs;
  }

  /** The merged box depends only on which boxes are given, not on their order or repetition. */
  lemma MergedOrderIndependent(bs: seq<Box>, cs: seq<Box>)
    requires |bs| > 0 && multiset(bs) == multiset(cs)
    ensures |cs| > 0 && Merged(bs) == Merged(cs)
  {
    assert bs[0] in multiset(cs);
    forall b | b in bs ensures b in cs {
      assert b in multiset(bs);
    }
    forall c | c in cs ensures c in bs {
      assert c in multiset(cs);
    }
    MinLeftSameBoxes(bs, cs);
    MinTopSameBoxes(bs, cs);
    MaxRightSameBoxes(bs, cs);
    MaxBottomSameBoxes(bs, cs);
  }
}
