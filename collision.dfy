/// Topmost-first point picking and box filtering (`CollisionDetector`), over
/// any objects that offer a bounding box, a point test and a box test
/// (`IHittable`). The order of the objects is their drawing order: the last
/// one is drawn on top.
module Collision {
  import opened Types

  /** `isPointInBox`: inclusive on all four edges. */
  predicate IsPointInBox(point: Vec2, box: Box)
  {
    box.x <= point.x <= box.x + box.width && box.y <= point.y <= box.y + box.height
  }

  /** An object `findHit` accepts: the point is in its box and its own test hits. */
  predicate Accepts<T>(o: T, point: Vec2, boxOf: T -> Box, hitTest: (T, Vec2) -> bool)
  {
    IsPointInBox(point, boxOf(o)) && hitTest(o, point)
  }

  /** The topmost object that accepts the point: the last one in drawing order. */
  function Topmost<T>(point: Vec2, objects: seq<T>, boxOf: T -> Box, hitTest: (T, Vec2) -> bool): Option<T>
  {
    if |objects| == 0 then None
    else if Accepts(objects[|objects| - 1], point, boxOf, hitTest) then Some(objects[|objects| - 1])
    else Topmost(point, objects[..|objects| - 1], boxOf, hitTest)
  }

  /**
   * `findHit`: scan from the top (the end) down and return the first object
   * whose box contains the point and whose hit test accepts it; nothing when
   * no object does.
   */
  method FindHit<T(==)>(point: Vec2, objects: seq<T>, boxOf: T -> Box, hitTest: (T, Vec2) -> bool)
    returns (r: Option<T>)
    ensures r == Topmost(point, objects, boxOf, hitTest)
    ensures r.None? <==> forall i :: 0 <= i < |objects| ==> !Accepts(objects[i], point, boxOf, hitTest)
    ensures r.Some? ==> exists i :: 0 <= i < |objects| && objects[i] == r.value
                                    && Accepts(objects[i], point, boxOf, hitTest)
                                    && forall j :: i < j < |objects| ==> !Accepts(objects[j], point, boxOf, hitTest)
  {
    TopmostMeaning(point, objects, boxOf, hitTest);
    var i := |objects|;
    assert objects[..i] == objects;
    while i > 0
      invariant 0 <= i <= |objects|
      invariant forall j :: i <= j < |objects| ==> !Accepts(objects[j], point, boxOf, hitTest)
      invariant Topmost(point, objects, boxOf, hitTest) == Topmost(point, objects[..i], boxOf, hitTest)
    {
      assert objects[..i][..i - 1] == objects[..i - 1];
      i := i - 1;
      var obj := objects[i];
      if IsPointInBox(point, boxOf(obj)) {
        if hitTest(obj, point) {
          return Some(obj);
        }
      }
    }
    return None;
  }

  /** `findIntersecting`: the objects whose box test accepts the box, in their original order. */
  function FindIntersecting<T(==)>(box: Box, objects: seq<T>, intersectsWith: (T, Box) -> bool): (r: seq<T>)
    ensures |r| <= |objects|
    ensures forall k :: 0 <= k < |r| ==> r[k] in objects && intersectsWith(r[k], box)
    ensures forall k :: 0 <= k < |objects| && intersectsWith(objects[k], box) ==> objects[k] in r
  {
    if |objects| == 0 then []
    else
      var rest := FindIntersecting(box, objects[1..], intersectsWith);
      assert forall k :: 1 <= k < |objects| ==> objects[k] == objects[1..][k - 1];
      if intersectsWith(objects[0], box) then [objects[0]] + rest else rest
  }

  // ---------------------------------------------------------------------
  // Properties

  /**
   * The filter keeps the original order: filtering a concatenation is the
   * concatenation of the filtered parts.
   */
  lemma {:induction false} FindIntersectingAppend<T>(box: Box, a: seq<T>, b: seq<T>, intersectsWith: (T, Box) -> bool)
    ensures FindIntersecting(box, a + b, intersectsWith)
            == FindIntersecting(box, a, intersectsWith) + FindIntersecting(box, b, intersectsWith)
  {
    if |a| > 0 {
      assert (a + b)[1..] == a[1..] + b;
      FindIntersectingAppend(box, a[1..], b, intersectsWith);
    } else {
      assert a + b == b;
    }
  }

  /** All four edges and corners of a box of non-negative size belong to it. */
  lemma BoxCornersInside(box: Box)
    requires box.width >= 0.0 && box.height >= 0.0
    ensures IsPointInBox(Vec2(box.x, box.y), box)
    ensures IsPointInBox(Vec2(box.x + box.width, box.y), box)
    ensures IsPointInBox(Vec2(box.x, box.y + box.height), box)
    ensures IsPointInBox(Vec2(box.x + box.width, box.y + box.height), box)
  {
  }

  /**
   * `Topmost` is what its name says: nothing when no object accepts the
   * point, otherwise an accepting object with no accepting object above it.
   */
  lemma TopmostMeaning<T>(point: Vec2, objects: seq<T>, boxOf: T -> Box, hitTest: (T, Vec2) -> bool)
    ensures var r := Topmost(point, objects, boxOf, hitTest);
            (r.None? <==> forall i :: 0 <= i < |objects| ==> !Accepts(objects[i], point, boxOf, hitTest))
            && (r.Some? ==> exists i :: 0 <= i < |objects| && objects[i] == r.value
                                        && Accepts(objects[i], point, boxOf, hitTest)
                                        && forall j :: i < j < |objects| ==> !Accepts(objects[j], point, boxOf, hitTest))
  {
    TopmostNoneIff(point, objects, boxOf, hitTest);
    TopmostSomeIsTop(point, objects, boxOf, hitTest);
  }

  /** Nothing is found exactly when no object accepts the point. */
  lemma {:induction false} TopmostNoneIff<T>(point: Vec2, objects: seq<T>, boxOf: T -> Box, hitTest: (T, Vec2) -> bool)
    ensures Topmost(point, objects, boxOf, hitTest).None?
            <==> forall i :: 0 <= i < |objects| ==> !Accepts(objects[i], point, boxOf, hitTest)
  {
    if |objects| > 0 {
      var last := |objects| - 1;
      var front := objects[..last];
      if !Accepts(objects[last], point, boxOf, hitTest) {
        TopmostNoneIff(point, front, boxOf, hitTest);
        assert forall i :: 0 <= i < last ==> objects[i] == front[i];
      }
    }
  }

  /** A found object sits at a position that accepts the point with nothing accepting above it. */
  lemma {:induction false} TopmostSomeIsTop<T>(point: Vec2, objects: seq<T>, boxOf: T -> Box, hitTest: (T, Vec2) -> bool)
    ensures var r := Topmost(point, objects, boxOf, hitTest);
            r.Some? ==> exists i :: 0 <= i < |objects| && objects[i] == r.value
                                    && Accepts(objects[i], point, boxOf, hitTest)
                                    && forall j :: i < j < |objects| ==> !Accepts(objects[j], point, boxOf, hitTest)
  {
    if |objects| > 0 {
      var last := |objects| - 1;
      var front := objects[..last];
      if !Accepts(objects[last], point, boxOf, hitTest) {
        TopmostSomeIsTop(point, front, boxOf, hitTest);
        var r := Topmost(point, front, boxOf, hitTest);
        if r.Some? {
          var i :| 0 <= i < |front| && front[i] == r.value && Accepts(front[i], point, boxOf, hitTest)
                   && forall j :: i < j < |front| ==> !Accepts(front[j], point, boxOf, hitTest);
          assert objects[i] == front[i];
          assert forall j :: i < j < last ==> objects[j] == front[j];
        }
      }
    }
  }

  /**
   * The object `findHit` describes is unique: two positions that both
   * accept the point with nothing accepting above them are the same.
   */
  lemma TopmostIsUnique<T>(point: Vec2, objects: seq<T>, boxOf: T -> Box, hitTest: (T, Vec2) -> bool, i: nat, k: nat)
    requires i < |objects| && k < |objects|
    requires Accepts(objects[i], point, boxOf, hitTest) && Accepts(objects[k], point, boxOf, hitTest)
    requires forall j :: i < j < |objects| ==> !Accepts(objects[j], point, boxOf, hitTest)
    requires forall j :: k < j < |objects| ==> !Accepts(objects[j], point, boxOf, hitTest)
    ensures i == k
  {
  }
}
