/// Snapping a zoom factor to the fixed ladder of zoom levels (`matchZoomScale`).
module ZoomScale {
  import opened Types

  /** The zoom ladder, smallest first. */
  const ZoomLevels: seq<real> := [0.02, 0.03, 0.06, 0.13, 0.25, 0.5, 1.0, 2.0, 4.0, 8.0, 16.0]

  predicate StrictlyAscending(xs: seq<real>)
  {
    forall i, j :: 0 <= i < j < |xs| ==> xs[i] < xs[j]
  }

  lemma LadderAscending()
    ensures StrictlyAscending(ZoomLevels)
  {
    var z := ZoomLevels;
    forall i, j | 0 <= i < j < |z| ensures z[i] < z[j] {
      assert forall k :: 0 <= k < |z| - 1 ==> z[k] < z[k + 1];
      AscendingStep(z, i, j);
    }
  }

  lemma {:induction false} AscendingStep(xs: seq<real>, i: int, j: int)
    requires forall k :: 0 <= k < |xs| - 1 ==> xs[k] < xs[k + 1]
    requires 0 <= i < j < |xs|
    ensures xs[i] < xs[j]
    decreases j - i
  {
    if j > i + 1 {
      AscendingStep(xs, i, j - 1);
    }
  }

  /** Putting the head of an ascending list in front of ascending members of its tail keeps it ascending. */
  lemma ConsAscending(xs: seq<real>, rest: seq<real>)
    requires |xs| > 0
    requires forall x :: x in rest ==> x in xs[1..]
    requires StrictlyAscending(xs[1..]) ==> StrictlyAscending(rest)
    ensures StrictlyAscending(xs) ==> StrictlyAscending([xs[0]] + rest)
  {
    if StrictlyAscending(xs) {
      var ys := [xs[0]] + rest;
      forall i, j | 0 <= i < j < |ys| ensures ys[i] < ys[j] {
        if i == 0 {
          assert ys[j] in rest;
          var k :| 0 <= k < |xs[1..]| && xs[1..][k] == ys[j];
          assert xs[0] < xs[k + 1];
        } else {
          assert ys[i] == rest[i - 1] && ys[j] == rest[j - 1];
        }
      }
    }
  }

  /** On a strictly ascending list, `indexOf` finds the index a value was read from. */
  lemma IndexOfAscending(xs: seq<real>, i: int)
    requires StrictlyAscending(xs) && 0 <= i < |xs|
    ensures IndexOf(xs, xs[i]) == i
  {
    var k := IndexOf(xs, xs[i]);
    assert xs[k] == xs[i];
  }

  /** `Array.prototype.indexOf`: the first index holding x, or -1. */
  function IndexOf(xs: seq<real>, x: real): (r: int)
    ensures r == -1 <==> x !in xs
    ensures r != -1 ==> 0 <= r < |xs| && xs[r] == x && x !in xs[..r]
  {
    if |xs| == 0 then -1
    else if xs[0] == x then 0
    else
      var k := IndexOf(xs[1..], x);
      assert k != -1 ==> xs[..k + 1] == [xs[0]] + xs[1..][..k];
      if k == -1 then -1 else k + 1
  }

  /** `filter(level => level > scale)`, order kept. */
  function Above(xs: seq<real>, s: real): (r: seq<real>)
    ensures forall x :: x in r <==> x in xs && x > s
    ensures StrictlyAscending(xs) ==> StrictlyAscending(r)
  {
    if |xs| == 0 then []
    else
      var rest := Above(xs[1..], s);
      if xs[0] > s then
        ConsAscending(xs, rest);
        [xs[0]] + rest
      else rest
  }

  /** `filter(level => level < scale)`, order kept. */
  function Below(xs: seq<real>, s: real): (r: seq<real>)
    ensures forall x :: x in r <==> x in xs && x < s
    ensures StrictlyAscending(xs) ==> StrictlyAscending(r)
  {
    if |xs| == 0 then []
    else
      var rest := Below(xs[1..], s);
      if xs[0] < s then
        ConsAscending(xs, rest);
        [xs[0]] + rest
      else rest
  }

  /**
   * The left fold of `(prev, curr) => |curr - s| < |prev - s| ? curr : prev`
   * starting from `prev`: a value of the list nearest to s, the earliest
   * one on ties.
   */
  function ClosestFrom(prev: real, rest: seq<real>, s: real): (r: real)
    ensures r == prev || r in rest
    ensures Abs(r - s) <= Abs(prev - s)
    ensures forall x :: x in rest ==> Abs(r - s) <= Abs(x - s)
    decreases |rest|
  {
    if |rest| == 0 then prev
    else
      var next := if Abs(rest[0] - s) < Abs(prev - s) then rest[0] else prev;
      var r := ClosestFrom(next, rest[1..], s);
      assert forall x :: x in rest ==> x == rest[0] || x in rest[1..];
      r
  }

  /** `candidates.reduce(...)` without an initial value: the nearest candidate. */
  function ReduceClosest(candidates: seq<real>, s: real): (r: real)
    requires |candidates| > 0
    ensures r in candidates
    ensures forall x :: x in candidates ==> Abs(r - s) <= Abs(x - s)
  {
    assert forall x :: x in candidates ==> x == candidates[0] || x in candidates[1..];
    ClosestFrom(candidates[0], candidates[1..], s)
  }

  /**
   * `matchZoomScale`: on the ladder, step to the neighbouring level (staying
   * put at either end); off the ladder, the nearest level in the zoom
   * direction, or the extreme level when there is none.
   */
  function MatchZoomScale(scale: real, isZoomIn: bool): real
  {
    var index := IndexOf(ZoomLevels, scale);
    if index != -1 then
      if isZoomIn then (if index < |ZoomLevels| - 1 then ZoomLevels[index + 1] else scale)
      else (if index > 0 then ZoomLevels[index - 1] else scale)
    else
      var candidates := if isZoomIn then Above(ZoomLevels, scale) else Below(ZoomLevels, scale);
      if |candidates| == 0 then
        (if isZoomIn then ZoomLevels[|ZoomLevels| - 1] else ZoomLevels[0])
      else ReduceClosest(candidates, scale)
  }

  /**
   * Zooming in lands on the smallest level above the current scale; at or
   * beyond the largest level it lands on that largest level (16).
   */
  lemma ZoomInNextLevel(scale: real)
    ensures MatchZoomScale(scale, true) in ZoomLevels
    ensures scale < 16.0 ==>
              MatchZoomScale(scale, true) > scale &&
              forall l :: l in ZoomLevels && l > scale ==> MatchZoomScale(scale, true) <= l
    ensures scale >= 16.0 ==> MatchZoomScale(scale, true) == 16.0
  {
    LadderAscending();
    var z := ZoomLevels;
    var r := MatchZoomScale(scale, true);
    var index := IndexOf(z, scale);
    if index != -1 {
      if index < |z| - 1 {
        assert r == z[index + 1];
        forall l | l in z && l > scale ensures r <= l {
          var j :| 0 <= j < |z| && z[j] == l;
          assert index < j;
        }
      }
    } else {
      var candidates := Above(z, scale);
      if |candidates| == 0 {
        assert z[|z| - 1] !in candidates;
      } else {
        assert r == ReduceClosest(candidates, scale);
        forall l | l in z && l > scale ensures r <= l {
          assert l in candidates;
        }
      }
    }
  }

  /**
   * Zooming out lands on the largest level below the current scale; at or
   * below the smallest level it lands on that smallest level (0.02).
   */
  lemma ZoomOutPreviousLevel(scale: real)
    ensures MatchZoomScale(scale, false) in ZoomLevels
    ensures scale > 0.02 ==>
              MatchZoomScale(scale, false) < scale &&
              forall l :: l in ZoomLevels && l < scale ==> l <= MatchZoomScale(scale, false)
    ensures scale <= 0.02 ==> MatchZoomScale(scale, false) == 0.02
  {
    var index := IndexOf(ZoomLevels, scale);
    if index != -1 {
      LevelZoomOut(index);
    } else {
      OffLadderZoomOut(scale);
    }
  }

  /** `ZoomOutPreviousLevel` from a level of the ladder. */
  lemma LevelZoomOut(i: int)
    requires 0 <= i < |ZoomLevels|
    ensures MatchZoomScale(ZoomLevels[i], false) in ZoomLevels
    ensures i > 0 ==> (MatchZoomScale(ZoomLevels[i], false) < ZoomLevels[i] &&
              forall l :: l in ZoomLevels && l < ZoomLevels[i] ==> l <= MatchZoomScale(ZoomLevels[i], false))
    ensures i == 0 ==> MatchZoomScale(ZoomLevels[i], false) == ZoomLevels[0]
  {
    OnLadder(i);
    LadderAscending();
    var z := ZoomLevels;
    if i > 0 {
      forall l | l in z && l < z[i] ensures l <= z[i - 1] {
        var j :| 0 <= j < |z| && z[j] == l;
        assert j < i;
        if j < i - 1 {
          assert z[j] < z[i - 1];
        }
      }
    }
  }

  /** `ZoomOutPreviousLevel` from a scale off the ladder. */
  lemma OffLadderZoomOut(scale: real)
    requires scale !in ZoomLevels
    ensures MatchZoomScale(scale, false) in ZoomLevels
    ensures scale > 0.02 ==>
              MatchZoomScale(scale, false) < scale &&
              forall l :: l in ZoomLevels && l < scale ==> l <= MatchZoomScale(scale, false)
    ensures scale <= 0.02 ==> MatchZoomScale(scale, false) == 0.02
  {
    var z := ZoomLevels;
    var candidates := Below(z, scale);
    assert IndexOf(z, scale) == -1;
    if |candidates| == 0 {
      assert z[0] !in candidates;
    } else {
      var r := ReduceClosest(candidates, scale);
      assert MatchZoomScale(scale, false) == r;
      forall l | l in z && l < scale ensures l <= r {
        assert l in candidates;
      }
    }
  }

  /** Zooming in from a level below the top and then out again returns to that level. */
  lemma ZoomInThenOut(i: int)
    requires 0 <= i < |ZoomLevels| - 1
    ensures MatchZoomScale(MatchZoomScale(ZoomLevels[i], true), false) == ZoomLevels[i]
  {
    OnLadder(i);
    OnLadder(i + 1);
  }

  /** From a level of the ladder, zooming steps to the neighbouring level, staying put at either end. */
  lemma OnLadder(i: int)
    requires 0 <= i < |ZoomLevels|
    ensures MatchZoomScale(ZoomLevels[i], true) == if i < |ZoomLevels| - 1 then ZoomLevels[i + 1] else ZoomLevels[i]
    ensures MatchZoomScale(ZoomLevels[i], false) == if i > 0 then ZoomLevels[i - 1] else ZoomLevels[i]
  {
    LadderAscending();
    IndexOfAscending(ZoomLevels, i);
  }
}
