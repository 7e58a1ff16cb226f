/// The viewport of the canvas (`ViewportManager`): a scale and a screen
/// offset, clamped zoom about an anchor point, pan, reset, fit-to-content,
/// the screen <-> world mapping, scale limits and state-change listeners.
///
/// A world point p is drawn at screen point p * scale + offset.
module Viewport {
  import opened Types

  /** The visible world rectangle and the scale (`ViewportState`). */
  datatype ViewportState = ViewportState(scale: real, x: real, y: real, width: real, height: real)

  /** What the viewport store holds: the state and the row-major 3x3 world-to-screen matrix. */
  datatype StoreState = StoreState(state: ViewportState, transformMatrix: seq<real>)

  /**
   * The store's initial value. Its matrix literal is laid out as a 2x3
   * `[a, b, c, d, e, f]` identity followed by `0, 0, 1`, not in the
   * row-major layout `notifyStateChange` publishes.
   */
  const InitialStore: StoreState :=
    StoreState(ViewportState(1.0, 0.0, 0.0, 0.0, 0.0), [1.0, 0.0, 0.0, 1.0, 0.0, 0.0, 0.0, 0.0, 1.0])

  /** A registered listener, known only by its identity. */
  datatype Listener = Listener(id: nat)

  /** `Math.pow`, supplied by the host. */
  type Pow = (real, real) -> real

  /** The only property of `Math.pow` the zoom step relies on: a base of at least 1 keeps the power at least 1. */
  ghost predicate PowAtLeastOne(pow: Pow)
  {
    forall b, e :: b >= 1.0 && e >= 0.0 ==> pow(b, e) >= 1.0
  }

  function Clamp(lo: real, hi: real, x: real): real
  {
    Max(lo, Min(hi, x))
  }

  /** The zoom step base: 1.04, growing by 0.006 per unit of scale above 1. */
  function StepBase(scale: real): (r: real)
    ensures r >= 1.04
  {
    Max(1.04, 1.04 + (scale - 1.0) * 0.006)
  }

  /** The factor `zoomDelta` multiplies the scale by: the power for zoom-in, its reciprocal for zoom-out. */
  function ScaleFactor(scale: real, delta: real, pow: Pow): (r: real)
    requires PowAtLeastOne(pow)
    ensures delta > 0.0 ==> r >= 1.0
    ensures delta <= 0.0 ==> 0.0 < r <= 1.0
  {
    var p := pow(StepBase(scale), Abs(delta));
    if delta > 0.0 then p else 1.0 / p
  }

  /** The scale `zoomDelta` aims for: the scaled value, clamped to the limits. */
  function ZoomTarget(lo: real, hi: real, scale: real, delta: real, pow: Pow): (r: real)
    requires PowAtLeastOne(pow) && 0.0 < lo <= hi
    ensures lo <= r <= hi
  {
    Clamp(lo, hi, scale * ScaleFactor(scale, delta, pow))
  }

  /**
   * The scale of `fitToContent`: the largest that fits the content into the
   * canvas less a 50-pixel padding on every side, at most the maximum, and
   * then at least the minimum.
   */
  function FitScale(lo: real, hi: real, canvasWidth: real, canvasHeight: real, content: Box): (r: real)
    requires content.width != 0.0 && content.height != 0.0
    ensures r >= lo
    ensures lo <= hi ==> r <= hi
  {
    var padding := 50.0;
    var scaleX := (canvasWidth - padding * 2.0) / content.width;
    var scaleY := (canvasHeight - padding * 2.0) / content.height;
    Max(lo, Min(Min(scaleX, scaleY), hi))
  }

  /** The offset of `fitToContent` along one axis: half the room left by the scaled content, less its start. */
  function CentringOffset(size: real, x: real, extent: real, s: real): real
  {
    (size - extent * s) / 2.0 - x * s
  }

  /** The row-major 3x3 matrix `[s, 0, ox, 0, s, oy, 0, 0, 1]` applied to (x, y, 1). */
  function ApplyRowMajor(m: seq<real>, x: real, y: real): Vec2
    requires |m| == 9
  {
    Vec2(m[0] * x + m[1] * y + m[2], m[3] * x + m[4] * y + m[5])
  }

  /**
   * Read in the published row-major layout, the initial matrix sends every
   * world point (x, y) to (x, x): it collapses the plane onto the diagonal,
   * whereas the initial viewport (scale 1, no offset) draws (x, y) at (x, y).
   */
  lemma InitialMatrixCollapses(wx: real, wy: real)
    ensures ApplyRowMajor(InitialStore.transformMatrix, wx, wy) == Vec2(wx, wx)
    ensures ApplyRowMajor(InitialStore.transformMatrix, wx, wy) == Vec2(wx, wy) <==> wx == wy
  {
  }

  /** The drawing surface; its size is in device pixels. */
  class Canvas {
    var width: real
    var height: real

    constructor (width: real, height: real)
      ensures this.width == width && this.height == height
    {
      this.width := width;
      this.height := height;
    }
  }

  class ViewportManager {
    const canvas: Canvas
    /** `devicePixelRatio` of the window the canvas is in. */
    const devicePixelRatio: real
    var scale: real
    var offsetX: real
    var offsetY: real
    var minScale: real
    var maxScale: real
    var listeners: seq<Listener>
    /** The viewport store (`setViewportState`). */
    var store: StoreState
    /** Every call made to a listener, in order, with the state it received. */
    var delivered: seq<(Listener, ViewportState)>

    ghost predicate Valid()
      reads this
    {
      scale > 0.0 && 0.01 <= minScale <= maxScale && devicePixelRatio > 0.0 && store.state.scale > 0.0
    }

    constructor (canvas: Canvas, devicePixelRatio: real)
      requires devicePixelRatio > 0.0
      ensures Valid()
      ensures this.canvas == canvas && this.devicePixelRatio == devicePixelRatio
      ensures scale == 1.0 && offsetX == 0.0 && offsetY == 0.0
      ensures minScale == 0.02 && maxScale == 16.0
      ensures listeners == [] && store == InitialStore && delivered == []
    {
      this.canvas := canvas;
      this.devicePixelRatio := devicePixelRatio;
      scale := 1.0;
      offsetX := 0.0;
      offsetY := 0.0;
      minScale := 0.02;
      maxScale := 16.0;
      listeners := [];
      store := InitialStore;
      delivered := [];
    }

    /** `screenToWorld`. */
    function ScreenToWorld(sx: real, sy: real): (r: Vec2)
      requires Valid()
      reads this
      ensures r.x * scale + offsetX == sx && r.y * scale + offsetY == sy
    {
      Vec2((sx - offsetX) / scale, (sy - offsetY) / scale)
    }

    /** `worldToScreen`. */
    function WorldToScreen(wx: real, wy: real): (r: Vec2)
      reads this
    {
      Vec2(wx * scale + offsetX, wy * scale + offsetY)
    }

    /**
     * `getState`: the world rectangle the canvas shows. Its corners are the
     * world points of the canvas's top-left and bottom-right corners, the
     * canvas size being taken in CSS pixels.
     */
    function GetState(): ViewportState
      requires Valid()
      reads this, canvas
    {
      ViewportState(scale, -offsetX / scale, -offsetY / scale,
                    (canvas.width / devicePixelRatio) / scale, (canvas.height / devicePixelRatio) / scale)
    }

    /** The matrix `notifyStateChange` publishes; it maps world points to screen points. */
    function TransformMatrix(): (r: seq<real>)
      reads this
      ensures |r| == 9
    {
      [scale, 0.0, offsetX, 0.0, scale, offsetY, 0.0, 0.0, 1.0]
    }

    /** `getScaleLimits`. */
    function GetScaleLimits(): (r: (real, real))
      reads this
      ensures r.0 == minScale && r.1 == maxScale
    {
      (minScale, maxScale)
    }

    /**
     * What `getState` reports is the world rectangle the canvas shows: its
     * corners are the world points of the canvas's top-left and
     * bottom-right corners, the canvas size taken in CSS pixels.
     */
    lemma StateIsVisibleRect()
      requires Valid()
      ensures GetState().scale == scale
      ensures Vec2(GetState().x, GetState().y) == ScreenToWorld(0.0, 0.0)
      ensures Vec2(GetState().x + GetState().width, GetState().y + GetState().height)
              == ScreenToWorld(canvas.width / devicePixelRatio, canvas.height / devicePixelRatio)
    {
    }

    /** The published matrix maps every world point to its screen point. */
    lemma MatrixIsWorldToScreen(wx: real, wy: real)
      ensures ApplyRowMajor(TransformMatrix(), wx, wy) == WorldToScreen(wx, wy)
    {
      var m := TransformMatrix();
      assert m[0] == scale && m[1] == 0.0 && m[2] == offsetX;
      assert m[3] == 0.0 && m[4] == scale && m[5] == offsetY;
    }

    /** `screenToWorld` and `worldToScreen` are inverse to each other, since the scale is positive. */
    lemma ScreenWorldRoundTrip(x: real, y: real)
      requires Valid()
      ensures WorldToScreen(ScreenToWorld(x, y).x, ScreenToWorld(x, y).y) == Vec2(x, y)
      ensures ScreenToWorld(WorldToScreen(x, y).x, WorldToScreen(x, y).y) == Vec2(x, y)
    {
    }

    /** Within the limits, neither zooming in nor out is possible only when the limits coincide. */
    lemma ZoomBlockedOnlyAtFixedScale()
      requires minScale <= scale <= maxScale
      ensures !CanZoomIn() && !CanZoomOut() <==> minScale == maxScale
    {
    }

    /** After `fitToContent`, the middle of the content is drawn at the middle of the canvas. */
    lemma FitCentres(canvasWidth: real, canvasHeight: real, content: Box)
      requires offsetX == CentringOffset(canvasWidth, content.x, content.width, scale)
      requires offsetY == CentringOffset(canvasHeight, content.y, content.height, scale)
      ensures WorldToScreen(content.x + content.width / 2.0, content.y + content.height / 2.0)
              == Vec2(canvasWidth / 2.0, canvasHeight / 2.0)
    {
      var cx, cy := content.x + content.width / 2.0, content.y + content.height / 2.0;
      Centred(canvasWidth, content.x, content.width, scale);
      Centred(canvasHeight, content.y, content.height, scale);
      assert WorldToScreen(cx, cy) == Vec2(cx * scale + offsetX, cy * scale + offsetY);
    }

    /** `canZoomIn`. */
    predicate CanZoomIn()
      reads this
    {
      scale < maxScale
    }

    /** `canZoomOut`. */
    predicate CanZoomOut()
      reads this
    {
      scale > minScale
    }

    /** `notifyStateChange`: write the store, then call every listener in order with the same state. */
    method NotifyStateChange()
      requires Valid()
      modifies this
      ensures Valid()
      ensures store == StoreState(old(GetState()), old(TransformMatrix()))
      ensures delivered == old(delivered) + Deliveries(listeners, old(GetState()))
      ensures scale == old(scale) && offsetX == old(offsetX) && offsetY == old(offsetY)
      ensures minScale == old(minScale) && maxScale == old(maxScale) && listeners == old(listeners)
    {
      var state := GetState();
      store := StoreState(state, TransformMatrix());
      for i := 0 to |listeners|
        invariant scale == old(scale) && offsetX == old(offsetX) && offsetY == old(offsetY)
        invariant minScale == old(minScale) && maxScale == old(maxScale) && listeners == old(listeners)
        invariant Valid() && state == GetState()
        invariant delivered == old(delivered) + Deliveries(listeners[..i], state)
        invariant store == StoreState(state, old(TransformMatrix()))
      {
        delivered := delivered + [(listeners[i], state)];
      }
    }

    /** The store holds the current state and every listener was called once more, in order, with it. */
    ghost predicate Notified(before: seq<(Listener, ViewportState)>)
      requires Valid()
      reads this, canvas
    {
      store == StoreState(GetState(), TransformMatrix()) && delivered == before + Deliveries(listeners, GetState())
    }

    /**
     * The step `zoom` and `zoomDelta` share: set the scale and move the
     * offset so that the anchor still shows the same world point, then
     * notify.
     */
    method ScaleAbout(newScale: real, centerX: real, centerY: real)
      requires Valid() && newScale > 0.0
      modifies this
      ensures Valid() && scale == newScale
      ensures ScreenToWorld(centerX, centerY) == old(ScreenToWorld(centerX, centerY))
      ensures minScale == old(minScale) && maxScale == old(maxScale) && listeners == old(listeners)
      ensures Notified(old(delivered))
    {
      var oldScale := scale;
      var worldX := (centerX - offsetX) / oldScale;
      var worldY := (centerY - offsetY) / oldScale;
      scale := newScale;
      offsetX := centerX - worldX * scale;
      offsetY := centerY - worldY * scale;
      AnchorKept(centerX, worldX, newScale);
      AnchorKept(centerY, worldY, newScale);
      assert ScreenToWorld(centerX, centerY) == Vec2(worldX, worldY);
      NotifyStateChange();
      assert ScreenToWorld(centerX, centerY) == Vec2(worldX, worldY);
    }

    /**
     * `zoomDelta`: multiply the scale by the step factor and clamp it to the
     * limits, keeping the anchor's world point. A zero delta or a change
     * below 0.001 does nothing and notifies no one.
     */
    method ZoomDelta(delta: real, centerX: real, centerY: real, pow: Pow)
      requires Valid() && PowAtLeastOne(pow)
      modifies this
      ensures Valid()
      ensures minScale == old(minScale) && maxScale == old(maxScale) && listeners == old(listeners)
      ensures var target := ZoomTarget(minScale, maxScale, old(scale), delta, pow);
              if delta == 0.0 || Abs(target - old(scale)) < 0.001 then
                scale == old(scale) && offsetX == old(offsetX) && offsetY == old(offsetY)
                && store == old(store) && delivered == old(delivered)
              else
                scale == target && minScale <= scale <= maxScale
                && ScreenToWorld(centerX, centerY) == old(ScreenToWorld(centerX, centerY))
                && Notified(old(delivered))
    {
      if delta == 0.0 {
        return;
      }
      var newScale := ZoomTarget(minScale, maxScale, scale, delta, pow);
      if Abs(newScale - scale) < 0.001 {
        return;
      }
      ScaleAbout(newScale, centerX, centerY);
    }

    /**
     * `zoom`: set the clamped scale about an anchor; a target that clamps to
     * the current scale does nothing.
     */
    method Zoom(wanted: real, centerX: real, centerY: real)
      requires Valid()
      modifies this
      ensures Valid()
      ensures minScale == old(minScale) && maxScale == old(maxScale) && listeners == old(listeners)
      ensures if Clamp(minScale, maxScale, wanted) == old(scale) then
                scale == old(scale) && offsetX == old(offsetX) && offsetY == old(offsetY)
                && store == old(store) && delivered == old(delivered)
              else
                scale == Clamp(minScale, maxScale, wanted) && minScale <= scale <= maxScale
                && ScreenToWorld(centerX, centerY) == old(ScreenToWorld(centerX, centerY))
                && Notified(old(delivered))
    {
      var newScale := Max(minScale, Min(maxScale, wanted));
      if newScale == scale {
        return;
      }
      ScaleAbout(newScale, centerX, centerY);
    }

    /** `pan`: shift the offset; a zero shift does nothing and notifies no one. */
    method Pan(deltaX: real, deltaY: real)
      requires Valid()
      modifies this
      ensures Valid()
      ensures scale == old(scale) && minScale == old(minScale) && maxScale == old(maxScale)
      ensures listeners == old(listeners)
      ensures offsetX == old(offsetX) + deltaX && offsetY == old(offsetY) + deltaY
      ensures if deltaX == 0.0 && deltaY == 0.0 then store == old(store) && delivered == old(delivered)
              else store == StoreState(GetState(), TransformMatrix())
                   && delivered == old(delivered) + Deliveries(listeners, GetState())
    {
      if deltaX == 0.0 && deltaY == 0.0 {
        return;
      }
      offsetX := offsetX + deltaX;
      offsetY := offsetY + deltaY;
      NotifyStateChange();
    }

    /** `reset`: scale 1 and no offset, whatever the scale limits are. */
    method Reset()
      requires Valid()
      modifies this
      ensures Valid()
      ensures scale == 1.0 && offsetX == 0.0 && offsetY == 0.0
      ensures minScale == old(minScale) && maxScale == old(maxScale) && listeners == old(listeners)
      ensures store == StoreState(GetState(), TransformMatrix())
      ensures delivered == old(delivered) + Deliveries(listeners, GetState())
    {
      scale := 1.0;
      offsetX := 0.0;
      offsetY := 0.0;
      NotifyStateChange();
    }

    /**
     * `fitToContent`: scale the content into the canvas less a 50-pixel
     * margin on each side, within the limits, and centre it. Content of zero
     * width or height leaves the viewport alone.
     */
    method FitToContent(canvasWidth: real, canvasHeight: real, content: Box)
      requires Valid()
      modifies this
      ensures Valid()
      ensures minScale == old(minScale) && maxScale == old(maxScale) && listeners == old(listeners)
      ensures if content.width == 0.0 || content.height == 0.0 then
                scale == old(scale) && offsetX == old(offsetX) && offsetY == old(offsetY)
                && store == old(store) && delivered == old(delivered)
              else
                scale == FitScale(minScale, maxScale, canvasWidth, canvasHeight, content)
                && minScale <= scale
                && offsetX == CentringOffset(canvasWidth, content.x, content.width, scale)
                && offsetY == CentringOffset(canvasHeight, content.y, content.height, scale)
                && Notified(old(delivered))
    {
      if content.width == 0.0 || content.height == 0.0 {
        return;
      }
      scale := FitScale(minScale, maxScale, canvasWidth, canvasHeight, content);
      offsetX := CentringOffset(canvasWidth, content.x, content.width, scale);
      offsetY := CentringOffset(canvasHeight, content.y, content.height, scale);
      NotifyStateChange();
    }

    /**
     * `setScaleLimits`: the minimum is at least 0.01, the maximum at least
     * the minimum, and the scale is pulled into the new range.
     */
    method SetScaleLimits(newMin: real, newMax: real)
      requires Valid()
      modifies this
      ensures Valid()
      ensures minScale == Max(0.01, newMin) && maxScale == Max(minScale, newMax)
      ensures scale == Clamp(minScale, maxScale, old(scale))
      ensures minScale <= scale <= maxScale
      ensures old(minScale <= scale <= maxScale) && minScale <= old(scale) <= maxScale ==> scale == old(scale)
      ensures offsetX == old(offsetX) && offsetY == old(offsetY) && listeners == old(listeners)
      ensures store == StoreState(GetState(), TransformMatrix())
      ensures delivered == old(delivered) + Deliveries(listeners, GetState())
    {
      minScale := Max(0.01, newMin);
      maxScale := Max(minScale, newMax);
      scale := Max(minScale, Min(maxScale, scale));
      NotifyStateChange();
    }

    /** `addStateChangeListener`. */
    method AddStateChangeListener(listener: Listener)
      modifies this
      ensures listeners == old(listeners) + [listener]
      ensures scale == old(scale) && offsetX == old(offsetX) && offsetY == old(offsetY)
      ensures minScale == old(minScale) && maxScale == old(maxScale)
      ensures store == old(store) && delivered == old(delivered)
    {
      listeners := listeners + [listener];
    }

    /** `removeStateChangeListener`: drop the first registration of the listener, if any. */
    method RemoveStateChangeListener(listener: Listener)
      modifies this
      ensures listeners == RemoveFirst(old(listeners), listener)
      ensures scale == old(scale) && offsetX == old(offsetX) && offsetY == old(offsetY)
      ensures minScale == old(minScale) && maxScale == old(maxScale)
      ensures store == old(store) && delivered == old(delivered)
    {
      var index := FirstIndex(listeners, listener);
      if index > -1 {
        listeners := listeners[..index] + listeners[index + 1..];
      }
    }
  }

  /** `Array.prototype.indexOf`: the first index holding x, or -1. */
  function FirstIndex(xs: seq<Listener>, x: Listener): (r: int)
    ensures r == -1 <==> x !in xs
    ensures r != -1 ==> 0 <= r < |xs| && xs[r] == x && x !in xs[..r]
  {
    if |xs| == 0 then -1
    else if xs[0] == x then 0
    else
      var k := FirstIndex(xs[1..], x);
      assert k != -1 ==> xs[..k + 1] == [xs[0]] + xs[1..][..k];
      if k == -1 then -1 else k + 1
  }

  /** The calls made to each listener in turn, each with the same state. */
  function Deliveries(ls: seq<Listener>, st: ViewportState): (r: seq<(Listener, ViewportState)>)
    ensures |r| == |ls| && forall i :: 0 <= i < |ls| ==> r[i] == (ls[i], st)
  {
    seq(|ls|, i requires 0 <= i < |ls| => (ls[i], st))
  }

  /** The list without the first occurrence of x. */
  function RemoveFirst(xs: seq<Listener>, x: Listener): (r: seq<Listener>)
  {
    var i := FirstIndex(xs, x);
    if i == -1 then xs else xs[..i] + xs[i + 1..]
  }

  // ---------------------------------------------------------------------
  // Properties

  /** The offset `c - world * s` shows the world coordinate `world` at screen coordinate c. */
  lemma AnchorKept(c: real, world: real, s: real)
    requires s > 0.0
    ensures (c - (c - world * s)) / s == world
  {
  }

  /** The fit offset puts the middle of the content at the middle of the canvas. */
  lemma Centred(size: real, x: real, extent: real, s: real)
    ensures (x + extent / 2.0) * s + CentringOffset(size, x, extent, s) == size / 2.0
  {
  }

  /**
   * Removing a registered listener drops exactly one registration: the
   * list shrinks by one, loses one occurrence of it, and keeps every other
   * listener in order. An unregistered listener changes nothing.
   */
  lemma RemoveFirstEffect(xs: seq<Listener>, x: Listener)
    ensures x !in xs ==> RemoveFirst(xs, x) == xs
    ensures x in xs ==> |RemoveFirst(xs, x)| == |xs| - 1
    ensures multiset(RemoveFirst(xs, x)) == multiset(xs) - multiset{x}
  {
    var i := FirstIndex(xs, x);
    if i != -1 {
      assert xs == xs[..i] + [x] + xs[i + 1..];
      calc {
        multiset(xs);
        multiset(xs[..i]) + multiset{x} + multiset(xs[i + 1..]);
      }
    }
  }

  /** Listeners that register and then unregister leave the list as it was. */
  lemma AddThenRemove(xs: seq<Listener>, x: Listener)
    requires x !in xs
    ensures RemoveFirst(xs + [x], x) == xs
  {
    var ys := xs + [x];
    assert x !in ys[..|xs|] by { assert ys[..|xs|] == xs; }
    var i := FirstIndex(ys, x);
    assert i == |xs|;
    assert ys[..i] == xs;
  }
}
