/// The 2D affine transform (`src/utils/transform.ts`): the pure matrix
/// algebra behind `point`, `translate`, `scale`, `skew`, `multiply` and
/// `invert`, the mutable `Transform` object with its inverse and
/// decomposition caches, and the `TransformUtils` helpers.
module Transforms {
  import opened Types

  /** `point`: maps p through m. */
  function Apply(m: Matrix, p: Vec2): Vec2
  {
    Vec2(m.a * p.x + m.c * p.y + m.e, m.b * p.x + m.d * p.y + m.f)
  }

  /** The coefficients `multiply` writes: t followed by m in the column convention, i.e. t * m. */
  function Compose(t: Matrix, m: Matrix): Matrix
  {
    Matrix(t.a * m.a + t.c * m.b,
           t.b * m.a + t.d * m.b,
           t.a * m.c + t.c * m.d,
           t.b * m.c + t.d * m.d,
           t.a * m.e + t.c * m.f + t.e,
           t.b * m.e + t.d * m.f + t.f)
  }

  /** The coefficients `translate(x, y)` writes. */
  function Translated(t: Matrix, x: real, y: real): Matrix
  {
    t.(e := t.e + (t.a * x + t.c * y), f := t.f + (t.b * x + t.d * y))
  }

  /** The coefficients `scale(sx, sy)` writes. */
  function Scaled(t: Matrix, sx: real, sy: real): Matrix
  {
    t.(a := t.a * sx, b := t.b * sx, c := t.c * sy, d := t.d * sy)
  }

  /** The coefficients `skew(sx, sy)` writes. */
  function Skewed(t: Matrix, sx: real, sy: real): Matrix
  {
    t.(a := t.a + t.c * sy, b := t.b + t.d * sy, c := t.c + t.a * sx, d := t.d + t.b * sx)
  }

  function Det(m: Matrix): real
  {
    m.a * m.d - m.b * m.c
  }

  /** The coefficients `invert` computes with d = 1 / (a*d - b*c). */
  function Inverse(m: Matrix): Matrix
    requires Det(m) != 0.0
  {
    var k := 1.0 / Det(m);
    Matrix(m.d * k, -m.b * k, -m.c * k, m.a * k,
           k * (m.c * m.f - m.d * m.e), k * (m.b * m.e - m.a * m.f))
  }

  /** One coordinate of `multiply` followed by `point`, on plain scalars. */
  lemma ComposeCoord(p: real, q: real, ma: real, mb: real, mc: real, md: real, me: real, mf: real,
                     x: real, y: real, t: real)
    ensures (p * ma + q * mb) * x + (p * mc + q * md) * y + (p * me + q * mf + t)
         == p * (ma * x + mc * y + me) + q * (mb * x + md * y + mf) + t
  {
  }

  /** The linear part of `ComposeCoord`. */
  lemma LinearCoord(p: real, q: real, ma: real, mb: real, mc: real, md: real, x: real, y: real)
    ensures (p * ma + q * mb) * x + (p * mc + q * md) * y == p * (ma * x + mc * y) + q * (mb * x + md * y)
  {
  }

  /** `T.multiply(M).point(p) == T.point(M.point(p))`. */
  lemma ComposeApply(t: Matrix, m: Matrix, p: Vec2)
    ensures Apply(Compose(t, m), p) == Apply(t, Apply(m, p))
  {
    var qx := m.a * p.x + m.c * p.y + m.e;
    var qy := m.b * p.x + m.d * p.y + m.f;
    assert Apply(m, p) == Vec2(qx, qy);
    var c := Compose(t, m);
    assert Apply(c, p).x == t.a * qx + t.c * qy + t.e by {
      ComposeCoord(t.a, t.c, m.a, m.b, m.c, m.d, m.e, m.f, p.x, p.y, t.e);
    }
    assert Apply(c, p).y == t.b * qx + t.d * qy + t.f by {
      ComposeCoord(t.b, t.d, m.a, m.b, m.c, m.d, m.e, m.f, p.x, p.y, t.f);
    }
  }

  /** The identity is neutral on both sides of `multiply`. */
  lemma ComposeIdentity(t: Matrix)
    ensures Compose(t, Identity) == t && Compose(Identity, t) == t
  {
  }

  /** After `translate(x, y)`, `point(p)` is the old `point(p + (x, y))`, and a..d are kept. */
  lemma TranslatedApply(t: Matrix, x: real, y: real, p: Vec2)
    ensures Apply(Translated(t, x, y), p) == Apply(t, Vec2(p.x + x, p.y + y))
    ensures Translated(t, x, y).a == t.a && Translated(t, x, y).b == t.b
    ensures Translated(t, x, y).c == t.c && Translated(t, x, y).d == t.d
  {
    ComposeCoord(t.a, t.c, 1.0, 0.0, 0.0, 1.0, x, y, p.x, p.y, t.e);
    ComposeCoord(t.b, t.d, 1.0, 0.0, 0.0, 1.0, x, y, p.x, p.y, t.f);
  }

  /** After `scale(sx, sy)`, `point(p)` is the old `point((sx * p.x, sy * p.y))`. */
  lemma ScaledApply(t: Matrix, sx: real, sy: real, p: Vec2)
    ensures Apply(Scaled(t, sx, sy), p) == Apply(t, Vec2(sx * p.x, sy * p.y))
  {
    ComposeCoord(t.a, t.c, sx, 0.0, 0.0, sy, 0.0, 0.0, p.x, p.y, t.e);
    ComposeCoord(t.b, t.d, sx, 0.0, 0.0, sy, 0.0, 0.0, p.x, p.y, t.f);
  }

  /** After `skew(sx, sy)`, `point(p)` is the old `point((p.x + sx * p.y, sy * p.x + p.y))`. */
  lemma SkewedApply(t: Matrix, sx: real, sy: real, p: Vec2)
    ensures Apply(Skewed(t, sx, sy), p) == Apply(t, Vec2(p.x + sx * p.y, sy * p.x + p.y))
  {
    ComposeCoord(t.a, t.c, 1.0, sy, sx, 1.0, 0.0, 0.0, p.x, p.y, t.e);
    ComposeCoord(t.b, t.d, 1.0, sy, sx, 1.0, 0.0, 0.0, p.x, p.y, t.f);
  }

  /** The four coordinates of inverse-after-forward and forward-after-inverse, on plain scalars. */
  lemma InverseCoords(a: real, b: real, c: real, d: real, e: real, f: real, x: real, y: real, k: real)
    requires k * (a * d - b * c) == 1.0
    ensures d * k * (a * x + c * y + e) + (-c * k) * (b * x + d * y + f) + k * (c * f - d * e) == x
    ensures (-b * k) * (a * x + c * y + e) + a * k * (b * x + d * y + f) + k * (b * e - a * f) == y
    ensures a * (d * k * x + (-c * k) * y + k * (c * f - d * e))
          + c * ((-b * k) * x + a * k * y + k * (b * e - a * f)) + e == x
    ensures b * (d * k * x + (-c * k) * y + k * (c * f - d * e))
          + d * ((-b * k) * x + a * k * y + k * (b * e - a * f)) + f == y
  {
    assert d * k * (a * x + c * y + e) + (-c * k) * (b * x + d * y + f) + k * (c * f - d * e)
        == k * (a * d - b * c) * x;
    assert (-b * k) * (a * x + c * y + e) + a * k * (b * x + d * y + f) + k * (b * e - a * f)
        == k * (a * d - b * c) * y;
    assert a * (d * k * x + (-c * k) * y + k * (c * f - d * e))
          + c * ((-b * k) * x + a * k * y + k * (b * e - a * f)) + e
        == k * (a * d - b * c) * x + (1.0 - k * (a * d - b * c)) * e;
    assert b * (d * k * x + (-c * k) * y + k * (c * f - d * e))
          + d * ((-b * k) * x + a * k * y + k * (b * e - a * f)) + f
        == k * (a * d - b * c) * y + (1.0 - k * (a * d - b * c)) * f;
  }

  /** When a*d - b*c != 0 the inverse undoes the transform on both sides. */
  lemma InverseApply(m: Matrix, p: Vec2)
    requires Det(m) != 0.0
    ensures Apply(Inverse(m), Apply(m, p)) == p
    ensures Apply(m, Apply(Inverse(m), p)) == p
  {
    var k := 1.0 / Det(m);
    assert k * (m.a * m.d - m.b * m.c) == 1.0;
    InverseCoords(m.a, m.b, m.c, m.d, m.e, m.f, p.x, p.y, k);
  }

  /** The part of `decompose`'s result that needs no trigonometry. */
  datatype Decomposition = Decomposition(
    x: real, y: real, rotation: real, scaleX: real, scaleY: real, skewX: real, skewY: real)

  /**
   * A mutable transform. `m` is a value here: the source's array is copied by
   * the constructor and by `copy`, so no two transforms share it.
   */
  class Transform {
    var m: Matrix
    var decomposedCache: Option<Decomposition>
    var invertedCache: Option<Matrix>
    var isDirty: bool

    /** Both caches dropped and the dirty flag raised (`_invalidateCache`). */
    ghost predicate Invalidated()
      reads this
    {
      isDirty && decomposedCache.None? && invertedCache.None?
    }

    /** `new Transform(m)`: a copy of m, or the identity when no matrix is given. */
    constructor (init: Option<Matrix>)
      ensures m == (if init.Some? then init.value else Identity)
      ensures Invalidated()
    {
      m := if init.Some? then init.value else Identity;
      decomposedCache := None;
      invertedCache := None;
      isDirty := true;
    }

    /** `point`. */
    function Point(p: Vec2): Vec2
      reads this
    {
      Apply(m, p)
    }

    method InvalidateCache()
      modifies this
      ensures m == old(m) && Invalidated()
    {
      isDirty := true;
      decomposedCache := None;
      invertedCache := None;
    }

    /** `reset`: back to the identity. */
    method Reset()
      modifies this
      ensures m == Identity && Invalidated()
      ensures forall p :: Point(p) == p
    {
      m := Identity;
      InvalidateCache();
    }

    /** `copy`: a fresh transform with the same coefficients and no caches. */
    method Copy() returns (t: Transform)
      ensures fresh(t) && t.m == m && t.Invalidated()
    {
      t := new Transform(Some(m));
    }

    /** `copyInto`: overwrites the target's coefficients without invalidating its caches. */
    method CopyInto(tr: Transform)
      modifies tr`m
      ensures tr.m == m
    {
      tr.m := m;
    }

    /** `translate`. */
    method Translate(x: real, y: real)
      modifies this
      ensures m == Translated(old(m), x, y) && Invalidated()
      ensures forall p :: Point(p) == old(Apply(m, Vec2(p.x + x, p.y + y)))
      ensures m.a == old(m.a) && m.b == old(m.b) && m.c == old(m.c) && m.d == old(m.d)
    {
      m := m.(e := m.e + (m.a * x + m.c * y), f := m.f + (m.b * x + m.d * y));
      InvalidateCache();
      forall p ensures Point(p) == old(Apply(m, Vec2(p.x + x, p.y + y))) {
        TranslatedApply(old(m), x, y, p);
      }
    }

    /** `scale`. */
    method Scale(sx: real, sy: real)
      modifies this
      ensures m == Scaled(old(m), sx, sy) && Invalidated()
      ensures forall p :: Point(p) == old(Apply(m, Vec2(sx * p.x, sy * p.y)))
    {
      m := m.(a := m.a * sx, b := m.b * sx, c := m.c * sy, d := m.d * sy);
      InvalidateCache();
      forall p ensures Point(p) == old(Apply(m, Vec2(sx * p.x, sy * p.y))) {
        ScaledApply(old(m), sx, sy, p);
      }
    }

    /** `skew`. */
    method Skew(sx: real, sy: real)
      modifies this
      ensures m == Skewed(old(m), sx, sy) && Invalidated()
      ensures forall p :: Point(p) == old(Apply(m, Vec2(p.x + sx * p.y, sy * p.x + p.y)))
    {
      ghost var m0 := m;
      var m11 := m.a + m.c * sy;
      var m12 := m.b + m.d * sy;
      var m21 := m.c + m.a * sx;
      var m22 := m.d + m.b * sx;
      m := m.(a := m11, b := m12, c := m21, d := m22);
      assert m == Skewed(m0, sx, sy);
      InvalidateCache();
      forall p ensures Point(p) == Apply(m0, Vec2(p.x + sx * p.y, sy * p.x + p.y)) {
        SkewedApply(m0, sx, sy, p);
      }
    }

    /** `multiply(matrix)`: afterwards this maps p to the old this applied to matrix(p). */
    method Multiply(matrix: Transform)
      modifies this
      ensures m == Compose(old(m), old(matrix.m)) && Invalidated()
      ensures forall p :: Point(p) == Apply(old(m), Apply(old(matrix.m), p))
    {
      var n := matrix.m;
      ghost var m0 := m;
      m := Compose(m, n);
      InvalidateCache();
      forall p ensures Point(p) == Apply(m0, Apply(n, p)) {
        ComposeApply(m0, n, p);
      }
    }

    /**
     * `invert`: recomputes the cached inverse when there is none or the
     * dirty flag is up, and returns a fresh copy of the cache, so callers
     * cannot reach the cache itself.
     */
    method Invert() returns (t: Transform)
      requires Det(m) != 0.0
      modifies this`invertedCache
      ensures fresh(t) && t.Invalidated()
      ensures old(invertedCache.None? || isDirty) ==> t.m == Inverse(m)
      ensures old(invertedCache.Some? && !isDirty) ==> t.m == old(invertedCache.value)
      ensures invertedCache == Some(t.m)
    {
      if invertedCache.None? || isDirty {
        var k := 1.0 / (m.a * m.d - m.b * m.c);
        var m0 := m.d * k;
        var m1 := -m.b * k;
        var m2 := -m.c * k;
        var m3 := m.a * k;
        var m4 := k * (m.c * m.f - m.d * m.e);
        var m5 := k * (m.b * m.e - m.a * m.f);
        invertedCache := Some(Matrix(m0, m1, m2, m3, m4, m5));
      }
      t := new Transform(Some(invertedCache.value));
    }

    /**
     * `decompose`, with the trigonometric parts (rotation, scales, skews)
     * supplied by the caller: only the translation and the cache discipline
     * are modelled. It is the only operation that lowers the dirty flag.
     */
    method Decompose(trig: Decomposition) returns (r: Decomposition)
      modifies this`decomposedCache, this`isDirty
      ensures old(decomposedCache.None? || isDirty) ==> r == trig.(x := m.e, y := m.f)
      ensures old(decomposedCache.Some? && !isDirty) ==> r == old(decomposedCache.value)
      ensures decomposedCache == Some(r) && !isDirty
    {
      if decomposedCache.None? || isDirty {
        decomposedCache := Some(trig.(x := m.e, y := m.f));
        isDirty := false;
      }
      r := decomposedCache.value;
    }
  }

  /** A transform that has been invalidated and then inverted answers with the true inverse. */
  method InvertAfterMutation(t: Transform, p: Vec2) returns (q: Vec2)
    requires Det(t.m) != 0.0 && t.isDirty
    modifies t`invertedCache
    ensures q == p
  {
    var inv := t.Invert();
    q := inv.Point(t.Point(p));
    InverseApply(t.m, p);
  }

  /** `TransformUtils.createTranslation`: the identity translated by (x, y). */
  function CreateTranslation(x: real, y: real): (r: Matrix)
    ensures r == TranslationMatrix(x, y)
    ensures forall p :: Apply(r, p) == Vec2(p.x + x, p.y + y)
  {
    Translated(Identity, x, y)
  }

  /** `TransformUtils.createScale`: the identity scaled by (sx, sy), sy defaulting to sx. */
  function CreateScale(sx: real, sy: Option<real>): (r: Matrix)
    ensures r == Matrix(sx, 0.0, 0.0, if sy.Some? then sy.value else sx, 0.0, 0.0)
  {
    Scaled(Identity, sx, if sy.Some? then sy.value else sx)
  }

  /** The smallest x coordinate of a non-empty point list. */
  function MinX(ps: seq<Vec2>): (r: real)
    requires |ps| > 0
    ensures forall i :: 0 <= i < |ps| ==> r <= ps[i].x
    ensures exists i :: 0 <= i < |ps| && r == ps[i].x
  {
    if |ps| == 1 then ps[0].x else Min(ps[0].x, MinX(ps[1..]))
  }

  function MaxX(ps: seq<Vec2>): (r: real)
    requires |ps| > 0
    ensures forall i :: 0 <= i < |ps| ==> ps[i].x <= r
    ensures exists i :: 0 <= i < |ps| && r == ps[i].x
  {
    if |ps| == 1 then ps[0].x else Max(ps[0].x, MaxX(ps[1..]))
  }

  function MinY(ps: seq<Vec2>): (r: real)
    requires |ps| > 0
    ensures forall i :: 0 <= i < |ps| ==> r <= ps[i].y
    ensures exists i :: 0 <= i < |ps| && r == ps[i].y
  {
    if |ps| == 1 then ps[0].y else Min(ps[0].y, MinY(ps[1..]))
  }

  function MaxY(ps: seq<Vec2>): (r: real)
    requires |ps| > 0
    ensures forall i :: 0 <= i < |ps| ==> ps[i].y <= r
    ensures exists i :: 0 <= i < |ps| && r == ps[i].y
  {
    if |ps| == 1 then ps[0].y else Max(ps[0].y, MaxY(ps[1..]))
  }

  /**
   * `TransformUtils.getBounds`: the smallest box holding every point, and
   * the zero box for no points.
   */
  function GetBounds(points: seq<Vec2>): (r: Box)
    ensures points == [] ==> r == Box(0.0, 0.0, 0.0, 0.0)
    ensures r.width >= 0.0 && r.height >= 0.0
    ensures forall i :: 0 <= i < |points| ==>
              r.x <= points[i].x <= r.x + r.width && r.y <= points[i].y <= r.y + r.height
    ensures points != [] ==>
              (exists i :: 0 <= i < |points| && points[i].x == r.x) &&
              (exists i :: 0 <= i < |points| && points[i].y == r.y) &&
              (exists i :: 0 <= i < |points| && points[i].x == r.x + r.width) &&
              (exists i :: 0 <= i < |points| && points[i].y == r.y + r.height)
  {
    if |points| == 0 then Box(0.0, 0.0, 0.0, 0.0)
    else
      var minX := MinX(points);
      var minY := MinY(points);
      Box(minX, minY, MaxX(points) - minX, MaxY(points) - minY)
  }
}
