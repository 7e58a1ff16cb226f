/// Paint objects shared through a cache keyed by colour bytes and blend mode
/// (`src/core/engine/renderers/cache/create-paint.ts`).
module Paints {
  import opened Types
  import Color

  // ---------------------------------------------------------------------
  // The 32-bit colour key

  function Pow256(i: nat): (r: nat)
    ensures r > 0
  {
    if i == 0 then 1 else 256 * Pow256(i - 1)
  }

  /** Byte i (0 = least significant) of a value below 2^32. */
  function ByteAt(u: nat, i: nat): bv8
  {
    ((u / Pow256(i)) % 256) as bv8
  }

  /**
   * The bit pattern JavaScript gives an integer operand of `<<` and `|`
   * (ToInt32): its value modulo 2^32, here assembled byte by byte.
   */
  function ToInt32Bits(x: int): bv32
  {
    var u := x % 0x1_0000_0000;
    ((ByteAt(u, 3) as bv32) << 24) | ((ByteAt(u, 2) as bv32) << 16) |
    ((ByteAt(u, 1) as bv32) << 8) | (ByteAt(u, 0) as bv32)
  }

  function Pack(r: bv32, g: bv32, b: bv32, a: bv32): bv32
  {
    (r << 24) | (g << 16) | (b << 8) | a
  }

  /** `((R << 24) | (G << 16) | (B << 8) | A) >>> 0` over the rounded channel bytes. */
  function ColorKey(c: Rgba): (k: nat)
    ensures k < 0x1_0000_0000
  {
    Pack(ToInt32Bits(Color.To255(c.r)), ToInt32Bits(Color.To255(c.g)),
         ToInt32Bits(Color.To255(c.b)), ToInt32Bits(Color.To255(c.a))) as nat
  }

  /** The rounded bytes a colour is keyed by. */
  datatype Channels = Channels(r: int, g: int, b: int, a: int)

  function RoundedChannels(c: Rgba): Channels
  {
    Channels(Color.To255(c.r), Color.To255(c.g), Color.To255(c.b), Color.To255(c.a))
  }

  /** Reading the four bytes back out of a key. */
  function Unpacked(key: nat): Channels
    requires key < 0x1_0000_0000
  {
    var k := key as bv32;
    Channels(((k >> 24) & 0xFF) as int, ((k >> 16) & 0xFF) as int,
             ((k >> 8) & 0xFF) as int, (k & 0xFF) as int)
  }

  predicate IsByte(x: int) { 0 <= x < 256 }

  lemma {:induction false} Pow256Large(i: nat)
    requires i > 0
    ensures Pow256(i) >= 256
  {
    if i > 1 {
      Pow256Large(i - 1);
    }
  }

  lemma ByteAtLow(r: int)
    requires IsByte(r)
    ensures ByteAt(r, 0) == r as bv8
  {
    assert r / Pow256(0) % 256 == r;
  }

  lemma ByteAtHigh(r: int, i: nat)
    requires IsByte(r) && i > 0
    ensures ByteAt(r, i) == 0
  {
    Pow256Large(i);
    assert r / Pow256(i) % 256 == 0;
  }

  lemma ByteAsInt(r: int)
    requires IsByte(r)
    ensures (r as bv8) as int == r
  {
    CountedByteValue(r);
    var b := CountedByte(r);
    assert (b as int) as bv8 == b;
  }

  /** The byte reached by counting up from zero `r` times, in 8-bit arithmetic. */
  ghost function CountedByte(r: nat): bv8
    requires r < 256
  {
    if r == 0 then 0 else CountedByte(r - 1) + 1
  }

  lemma {:induction false} CountedByteValue(r: nat)
    requires r < 256
    ensures CountedByte(r) as int == r
  {
    if r > 0 {
      CountedByteValue(r - 1);
      ByteIncrement(CountedByte(r - 1));
    }
  }

  lemma ByteIncrement(x: bv8)
    requires x as int < 255
    ensures (x + 1) as int == x as int + 1
  {
  }

  /** A byte keeps its value through ToInt32. */
  lemma ByteToBits(r: int)
    requires IsByte(r)
    ensures ToInt32Bits(r) == (r as bv8) as bv32
    ensures ToInt32Bits(r) as int == r
  {
    assert r % 0x1_0000_0000 == r;
    ByteAtLow(r);
    ByteAtHigh(r, 1);
    ByteAtHigh(r, 2);
    ByteAtHigh(r, 3);
    ByteAsInt(r);
    var b := r as bv8;
    assert (b as bv32) as int == b as int;
  }

  /** Four bytes packed into a word occupy disjoint bit ranges. */
  lemma PackBits(r: bv32, g: bv32, b: bv32, a: bv32)
    requires r < 256 && g < 256 && b < 256 && a < 256
    ensures (Pack(r, g, b, a) >> 24) & 0xFF == r
    ensures (Pack(r, g, b, a) >> 16) & 0xFF == g
    ensures (Pack(r, g, b, a) >> 8) & 0xFF == b
    ensures Pack(r, g, b, a) & 0xFF == a
  {
  }

  lemma WordRoundTrip(k: bv32)
    ensures (k as nat) as bv32 == k
  {
  }

  /** For channels in [0, 1] the key holds the four rounded bytes, which read back unchanged. */
  lemma ColorKeyUnpacks(c: Rgba)
    requires Color.InUnit(c.r) && Color.InUnit(c.g) && Color.InUnit(c.b) && Color.InUnit(c.a)
    ensures Unpacked(ColorKey(c)) == RoundedChannels(c)
  {
    var ch := RoundedChannels(c);
    Color.To255Byte(c.r);
    Color.To255Byte(c.g);
    Color.To255Byte(c.b);
    Color.To255Byte(c.a);
    ByteToBits(ch.r);
    ByteToBits(ch.g);
    ByteToBits(ch.b);
    ByteToBits(ch.a);
    var w := Pack(ToInt32Bits(ch.r), ToInt32Bits(ch.g), ToInt32Bits(ch.b), ToInt32Bits(ch.a));
    PackBits(ToInt32Bits(ch.r), ToInt32Bits(ch.g), ToInt32Bits(ch.b), ToInt32Bits(ch.a));
    WordRoundTrip(w);
  }

  // ---------------------------------------------------------------------
  // The string key

  function DecimalDigit(d: nat): char
    requires d < 10
  {
    '0' + d as char
  }

  /** The template-literal rendering of a non-negative integer. */
  function NatToString(n: nat): (s: string)
    ensures |s| >= 1 && forall i :: 0 <= i < |s| ==> '0' <= s[i] <= '9'
  {
    if n < 10 then [DecimalDigit(n)] else NatToString(n / 10) + [DecimalDigit(n % 10)]
  }

  /** The value of a string of decimal digits. */
  function ParseDecimal(s: string): nat
    requires forall i :: 0 <= i < |s| ==> '0' <= s[i] <= '9'
  {
    if |s| == 0 then 0 else 10 * ParseDecimal(s[..|s| - 1]) + (s[|s| - 1] - '0') as nat
  }

  lemma {:induction false} DecimalRoundTrip(n: nat)
    ensures ParseDecimal(NatToString(n)) == n
  {
    if n >= 10 {
      DecimalRoundTrip(n / 10);
      var s := NatToString(n);
      assert s[..|s| - 1] == NatToString(n / 10);
    }
  }

  /** `paintKey`: `${colorKey}#${blendMode}`. */
  function PaintKey(fill: FillPaint): string
  {
    NatToString(ColorKey(fill.color)) + "#" + fill.blendMode
  }

  /** The index of the first `#`, or |s| when there is none. */
  function FirstHash(s: string): (i: nat)
    ensures i <= |s| && (i < |s| ==> s[i] == '#') && '#' !in s[..i]
  {
    if |s| == 0 then 0
    else if s[0] == '#' then 0
    else
      var j := FirstHash(s[1..]);
      assert s[..j + 1] == [s[0]] + s[1..][..j];
      j + 1
  }

  lemma {:induction false} FirstHashSkips(x: string, y: string)
    requires '#' !in x
    ensures FirstHash(x + y) == |x| + FirstHash(y)
  {
    if |x| > 0 {
      assert x[0] in x;
      assert forall c :: c in x[1..] ==> c in x;
      assert (x + y)[0] == x[0];
      assert (x + y)[1..] == x[1..] + y;
      FirstHashSkips(x[1..], y);
      assert FirstHash(x + y) == FirstHash((x + y)[1..]) + 1;
    } else {
      assert x + y == y;
    }
  }

  lemma FirstHashOfKey(digits: string, rest: string)
    requires forall i :: 0 <= i < |digits| ==> '0' <= digits[i] <= '9'
    ensures FirstHash(digits + "#" + rest) == |digits|
  {
    assert digits + "#" + rest == digits + ("#" + rest);
    FirstHashSkips(digits, "#" + rest);
  }

  predicate InUnitColor(c: Rgba)
  {
    Color.InUnit(c.r) && Color.InUnit(c.g) && Color.InUnit(c.b) && Color.InUnit(c.a)
  }

  /**
   * Two fills with channels in [0, 1] share a cache key exactly when their
   * channels round to the same bytes and their blend modes are equal.
   */
  lemma PaintKeyCollision(p: FillPaint, q: FillPaint)
    requires InUnitColor(p.color) && InUnitColor(q.color)
    ensures PaintKey(p) == PaintKey(q) <==>
              RoundedChannels(p.color) == RoundedChannels(q.color) && p.blendMode == q.blendMode
  {
    if PaintKey(p) == PaintKey(q) {
      var dp, dq := NatToString(ColorKey(p.color)), NatToString(ColorKey(q.color));
      FirstHashOfKey(dp, p.blendMode);
      FirstHashOfKey(dq, q.blendMode);
      var s := PaintKey(p);
      assert dp == s[..|dp|] && dq == s[..|dq|];
      assert p.blendMode == s[|dp| + 1..] && q.blendMode == s[|dq| + 1..];
      DecimalRoundTrip(ColorKey(p.color));
      DecimalRoundTrip(ColorKey(q.color));
      ColorKeyUnpacks(p.color);
      ColorKeyUnpacks(q.color);
    }
  }

  // ---------------------------------------------------------------------
  // The cache

  /** The renderer's blend-mode values; only source-over is ever chosen. */
  datatype BlendModeValue = SrcOver | Other(name: string)

  /**
   * `blendModeMap[name] ?? SrcOver`: the table maps "NORMAL" to source-over
   * and every other name falls back to source-over too.
   */
  function BlendModeFor(name: string): (m: BlendModeValue)
    ensures m == SrcOver
  {
    if name == "NORMAL" then SrcOver else SrcOver
  }

  /** A native paint object: its colour, blend mode and whether it was freed. */
  class Paint {
    var color: Rgba
    var blendMode: BlendModeValue
    var deleted: bool

    constructor(color: Rgba, blendMode: BlendModeValue)
      ensures this.color == color && this.blendMode == blendMode && !deleted
    {
      this.color := color;
      this.blendMode := blendMode;
      deleted := false;
    }

    /** `paint.delete()`: frees the native object. */
    method Delete()
      modifies this
      ensures deleted && color == old(color) && blendMode == old(blendMode)
    {
      deleted := true;
    }
  }

  /** The module-level `paintCache` map, its keys listed in insertion order. */
  class PaintCache {
    var paints: map<string, Paint>
    var order: seq<string>
    ghost var fills: map<string, FillPaint>

    /**
     * Each key is the key of the fill its paint was made for, the paint holds
     * that fill's colour with source-over blending and is live, and no paint
     * sits under two keys.
     */
    ghost predicate Valid()
      reads this, paints.Values
    {
      paints.Keys == fills.Keys &&
      Listed(order, paints.Keys) &&
      (forall k :: k in paints ==>
         PaintKey(fills[k]) == k && paints[k].color == fills[k].color &&
         paints[k].blendMode == SrcOver && !paints[k].deleted) &&
      Unshared(paints)
    }

    constructor()
      ensures Valid() && paints == map[] && order == []
    {
      paints := map[];
      order := [];
      fills := map[];
    }

    /**
     * `createPaint`: the cached paint for the fill's key, or a new live paint
     * with the fill's colour and source-over blending, stored under that key.
     * For channels in [0, 1] the returned paint's colour rounds to the same
     * bytes as the requested one.
     */
    method CreatePaint(fill: FillPaint) returns (p: Paint)
      requires Valid()
      modifies this
      ensures Valid()
      ensures var key := PaintKey(fill);
              key in paints && p == paints[key] &&
              (key in old(paints) ==> p == old(paints)[key] && paints == old(paints) && order == old(order)) &&
              (key !in old(paints) ==> fresh(p) && paints == old(paints)[key := p] &&
                                       order == old(order) + [key])
      ensures !p.deleted && p.blendMode == SrcOver
      ensures InUnitColor(fill.color) && InUnitColor(p.color) ==>
                RoundedChannels(p.color) == RoundedChannels(fill.color)
    {
      var key := PaintKey(fill);
      if key in paints {
        p := paints[key];
        if InUnitColor(fill.color) && InUnitColor(p.color) {
          PaintKeyCollision(fills[key], fill);
        }
        return;
      }
      p := new Paint(fill.color, BlendModeFor(fill.blendMode));
      Store(key, fill, p);
    }

    /** Caching a new live paint for the fill under its key. */
    method Store(key: string, fill: FillPaint, p: Paint)
      requires Valid() && key == PaintKey(fill) && key !in paints && p !in paints.Values
      requires p.color == fill.color && p.blendMode == SrcOver && !p.deleted
      modifies this
      ensures Valid() && paints == old(paints)[key := p] && order == old(order) + [key]
    {
      ghost var keys := paints.Keys;
      ListedAppend(order, keys, key);
      UnsharedAdd(paints, key, p);
      paints := paints[key := p];
      order := order + [key];
      fills := fills[key := fill];
      assert paints.Keys == keys + {key};
    }

    /** `disposePaint`: frees every cached paint, then empties the cache. */
    method DisposePaint()
      requires Valid()
      modifies this, paints.Values
      ensures Valid() && paints == map[] && order == []
      ensures forall p :: p in old(paints.Values) ==> p.deleted
    {
      // the cached paints in the map's iteration order
      var ps, ord := paints, order;
      var values: seq<Paint> := seq(|ord|, j requires 0 <= j < |ord| => ps[ord[j]]);
      ValuesListed(ps, ord, values);
      DeleteAll(values);
      paints := map[];
      order := [];
      fills := map[];
    }
  }

  /** `order` lists exactly the keys, each once, in insertion order. */
  ghost predicate Listed(order: seq<string>, keys: set<string>)
  {
    (forall k :: k in order <==> k in keys) &&
    forall i, j :: 0 <= i < j < |order| ==> order[i] != order[j]
  }

  /** Appending a new key to the insertion order keeps it listing every key once. */
  lemma ListedAppend(order: seq<string>, keys: set<string>, key: string)
    requires Listed(order, keys) && key !in keys
    ensures Listed(order + [key], keys + {key})
  {
    var o := order + [key];
    forall i, j | 0 <= i < j < |o|
      ensures o[i] != o[j]
    {
      if j == |order| {
        assert o[i] == order[i] && order[i] in order;
      } else {
        assert o[i] == order[i] && o[j] == order[j];
      }
    }
  }

  /** Reading the map along its insertion order meets every cached paint. */
  lemma ValuesListed(ps: map<string, Paint>, ord: seq<string>, values: seq<Paint>)
    requires Listed(ord, ps.Keys)
    requires |values| == |ord| && forall j :: 0 <= j < |ord| ==> values[j] == ps[ord[j]]
    ensures forall p :: p in ps.Values ==> p in values
  {
    forall p | p in ps.Values
      ensures p in values
    {
      var k :| k in ps && ps[k] == p;
      var j :| 0 <= j < |ord| && ord[j] == k;
      assert values[j] == p;
    }
  }

  /** No paint sits under two keys. */
  ghost predicate Unshared(paints: map<string, Paint>)
  {
    forall k, l :: k in paints && l in paints && k != l ==> paints[k] != paints[l]
  }

  /** A paint not yet cached, stored under a new key, is under that key only. */
  lemma UnsharedAdd(paints: map<string, Paint>, key: string, p: Paint)
    requires Unshared(paints) && key !in paints && p !in paints.Values
    ensures Unshared(paints[key := p])
  {
  }

  /** `for (const paint of ...) paint.delete()`: frees each paint in turn. */
  method DeleteAll(values: seq<Paint>)
    modifies set p | p in values
    ensures forall p :: p in values ==> p.deleted
  {
    var i := 0;
    while i < |values|
      invariant 0 <= i <= |values|
      invariant forall j :: 0 <= j < i ==> values[j].deleted
    {
      values[i].Delete();
      i := i + 1;
    }
  }
}
