/// Float RGBA colours rendered as upper-case hex strings (`src/utils/color.ts`).
module Color {

  /** `Math.round`: the nearest integer, halves rounded up. */
  function Round(x: real): (r: int)
    ensures x - 0.5 < r as real <= x + 0.5
  {
    (x + 0.5).Floor
  }

  /** `Math.round(v * 255)`. */
  function To255(v: real): int
  {
    Round(v * 255.0)
  }

  function LowerHexDigit(d: nat): (c: char)
    requires d < 16
  {
    if d < 10 then '0' + d as char else 'a' + (d - 10) as char
  }

  /** The digits of `n.toString(16)` for a non-negative integer. */
  function HexDigits(n: nat): (s: string)
    ensures |s| >= 1
    decreases n
  {
    if n < 16 then [LowerHexDigit(n)] else HexDigits(n / 16) + [LowerHexDigit(n % 16)]
  }

  /** `Number.prototype.toString(16)` on an integer: a minus sign before the digits of a negative value. */
  function ToHexString(n: int): string
  {
    if n < 0 then "-" + HexDigits(-n) else HexDigits(n)
  }

  /** `padStart(2, '0')`. */
  function PadStart2(s: string): (r: string)
    ensures |r| == if |s| >= 2 then |s| else 2
  {
    if |s| >= 2 then s else seq(2 - |s|, _ => '0') + s
  }

  /** `toUpperCase` on the characters a hex string can hold. */
  function UpperChar(c: char): char
  {
    if 'a' <= c <= 'z' then c - 'a' + 'A' else c
  }

  function ToUpper(s: string): (r: string)
    ensures |r| == |s|
  {
    seq(|s|, i requires 0 <= i < |s| => UpperChar(s[i]))
  }

  /** `toHex`: one channel as a zero-padded hex byte. */
  function ToHex(v: real): string
  {
    PadStart2(ToHexString(To255(v)))
  }

  /**
   * `floatRgbaToHex`: the red, green and blue bytes, then the alpha byte
   * only when alpha is below 1, upper-cased.
   */
  function FloatRgbaToHex(r: real, g: real, b: real, a: real): string
  {
    var hex := ToHex(r) + ToHex(g) + ToHex(b);
    ToUpper(if a < 1.0 then hex + ToHex(a) else hex)
  }

  /** `floatRgbaToHexHash`: the same string behind a `#`. */
  function FloatRgbaToHexHash(r: real, g: real, b: real, a: real): (s: string)
    ensures |s| > 0 && s[0] == '#' && s[1..] == FloatRgbaToHex(r, g, b, a)
  {
    "#" + FloatRgbaToHex(r, g, b, a)
  }

  // ---------------------------------------------------------------------
  // Reading the string back

  predicate IsUpperHexDigit(c: char)
  {
    '0' <= c <= '9' || 'A' <= c <= 'F'
  }

  function HexValue(c: char): nat
    requires IsUpperHexDigit(c)
  {
    if c <= '9' then (c - '0') as nat else (c - 'A') as nat + 10
  }

  /** The byte a two-digit upper-case hex string stands for. */
  function ParseByte(s: string): nat
    requires |s| == 2 && IsUpperHexDigit(s[0]) && IsUpperHexDigit(s[1])
  {
    16 * HexValue(s[0]) + HexValue(s[1])
  }

  predicate InUnit(v: real)
  {
    0.0 <= v <= 1.0
  }

  /** A channel in [0, 1] rounds to a byte. */
  lemma To255Byte(v: real)
    requires InUnit(v)
    ensures 0 <= To255(v) <= 255
  {
  }

  lemma UpperDigit(d: nat)
    requires d < 16
    ensures IsUpperHexDigit(UpperChar(LowerHexDigit(d)))
    ensures HexValue(UpperChar(LowerHexDigit(d))) == d
  {
  }

  /**
   * A channel in [0, 1] becomes exactly two upper-case hex digits that read
   * back as `Math.round(v * 255)`.
   */
  lemma ChannelRoundTrip(v: real)
    requires InUnit(v)
    ensures var s := ToUpper(ToHex(v));
            |s| == 2 && IsUpperHexDigit(s[0]) && IsUpperHexDigit(s[1]) &&
            ParseByte(s) == To255(v)
  {
    var n := To255(v);
    To255Byte(v);
    var s := ToUpper(ToHex(v));
    if n < 16 {
      assert ToHex(v) == ['0', LowerHexDigit(n)];
      UpperDigit(0);
      UpperDigit(n);
    } else {
      assert n / 16 < 16;
      assert HexDigits(n / 16) == [LowerHexDigit(n / 16)];
      assert HexDigits(n) == [LowerHexDigit(n / 16), LowerHexDigit(n % 16)];
      assert ToHex(v) == [LowerHexDigit(n / 16), LowerHexDigit(n % 16)];
      UpperDigit(n / 16);
      UpperDigit(n % 16);
    }
  }

  lemma ToUpperConcat(s: string, t: string)
    ensures ToUpper(s + t) == ToUpper(s) + ToUpper(t)
  {
  }

  /**
   * For channels in [0, 1] the string has six digits when alpha is 1 and
   * eight when it is below 1, and every pair of digits reads back as the
   * rounded byte of its channel, in red, green, blue, alpha order.
   */
  lemma FloatRgbaToHexRoundTrip(r: real, g: real, b: real, a: real)
    requires InUnit(r) && InUnit(g) && InUnit(b) && InUnit(a)
    ensures var s := FloatRgbaToHex(r, g, b, a);
            (|s| == 8 <==> a < 1.0) && (|s| == 6 <==> a == 1.0) &&
            (forall i :: 0 <= i < |s| ==> IsUpperHexDigit(s[i])) &&
            ParseByte(s[0..2]) == To255(r) &&
            ParseByte(s[2..4]) == To255(g) &&
            ParseByte(s[4..6]) == To255(b) &&
            (a < 1.0 ==> ParseByte(s[6..8]) == To255(a))
  {
    ChannelRoundTrip(r);
    ChannelRoundTrip(g);
    ChannelRoundTrip(b);
    ChannelRoundTrip(a);
    UpperJoined(r, g, b, a);
    Joined(ToUpper(ToHex(r)), ToUpper(ToHex(g)), ToUpper(ToHex(b)), ToUpper(ToHex(a)), a < 1.0);
  }

  /** Upper-casing the joined channels is joining the upper-cased channels. */
  lemma UpperJoined(r: real, g: real, b: real, a: real)
    ensures FloatRgbaToHex(r, g, b, a)
            == if a < 1.0 then ToUpper(ToHex(r)) + ToUpper(ToHex(g)) + ToUpper(ToHex(b)) + ToUpper(ToHex(a))
               else ToUpper(ToHex(r)) + ToUpper(ToHex(g)) + ToUpper(ToHex(b))
  {
    var hex := ToHex(r) + ToHex(g) + ToHex(b);
    ToUpperConcat(ToHex(r), ToHex(g));
    ToUpperConcat(ToHex(r) + ToHex(g), ToHex(b));
    if a < 1.0 {
      ToUpperConcat(hex, ToHex(a));
    }
  }

  /** Three or four two-digit pieces, joined, are read back piece by piece. */
  lemma Joined(x: string, y: string, z: string, w: string, alpha: bool)
    requires |x| == 2 && |y| == 2 && |z| == 2 && |w| == 2
    requires IsUpperHexDigit(x[0]) && IsUpperHexDigit(x[1]) && IsUpperHexDigit(y[0]) && IsUpperHexDigit(y[1])
    requires IsUpperHexDigit(z[0]) && IsUpperHexDigit(z[1]) && IsUpperHexDigit(w[0]) && IsUpperHexDigit(w[1])
    ensures var s := if alpha then x + y + z + w else x + y + z;
            |s| == (if alpha then 8 else 6) &&
            (forall i :: 0 <= i < |s| ==> IsUpperHexDigit(s[i])) &&
            s[0..2] == x && s[2..4] == y && s[4..6] == z && (alpha ==> s[6..8] == w)
  {
    var s := if alpha then x + y + z + w else x + y + z;
    assert s[0..2] == x && s[2..4] == y && s[4..6] == z;
    if alpha {
      assert s[6..8] == w;
    }
  }
}
