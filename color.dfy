/**
 * The `#rrggbb` colour codec shared by the metro map and the strange
 * attractor: `parseColor` reads two hex characters per channel with
 * `parseInt(_, 16)`, `rgbToHex` clamps, rounds and writes each channel as two
 * lower-case hex digits, and `lerpColor` mixes two colours channel by channel.
 */
module Color {
  import opened JsString
  import opened JsNumber

  datatype RGB = RGB(r: Num, g: Num, b: Num)

  const WHITE: RGB := RGB(Fin(255.0), Fin(255.0), Fin(255.0))

  predicate IsFinite(c: RGB)
  {
    c.r.Fin? && c.g.Fin? && c.b.Fin?
  }

  /** Every channel is a whole number in 0..255, as the hex codec can carry. */
  predicate IsByteColor(c: RGB)
  {
    IsFinite(c) && IsByte(c.r.v) && IsByte(c.g.v) && IsByte(c.b.v)
  }

  predicate IsByte(v: real)
  {
    0.0 <= v <= 255.0 && v == v.Floor as real
  }

  /** `parseColor`: a `#` string is read two hex characters per channel; anything else is white. */
  function ParseColor(color: string): (c: RGB)
    ensures (|color| == 0 || color[0] != '#') ==> c == WHITE
    ensures |color| > 0 && color[0] == '#' ==>
      c == RGB(ParseIntHex(Slice(color[1..], 0, 2)),
               ParseIntHex(Slice(color[1..], 2, 4)),
               ParseIntHex(Slice(color[1..], 4, 6)))
  {
    if |color| > 0 && color[0] == '#' then
      var hex := color[1..];
      RGB(ParseIntHex(Slice(hex, 0, 2)), ParseIntHex(Slice(hex, 2, 4)), ParseIntHex(Slice(hex, 4, 6)))
    else
      WHITE
  }

  /** The channel value `rgbToHex` writes: clamped to [0, 255], then rounded. */
  function ByteOf(v: real): (n: nat)
    ensures n <= 255
    ensures 0.0 <= v <= 255.0 ==> v - 1.0 / 2.0 < n as real <= v + 1.0 / 2.0
    ensures v <= 0.0 ==> n == 0
    ensures 255.0 <= v ==> n == 255
  {
    Round(Clamp(v, 0.0, 255.0))
  }

  /** Two lower-case hex digits. */
  predicate IsHexPair(h: string)
  {
    |h| == 2 && IsLowerHexDigit(h[0]) && IsLowerHexDigit(h[1])
  }

  function PairValue(h: string): (n: nat)
    requires IsHexPair(h)
    ensures n < 256
  {
    HexValue(h[0]) * 16 + HexValue(h[1])
  }

  /** One channel of `rgbToHex`; a NaN channel is written as the text "NaN". */
  function ChannelHex(n: Num): (s: string)
    ensures n.NaN? ==> s == "NaN"
    ensures n.Fin? ==> IsHexPair(s) && PairValue(s) == ByteOf(n.v)
  {
    match n
    case NaN => "NaN"
    case Fin(v) =>
      var b := ByteOf(v);
      PairOfByte(b);
      PadStart2(NatToHex(b))
  }

  lemma PairOfByte(n: nat)
    requires n < 256
    ensures IsHexPair(PadStart2(NatToHex(n))) && PairValue(PadStart2(NatToHex(n))) == n
  {
    var h := PadStart2(NatToHex(n));
    if n < 16 {
      assert h == ['0', HexDigit(n)];
    } else {
      assert NatToHex(n / 16) == [HexDigit(n / 16)];
      assert h == [HexDigit(n / 16), HexDigit(n % 16)];
    }
  }

  /** `parseInt(h, 16)` of two lower-case hex digits is their value. */
  lemma ParsePair(h: string)
    requires IsHexPair(h)
    ensures ParseIntHex(h) == Fin(PairValue(h) as real)
  {
    assert !IsSpace(h[0]) && h[0] != '-' && h[0] != '+' && h[1] != 'x' && h[1] != 'X';
    assert TrimStart(h) == h;
    assert SplitSign(h) == (false, h);
    assert StripHexPrefix(h) == h;
    HexRunOfPair(h);
    assert h[..2] == h;
    ValueOfPair(h);
  }

  lemma HexRunOfPair(h: string)
    requires IsHexPair(h)
    ensures HexRun(h) == 2
  {
    assert h[1..][1..] == [];
    assert HexRun(h[1..]) == 1;
  }

  lemma ValueOfPair(h: string)
    requires IsHexPair(h)
    ensures forall i :: 0 <= i < |h| ==> IsHexDigit(h[i])
    ensures HexDigitsValue(h) == PairValue(h)
  {
    assert h[..1] == [h[0]] && [h[0]][..0] == [];
    assert HexDigitsValue([h[0]]) == HexValue(h[0]);
    assert HexDigitsValue(h) == HexDigitsValue([h[0]]) * 16 + HexValue(h[1]);
  }

  /** `rgbToHex`. */
  function RgbToHex(c: RGB): (s: string)
    ensures IsFinite(c) ==> |s| == 7 && s[0] == '#' && IsHexPair(s[1..3]) && IsHexPair(s[3..5]) && IsHexPair(s[5..7])
    ensures IsFinite(c) ==>
      PairValue(s[1..3]) == ByteOf(c.r.v) && PairValue(s[3..5]) == ByteOf(c.g.v) && PairValue(s[5..7]) == ByteOf(c.b.v)
  {
    var s := "#" + ChannelHex(c.r) + ChannelHex(c.g) + ChannelHex(c.b);
    if IsFinite(c) then
      assert s[1..3] == ChannelHex(c.r) && s[3..5] == ChannelHex(c.g) && s[5..7] == ChannelHex(c.b);
      s
    else
      s
  }

  /** Reading back a written colour gives each channel clamped and rounded. */
  lemma ParseAfterFormat(c: RGB)
    requires IsFinite(c)
    ensures ParseColor(RgbToHex(c)) == RGB(Fin(ByteOf(c.r.v) as real), Fin(ByteOf(c.g.v) as real), Fin(ByteOf(c.b.v) as real))
  {
    var s := RgbToHex(c);
    var hex := s[1..];
    assert Slice(hex, 0, 2) == s[1..3] && Slice(hex, 2, 4) == s[3..5] && Slice(hex, 4, 6) == s[5..7];
    ParsePair(s[1..3]);
    ParsePair(s[3..5]);
    ParsePair(s[5..7]);
  }

  /** For whole channels in 0..255 the codec is lossless: `parseColor(rgbToHex(c)) == c`. */
  lemma ParseColorRgbToHex(c: RGB)
    requires IsByteColor(c)
    ensures ParseColor(RgbToHex(c)) == c
  {
    ParseAfterFormat(c);
    RoundUnique(c.r.v, c.r.v.Floor);
    RoundUnique(c.g.v, c.g.v.Floor);
    RoundUnique(c.b.v, c.b.v.Floor);
  }

  /** `toString(16)` undoes the reading of a lower-case hex pair. */
  lemma PairRoundTrip(h: string)
    requires IsHexPair(h)
    ensures PadStart2(NatToHex(PairValue(h))) == h
  {
    var n := PairValue(h);
    HexDigitOfValue(h[0]);
    HexDigitOfValue(h[1]);
    if h[0] == '0' {
      assert n == HexValue(h[1]);
    } else {
      assert n / 16 == HexValue(h[0]) && n % 16 == HexValue(h[1]);
      assert NatToHex(n / 16) == [h[0]];
    }
  }

  /** Writing back the value of a parsed lower-case hex pair gives the pair. */
  lemma ChannelHexOfPair(h: string)
    requires IsHexPair(h)
    ensures ChannelHex(ParseIntHex(h)) == h
  {
    ParsePair(h);
    RoundUnique(PairValue(h) as real, PairValue(h));
    PairRoundTrip(h);
  }

  /** The other direction: a lower-case `#rrggbb` string survives `rgbToHex(parseColor(s))`. */
  lemma RgbToHexParseColor(s: string)
    requires |s| == 7 && s[0] == '#' && IsHexPair(s[1..3]) && IsHexPair(s[3..5]) && IsHexPair(s[5..7])
    ensures RgbToHex(ParseColor(s)) == s
  {
    var hex := s[1..];
    assert Slice(hex, 0, 2) == s[1..3] && Slice(hex, 2, 4) == s[3..5] && Slice(hex, 4, 6) == s[5..7];
    var c := ParseColor(s);
    assert c == RGB(ParseIntHex(s[1..3]), ParseIntHex(s[3..5]), ParseIntHex(s[5..7]));
    ChannelHexOfPair(s[1..3]);
    ChannelHexOfPair(s[3..5]);
    ChannelHexOfPair(s[5..7]);
    calc {
      RgbToHex(c);
      "#" + ChannelHex(c.r) + ChannelHex(c.g) + ChannelHex(c.b);
      "#" + s[1..3] + s[3..5] + s[5..7];
      { SevenSplit(s); }
      s;
    }
  }

  lemma SevenSplit(s: string)
    requires |s| == 7 && s[0] == '#'
    ensures "#" + s[1..3] + s[3..5] + s[5..7] == s
  {
    var t := "#" + s[1..3] + s[3..5] + s[5..7];
    assert |t| == 7;
    forall i | 0 <= i < 7
      ensures t[i] == s[i]
    {
    }
  }

  /** `from + (to - from) * t`, with NaN spreading from either side. */
  function LerpChannel(from: Num, to: Num, t: real): (r: Num)
    ensures r.Fin? <==> from.Fin? && to.Fin?
    ensures r.Fin? ==> r.v - to.v == (1.0 - t) * (from.v - to.v)
  {
    Add(from, Mul(Sub(to, from), t))
  }

  /** `lerpColor`. */
  function LerpColor(from: RGB, to: RGB, t: real): (c: RGB)
    ensures c.r.Fin? <==> from.r.Fin? && to.r.Fin?
    ensures c.g.Fin? <==> from.g.Fin? && to.g.Fin?
    ensures c.b.Fin? <==> from.b.Fin? && to.b.Fin?
    ensures c.r.Fin? ==> c.r.v - to.r.v == (1.0 - t) * (from.r.v - to.r.v)
    ensures c.g.Fin? ==> c.g.v - to.g.v == (1.0 - t) * (from.g.v - to.g.v)
    ensures c.b.Fin? ==> c.b.v - to.b.v == (1.0 - t) * (from.b.v - to.b.v)
  {
    RGB(LerpChannel(from.r, to.r, t), LerpChannel(from.g, to.g, t), LerpChannel(from.b, to.b, t))
  }

  /** On finite colours, `t = 0` keeps `from` and `t = 1` reaches `to`. */
  lemma LerpEnds(from: RGB, to: RGB)
    requires IsFinite(from) && IsFinite(to)
    ensures LerpColor(from, to, 0.0) == from
    ensures LerpColor(from, to, 1.0) == to
  {
  }

  /** A NaN target poisons the channel even at `t = 0`: `from + (NaN - from) * 0` is NaN. */
  lemma LerpTowardsNaN(from: RGB, to: RGB, t: real)
    requires to.r.NaN?
    ensures LerpColor(from, to, t).r.NaN?
  {
  }

  /** For `t` in [0, 1] each mixed channel lies between the two inputs. */
  lemma LerpBetween(from: RGB, to: RGB, t: real)
    requires IsFinite(from) && IsFinite(to) && 0.0 <= t <= 1.0
    ensures var c := LerpColor(from, to, t);
      Between(c.r.v, from.r.v, to.r.v) && Between(c.g.v, from.g.v, to.g.v) && Between(c.b.v, from.b.v, to.b.v)
  {
    var c := LerpColor(from, to, t);
    LerpChannelBetween(from.r.v, to.r.v, c.r.v, t);
    LerpChannelBetween(from.g.v, to.g.v, c.g.v, t);
    LerpChannelBetween(from.b.v, to.b.v, c.b.v, t);
  }

  predicate Between(x: real, a: real, b: real)
  {
    (a <= x <= b) || (b <= x <= a)
  }

  lemma LerpChannelBetween(a: real, b: real, x: real, t: real)
    requires 0.0 <= t <= 1.0 && x - b == (1.0 - t) * (a - b)
    ensures Between(x, a, b)
  {
    var k := 1.0 - t;
    var d := a - b;
    assert x - b == k * d;
    if a <= b {
      assert k * (-d) >= 0.0;
      assert t * (-d) >= 0.0;
    } else {
      assert k * d >= 0.0;
      assert t * d >= 0.0;
    }
  }
}
