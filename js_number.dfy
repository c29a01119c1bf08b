/**
 * JavaScript numbers as far as the site's colour code needs them: a value is
 * either NaN or a finite real (rounding of IEEE doubles is not modelled), and
 * the primitives `parseInt(s, 16)`, `Math.round`, `n.toString(16)` and
 * `String(n)` on integers.
 */
module JsNumber {
  import opened JsString

  datatype Num = NaN | Fin(v: real)

  function Add(a: Num, b: Num): (r: Num)
    ensures r.Fin? <==> a.Fin? && b.Fin?
  {
    if a.Fin? && b.Fin? then Fin(a.v + b.v) else NaN
  }

  function Sub(a: Num, b: Num): (r: Num)
    ensures r.Fin? <==> a.Fin? && b.Fin?
  {
    if a.Fin? && b.Fin? then Fin(a.v - b.v) else NaN
  }

  function Mul(a: Num, k: real): (r: Num)
    ensures r.Fin? <==> a.Fin?
  {
    if a.Fin? then Fin(a.v * k) else NaN
  }

  /** `Math.round(x)`: the integer nearest to `x`, halves rounding up. */
  function Round(x: real): (r: int)
    ensures x - 1.0 / 2.0 < r as real <= x + 1.0 / 2.0
  {
    (x + 1.0 / 2.0).Floor
  }

  /** Any integer within a half of `x` (upper half inclusive) is its rounding. */
  lemma RoundUnique(x: real, n: int)
    requires x - 1.0 / 2.0 < n as real <= x + 1.0 / 2.0
    ensures Round(x) == n
  {
  }

  /** `Math.min(hi, Math.max(lo, x))` on a finite value. */
  function Clamp(x: real, lo: real, hi: real): (r: real)
    requires lo <= hi
    ensures lo <= r <= hi
    ensures lo <= x <= hi ==> r == x
    ensures x < lo ==> r == lo
    ensures hi < x ==> r == hi
  {
    if x < lo then lo else if hi < x then hi else x
  }

  /** The product `r * t`, kept as one term so that the solver treats it as an atom. */
  function Scale(r: real, t: real): real
  {
    r * t
  }

  /** A draw in [0, 1) scales a positive `t` into [0, t). */
  lemma ScaleBelow(r: real, t: real)
    requires 0.0 <= r < 1.0 && t > 0.0
    ensures 0.0 <= Scale(r, t) < t
  {
    assert (1.0 - r) * t > 0.0;
  }

  /** `Math.floor(Math.random() * n)`: for a draw in [0, 1), an index into `n` slots. */
  function RandomIndex(r: real, n: nat): (k: nat)
    requires 0.0 <= r < 1.0 && n > 0
    ensures k < n
  {
    ScaleBelow(r, n as real);
    Scale(r, n as real).Floor
  }

  // ---------------------------------------------------------------- hex

  predicate IsHexDigit(c: char)
  {
    ('0' <= c <= '9') || ('a' <= c <= 'f') || ('A' <= c <= 'F')
  }

  function HexValue(c: char): (d: nat)
    requires IsHexDigit(c)
    ensures d < 16
  {
    if '0' <= c <= '9' then (c - '0') as nat
    else if 'a' <= c <= 'f' then (c - 'a') as nat + 10
    else (c - 'A') as nat + 10
  }

  /** The lower-case digit `Number.prototype.toString(16)` writes for `d`. */
  function HexDigit(d: nat): (c: char)
    requires d < 16
    ensures IsHexDigit(c) && HexValue(c) == d
    ensures c != 'x' && c != 'X' && !IsSpace(c) && c != '-' && c != '+'
  {
    if d < 10 then ('0' as int + d) as char else ('a' as int + d - 10) as char
  }

  predicate IsLowerHexDigit(c: char)
  {
    ('0' <= c <= '9') || ('a' <= c <= 'f')
  }

  lemma HexDigitOfValue(c: char)
    requires IsLowerHexDigit(c)
    ensures HexDigit(HexValue(c)) == c
  {
  }

  /** Length of the longest prefix of `s` made of hexadecimal digits. */
  function HexRun(s: string): (n: nat)
    ensures n <= |s|
    ensures forall i :: 0 <= i < n ==> IsHexDigit(s[i])
    ensures n < |s| ==> !IsHexDigit(s[n])
  {
    if s == [] || !IsHexDigit(s[0]) then 0 else 1 + HexRun(s[1..])
  }

  /** The value of a run of hex digits, most significant first. */
  function HexDigitsValue(s: string): (v: nat)
    requires forall i :: 0 <= i < |s| ==> IsHexDigit(s[i])
  {
    if s == [] then 0 else HexDigitsValue(s[..|s| - 1]) * 16 + HexValue(s[|s| - 1])
  }

  /** The sign `parseInt` accepts in front of the digits, and what follows it. */
  function SplitSign(t: string): (r: (bool, string))
  {
    if |t| > 0 && (t[0] == '-' || t[0] == '+') then (t[0] == '-', t[1..]) else (false, t)
  }

  /** Radix 16 lets `parseInt` skip a leading `0x` or `0X`. */
  function StripHexPrefix(u: string): (w: string)
  {
    if |u| >= 2 && u[0] == '0' && (u[1] == 'x' || u[1] == 'X') then u[2..] else u
  }

  /**
   * `parseInt(s, 16)`: skip leading white space, take an optional sign and an
   * optional `0x`/`0X` prefix, then read the longest run of hex digits; NaN
   * when that run is empty.
   */
  function ParseIntHex(s: string): (r: Num)
  {
    var (negative, u) := SplitSign(TrimStart(s));
    var w := StripHexPrefix(u);
    var n := HexRun(w);
    if n == 0 then NaN
    else
      var m := HexDigitsValue(w[..n]);
      Fin(if negative then -(m as real) else m as real)
  }

  /** `n.toString(16)` for a non-negative integer: lower-case, no leading zeros. */
  function NatToHex(n: nat): (s: string)
    ensures |s| >= 1
    ensures n < 16 <==> |s| == 1
    ensures n < 256 ==> |s| <= 2
    ensures forall i :: 0 <= i < |s| ==> IsLowerHexDigit(s[i])
    ensures n > 0 ==> s[0] != '0'
  {
    if n < 16 then [HexDigit(n)] else NatToHex(n / 16) + [HexDigit(n % 16)]
  }

  /** Reading back what `toString(16)` wrote gives the number. */
  lemma {:induction false} NatToHexValue(n: nat)
    ensures forall i :: 0 <= i < |NatToHex(n)| ==> IsHexDigit(NatToHex(n)[i])
    ensures HexDigitsValue(NatToHex(n)) == n
  {
    if n >= 16 {
      NatToHexValue(n / 16);
      var s := NatToHex(n);
      assert s[..|s| - 1] == NatToHex(n / 16);
    }
  }

  /** `toString(16)` is the inverse of reading a canonical (lower-case, no leading zero) digit run. */
  lemma {:induction false} HexOfDigitsValue(s: string)
    requires |s| >= 1 && (forall i :: 0 <= i < |s| ==> IsLowerHexDigit(s[i]))
    requires |s| == 1 || s[0] != '0'
    ensures forall i :: 0 <= i < |s| ==> IsHexDigit(s[i])
    ensures HexDigitsValue(s) > 0 || s == "0"
    ensures NatToHex(HexDigitsValue(s)) == s
  {
    var p := s[..|s| - 1];
    var last := s[|s| - 1];
    if |s| == 1 {
      HexDigitOfValue(last);
      assert HexDigitsValue(s) == HexValue(last);
    } else {
      HexOfDigitsValue(p);
      assert p[0] == s[0];
      var v := HexDigitsValue(p) * 16 + HexValue(last);
      assert HexDigitsValue(s) == v;
      assert HexDigitsValue(p) > 0;
      assert v / 16 == HexDigitsValue(p) && v % 16 == HexValue(last);
      HexDigitOfValue(last);
    }
  }

  /** The decimal digit character for `d`. */
  function DecimalDigit(d: nat): (c: char)
    requires d < 10
    ensures '0' <= c <= '9' && c as int - '0' as int == d
  {
    ('0' as int + d) as char
  }

  /** The decimal digits of `n`, as `String(n)` writes them. */
  function NatToDecimal(n: nat): (s: string)
    ensures |s| >= 1
    ensures forall i :: 0 <= i < |s| ==> '0' <= s[i] <= '9'
    ensures n < 10 <==> |s| == 1
  {
    if n < 10 then [DecimalDigit(n)] else NatToDecimal(n / 10) + [DecimalDigit(n % 10)]
  }

  /** `String(n)` for an integer. */
  function IntToDecimal(n: int): (s: string)
    ensures |s| >= 1
    ensures s[0] == '-' <==> n < 0
  {
    if n < 0 then "-" + NatToDecimal(-n) else NatToDecimal(n)
  }
}
