/** JavaScript numbers as far as the bill comparison uses them, and
    `parseFloat` on strings: leading white space, an optional sign, then the
    longest prefix that reads as `Infinity` or as a decimal literal with an
    optional fraction and exponent. Values are exact reals; binary rounding
    is not modelled. */
module JsNumber {
  import opened Strings

  /** A number: `NaN`, a finite value, or an infinity. */
  datatype Number = NaN | Finite(value: real) | Infinite(negative: bool)

  /** The characters `parseFloat` skips at the start: ECMAScript's
      `WhiteSpace` and `LineTerminator` sets. */
  predicate IsJsWhitespace(c: char)
  {
    c == '\t' || c == '\n' || c == '\U{000B}' || c == '\U{000C}' || c == '\r' || c == ' '
    || c == '\U{00A0}' || c == '\U{1680}' || ('\U{2000}' <= c <= '\U{200A}')
    || c == '\U{2028}' || c == '\U{2029}' || c == '\U{202F}' || c == '\U{205F}'
    || c == '\U{3000}' || c == '\U{FEFF}'
  }

  /** `s` without its leading white space. */
  function TrimStart(s: string): (r: string)
    ensures |r| <= |s| && r == s[|s| - |r|..]
    ensures r == [] || !IsJsWhitespace(r[0])
    ensures forall k :: 0 <= k < |s| - |r| ==> IsJsWhitespace(s[k])
  {
    if s != [] && IsJsWhitespace(s[0]) then TrimStart(s[1..]) else s
  }

  /** The end of the run of decimal digits that starts at `i`. */
  function DigitRun(u: string, i: nat): (j: nat)
    requires i <= |u|
    ensures i <= j <= |u|
    ensures forall k :: i <= k < j ==> IsDigit(u[k])
    ensures j == |u| || !IsDigit(u[j])
    decreases |u| - i
  {
    if i < |u| && IsDigit(u[i]) then DigitRun(u, i + 1) else i
  }

  function Pow10(n: nat): (p: nat)
    ensures p >= 1
  {
    if n == 0 then 1 else 10 * Pow10(n - 1)
  }

  /** `m · 10^e` for an integer `e`. */
  function Scale(m: real, e: int): real
  {
    if e >= 0 then m * Pow10(e) as real else m / Pow10(-e) as real
  }

  /** The exponent part at `j`: `e` or `E`, an optional sign and at least
      one digit; without a digit nothing is consumed and the exponent is 0. */
  function ExponentAt(u: string, j: nat): int
    requires j <= |u|
  {
    if j < |u| && (u[j] == 'e' || u[j] == 'E') then
      var neg := j + 1 < |u| && u[j + 1] == '-';
      var d := if j + 1 < |u| && (u[j + 1] == '+' || u[j + 1] == '-') then j + 2 else j + 1;
      var end := DigitRun(u, d);
      if end == d then 0
      else if neg then -(DigitsValue(u[d..end]) as int)
      else DigitsValue(u[d..end]) as int
    else 0
  }

  /** The sign and the rest of a trimmed string. */
  function Unsigned(t: string): string
  {
    if t != [] && (t[0] == '+' || t[0] == '-') then t[1..] else t
  }

  predicate Negative(t: string)
  {
    t != [] && t[0] == '-'
  }

  function Negate(v: Number): Number
  {
    match v
    case NaN => NaN
    case Finite(x) => Finite(-x)
    case Infinite(n) => Infinite(!n)
  }

  /** The value of the unsigned decimal literal at the start of `u`, or
      `NaN` when there is none. */
  function UnsignedValue(u: string): Number
  {
    if IsPrefix("Infinity", u) then Infinite(false)
    else
      var i := DigitRun(u, 0);
      var hasDot := i < |u| && u[i] == '.';
      var j := if hasDot then DigitRun(u, i + 1) else i;
      var fraction := if hasDot then u[i + 1..j] else [];
      if i == 0 && fraction == [] then NaN
      else Finite(LiteralValue(u[..i], fraction, ExponentAt(u, j)))
  }

  /** The value of `digits.fraction e exponent`. */
  function LiteralValue(digits: string, fraction: string, exponent: int): real
    requires AllDigits(digits) && AllDigits(fraction)
  {
    Scale(DigitsValue(digits) as real + DigitsValue(fraction) as real / Pow10(|fraction|) as real, exponent)
  }

  /** `parseFloat`: `NaN` exactly when, after white space and sign, the
      text does not start like a number. */
  function ParseFloat(s: string): (r: Number)
    ensures r == NaN <==> !StartsNumber(Unsigned(TrimStart(s)))
  {
    UnsignedValueNaNIff(Unsigned(TrimStart(s)));
    var t := TrimStart(s);
    var v := UnsignedValue(Unsigned(t));
    if Negative(t) then Negate(v) else v
  }

  /** What a literal can start with: `Infinity`, a digit, or a point
      followed by a digit. */
  predicate StartsNumber(u: string)
  {
    IsPrefix("Infinity", u) || (u != [] && IsDigit(u[0]))
    || (|u| >= 2 && u[0] == '.' && IsDigit(u[1]))
  }

  /** The literal reader finds no number exactly when the text does not
      start like one. */
  lemma UnsignedValueNaNIff(u: string)
    ensures UnsignedValue(u) == NaN <==> !StartsNumber(u)
  {
    if !IsPrefix("Infinity", u) {
      var i := DigitRun(u, 0);
      if i == 0 && i < |u| && u[i] == '.' {
        var j := DigitRun(u, 1);
        if |u| >= 2 && IsDigit(u[1]) {
          assert j > 1;
          assert u[1..j] != [];
        } else {
          assert j == 1;
        }
      }
    }
  }

  /** Trimming skips any prefix of white space. */
  lemma {:induction false} TrimStartSkips(ws: string, s: string)
    requires forall k :: 0 <= k < |ws| ==> IsJsWhitespace(ws[k])
    ensures TrimStart(ws + s) == TrimStart(s)
    decreases |ws|
  {
    if ws != [] {
      var t := ws + s;
      var tail := ws[1..];
      assert t[0] == ws[0] && IsJsWhitespace(t[0]);
      assert t[1..] == tail + s;
      assert forall k :: 0 <= k < |tail| ==> tail[k] == ws[k + 1];
      TrimStartSkips(tail, s);
      assert TrimStart(t) == TrimStart(t[1..]);
    } else {
      assert ws + s == s;
    }
  }

  /** Leading white space never changes the result. */
  lemma ParseFloatSkipsWhitespace(ws: string, s: string)
    requires forall k :: 0 <= k < |ws| ==> IsJsWhitespace(ws[k])
    ensures ParseFloat(ws + s) == ParseFloat(s)
  {
    TrimStartSkips(ws, s);
  }

  /** A character that ends a literal of bare digits. */
  predicate EndsDigits(c: char)
  {
    !IsDigit(c) && c != '.' && c != 'e' && c != 'E'
  }

  /** A run of digits followed by text that cannot continue the literal
      reads as the integer the digits denote; the rest is ignored. */
  lemma ParseFloatOfDigits(d: string, rest: string)
    requires d != [] && AllDigits(d)
    requires rest == [] || EndsDigits(rest[0])
    ensures ParseFloat(d + rest) == Finite(DigitsValue(d) as real)
  {
    var u := d + rest;
    assert u[0] == d[0];
    DigitStartIsPlain(u);
    UnsignedValueOfDigits(d, rest);
  }

  /** Text starting with a digit has no leading white space and no sign. */
  lemma DigitStartIsPlain(u: string)
    requires u != [] && IsDigit(u[0])
    ensures TrimStart(u) == u && Unsigned(u) == u && !Negative(u)
  {
    assert !IsJsWhitespace(u[0]);
  }

  lemma UnsignedValueOfDigits(d: string, rest: string)
    requires d != [] && AllDigits(d)
    requires rest == [] || EndsDigits(rest[0])
    ensures UnsignedValue(d + rest) == Finite(DigitsValue(d) as real)
  {
    var u := d + rest;
    assert u[0] == d[0];
    NotInfinity(u);
    DigitRunOver(d, rest);
    var i := |d|;
    assert i < |u| ==> u[i] == rest[0];
    assert !(i < |u| && u[i] == '.');
    assert u[..i] == d;
    assert ExponentAt(u, i) == 0;
    LiteralOfDigits(d);
    assert UnsignedValue(u) == Finite(LiteralValue(d, [], 0));
  }

  lemma LiteralOfDigits(d: string)
    requires AllDigits(d)
    ensures LiteralValue(d, [], 0) == DigitsValue(d) as real
  {
    assert DigitsValue([]) == 0;
    assert Pow10(0) == 1;
  }

  /** Text starting with a digit is not `Infinity`. */
  lemma NotInfinity(u: string)
    requires u != [] && IsDigit(u[0])
    ensures !IsPrefix("Infinity", u)
  {
    assert "Infinity"[0] == 'I';
    if |u| >= 8 {
      assert u[..8][0] == u[0];
    }
  }

  lemma DigitRunOver(d: string, rest: string)
    requires AllDigits(d)
    requires rest == [] || EndsDigits(rest[0])
    ensures DigitRun(d + rest, 0) == |d|
  {
    var u := d + rest;
    assert forall k :: 0 <= k < |d| ==> u[k] == d[k];
    assert forall k :: 0 <= k < |d| ==> IsDigit(u[k]);
    assert |d| < |u| ==> u[|d|] == rest[0] && !IsDigit(u[|d|]);
  }
}
