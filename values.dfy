/**
 * Runtime values that scene parameters and object fields hold, and the two
 * number readers the interpreter and the modifiers use: `JSON.parse` on a
 * Number token and `parseFloat` on modifier arguments.  Numbers are exact
 * reals; IEEE rounding, infinities and -0 are not represented.
 */
module Values {
  import opened Wrappers
  import opened Chars

  /** The lexical class of a colour token kept by the Color modifier. */
  datatype ColorKind = Word | Rgb | Hsa | RgbPercent | Grayscale | Hex

  datatype Value =
    | Num(n: real)
    | Str(s: string)
    | ColorTok(kind: ColorKind, image: string)
    | NaN
    | Undefined

  /** Length of the run of decimal digits that starts at `i`. */
  function DigitRun(s: string, i: nat): (n: nat)
    ensures i + n <= |s| || (i > |s| && n == 0)
    ensures forall k :: i <= k < i + n ==> IsDigit(s[k])
    ensures i + n < |s| ==> !IsDigit(s[i + n])
    decreases |s| - i
  {
    if i < |s| && IsDigit(s[i]) then 1 + DigitRun(s, i + 1) else 0
  }

  /** The value of the digits after a decimal point, `0.digits`, one digit at a time. */
  function FracValue(fracDigits: string): (r: real)
    requires AllDigits(fracDigits)
    ensures 0.0 <= r < 1.0
  {
    if fracDigits == [] then 0.0
    else ((fracDigits[0] as int - '0' as int) as real + FracValue(fracDigits[1..])) / 10.0
  }

  /** `int.frac` for two digit strings. */
  function Decimal(intDigits: string, fracDigits: string): (r: real)
    requires AllDigits(intDigits) && AllDigits(fracDigits)
    ensures r >= 0.0
  {
    DigitsValue(intDigits) as real + FracValue(fracDigits)
  }

  /** `m` times ten to the power `e`, or divided by it when the exponent is negative. */
  function Scale(m: real, negativeExponent: bool, e: nat): real
  {
    if e == 0 then m
    else if negativeExponent then Scale(m, true, e - 1) / 10.0
    else Scale(m, false, e - 1) * 10.0
  }

  /**
   * `JSON.parse(s)` where the result is a number: JSON's number grammar
   * `-? (0 | [1-9][0-9]*) (. [0-9]+)? ([eE] [+-]? [0-9]+)?` over the whole
   * text.  `None` is the SyntaxError JSON.parse throws.
   */
  function JsonNumber(s: string): (r: Option<real>)
  {
    if |s| > 0 && s[0] == '-' then
      match JsonUnsigned(s, 1)
      case None => None
      case Some(v) => Some(-v)
    else JsonUnsigned(s, 0)
  }

  /** The integer part at `i` (a lone `0` or digits without a leading zero), then the rest. */
  function JsonUnsigned(s: string, i: nat): Option<real>
    requires i <= |s|
  {
    var d := DigitRun(s, i);
    if d == 0 || (d > 1 && s[i] == '0') then None
    else JsonFraction(s, i + d, DigitsValue(s[i..i + d]) as real)
  }

  /** The optional `. digits` after the integer part, then the exponent part. */
  function JsonFraction(s: string, j: nat, intValue: real): Option<real>
    requires j <= |s|
  {
    if j < |s| && s[j] == '.' then
      var f := DigitRun(s, j + 1);
      if f == 0 then None
      else JsonExponent(s, j + 1 + f, intValue + FracValue(s[j + 1..j + 1 + f]))
    else JsonExponent(s, j, intValue)
  }

  /** The optional `[eE] [+-]? digits` that must end the text. */
  function JsonExponent(s: string, k: nat, m: real): Option<real>
    requires k <= |s|
  {
    if k == |s| then Some(m)
    else if s[k] == 'e' || s[k] == 'E' then
      var signed := k + 1 < |s| && (s[k + 1] == '+' || s[k + 1] == '-');
      var ds := if signed then k + 2 else k + 1;
      var e := DigitRun(s, ds);
      if e == 0 || ds + e != |s| then None
      else Some(Scale(m, signed && s[k + 1] == '-', DigitsValue(s[ds..])))
    else None
  }

  /**
   * What `JSON.parse` makes of an interpreter Number token without a middle
   * character, `-? D1`: it succeeds exactly when D1 has no leading zero.
   */
  lemma JsonNumberOfPlainToken(s: string, neg: bool, d1: string)
    requires |d1| >= 1 && AllDigits(d1)
    requires s == (if neg then "-" else "") + d1
    ensures JsonNumber(s).Some? <==> |d1| == 1 || d1[0] != '0'
    ensures JsonNumber(s).Some? ==>
              JsonNumber(s) == Some(if neg then -(DigitsValue(d1) as real) else DigitsValue(d1) as real)
  {
    var i := if neg then 1 else 0;
    SignThenUnsigned(s, neg, d1);
    UnsignedOfDigits(s, i, d1);
    SignedOutcome(JsonNumber(s), JsonUnsigned(s, i), neg, |d1| == 1 || d1[0] != '0', DigitsValue(d1) as real);
  }

  /** Digits that end the text are an integer unless they have a leading zero. */
  lemma UnsignedOfDigits(s: string, i: nat, d1: string)
    requires |d1| >= 1 && AllDigits(d1) && i <= |s| && s[i..] == d1
    ensures JsonUnsigned(s, i) == if |d1| > 1 && d1[0] == '0' then None else Some(DigitsValue(d1) as real)
  {
    DigitRunStops(s, i, d1);
    assert s[i..i + |d1|] == d1;
    assert s[i] == d1[0];
  }

  /**
   * What `JSON.parse` makes of an interpreter Number token `-? D1 c D2`,
   * where `c` is any character but a digit or a line terminator (the
   * token's `.` is unescaped): it succeeds exactly when D1 has no leading
   * zero and `c` is `.`, `e` or `E`, reading `1.5` as a decimal and `1e5`
   * as a power of ten.
   */
  lemma JsonNumberOfJoinedToken(s: string, neg: bool, d1: string, c: char, d2: string)
    requires |d1| >= 1 && AllDigits(d1) && |d2| >= 1 && AllDigits(d2) && !IsDigit(c)
    requires s == (if neg then "-" else "") + d1 + [c] + d2
    ensures JsonNumber(s).Some? <==> (|d1| == 1 || d1[0] != '0') && (c == '.' || c == 'e' || c == 'E')
    ensures JsonNumber(s).Some? ==>
              var m := if c == '.' then Decimal(d1, d2) else Scale(DigitsValue(d1) as real, false, DigitsValue(d2));
              JsonNumber(s) == Some(if neg then -m else m)
  {
    var tail := d1 + [c] + d2;
    assert tail[0] == d1[0];
    if neg {
      SignThenUnsigned(s, true, tail);
      SignedJoined(s, 1, true, d1, c, d2);
    } else {
      SignThenUnsigned(s, false, tail);
      SignedJoined(s, 0, false, d1, c, d2);
    }
  }

  lemma SignedJoined(s: string, i: nat, neg: bool, d1: string, c: char, d2: string)
    requires |d1| >= 1 && AllDigits(d1) && |d2| >= 1 && AllDigits(d2) && !IsDigit(c)
    requires i == (if neg then 1 else 0) && i <= |s| && s[i..] == d1 + [c] + d2
    requires JsonNumber(s) == if neg then Negated(JsonUnsigned(s, 1)) else JsonUnsigned(s, 0)
    ensures JsonNumber(s).Some? <==> (|d1| == 1 || d1[0] != '0') && (c == '.' || c == 'e' || c == 'E')
    ensures JsonNumber(s).Some? ==>
              var m := if c == '.' then Decimal(d1, d2) else Scale(DigitsValue(d1) as real, false, DigitsValue(d2));
              JsonNumber(s) == Some(if neg then -m else m)
  {
    UnsignedOfJoined(s, i, d1, c, d2);
    var ok := (|d1| == 1 || d1[0] != '0') && (c == '.' || c == 'e' || c == 'E');
    var m := if c == '.' then Decimal(d1, d2) else Scale(DigitsValue(d1) as real, false, DigitsValue(d2));
    SignedOutcome(JsonNumber(s), JsonUnsigned(s, i), neg, ok, m);
  }

  /** A signed reading that succeeds exactly when its unsigned part does. */
  lemma SignedOutcome(r: Option<real>, u: Option<real>, neg: bool, ok: bool, m: real)
    requires r == (if neg then Negated(u) else u)
    requires u == if ok then Some(m) else None
    ensures r.Some? <==> ok
    ensures r.Some? ==> r == Some(if neg then -m else m)
  {
  }

  /** `JSON.parse` on an optional minus sign followed by text that starts with a digit. */
  lemma SignThenUnsigned(s: string, neg: bool, rest: string)
    requires rest != [] && IsDigit(rest[0])
    requires s == (if neg then "-" else "") + rest
    ensures s[if neg then 1 else 0..] == rest
    ensures JsonNumber(s) == if neg then Negated(JsonUnsigned(s, 1)) else JsonUnsigned(s, 0)
  {
    if neg {
      assert s[1..] == rest;
    } else {
      assert s[0] == rest[0];
    }
  }

  function Negated(r: Option<real>): (n: Option<real>)
    ensures n.Some? <==> r.Some?
    ensures r.Some? ==> n.value == -r.value
  {
    match r
    case None => None
    case Some(v) => Some(-v)
  }

  lemma UnsignedOfJoined(s: string, i: nat, d1: string, c: char, d2: string)
    requires |d1| >= 1 && AllDigits(d1) && |d2| >= 1 && AllDigits(d2) && !IsDigit(c)
    requires i <= |s| && s[i..] == d1 + [c] + d2
    ensures JsonUnsigned(s, i) ==
              if (|d1| > 1 && d1[0] == '0') || (c != '.' && c != 'e' && c != 'E') then None
              else if c == '.' then Some(Decimal(d1, d2))
              else Some(Scale(DigitsValue(d1) as real, false, DigitsValue(d2)))
  {
    var j := i + |d1|;
    JoinedParts(s, i, j, d1, c, d2);
    IntegerPart(s, i, d1);
    var v := DigitsValue(d1) as real;
    TailOfNumberToken(s, j, c, d1, d2);
    JoinedOutcome(JsonUnsigned(s, i), JsonFraction(s, j, v), |d1| > 1 && d1[0] == '0', c,
                  Decimal(d1, d2), Scale(v, false, DigitsValue(d2)));
  }

  /** The case analysis of a joined token's reading, over its parts' readings. */
  lemma JoinedOutcome(u: Option<real>, f: Option<real>, bad: bool, c: char, dec: real, sc: real)
    requires u == if bad then None else f
    requires c == '.' ==> f == Some(dec)
    requires (c == 'e' || c == 'E') ==> f == Some(sc)
    requires c != '.' && c != 'e' && c != 'E' ==> f == None
    ensures u == if bad || (c != '.' && c != 'e' && c != 'E') then None
                 else if c == '.' then Some(dec)
                 else Some(sc)
  {
  }

  /** The integer part `d1` at `i`, followed by a non-digit, is read whole. */
  lemma IntegerPart(s: string, i: nat, d1: string)
    requires |d1| >= 1 && AllDigits(d1)
    requires i + |d1| < |s| && s[i..i + |d1|] == d1 && !IsDigit(s[i + |d1|])
    ensures JsonUnsigned(s, i) == if |d1| > 1 && d1[0] == '0' then None else JsonFraction(s, i + |d1|, DigitsValue(d1) as real)
  {
    DigitRunStops(s, i, d1);
    UnsignedOfRun(s, i, |d1|);
    assert s[i] == d1[0];
  }

  /** One step of `JsonUnsigned` over a digit run of known length `d`. */
  lemma UnsignedOfRun(s: string, i: nat, d: nat)
    requires d >= 1 && i + d <= |s| && DigitRun(s, i) == d
    ensures JsonUnsigned(s, i) == if d > 1 && s[i] == '0' then None else JsonFraction(s, i + d, DigitsValue(s[i..i + d]) as real)
  {
  }

  /** Where the three parts of a joined token sit in the text. */
  lemma JoinedParts(s: string, i: nat, j: nat, d1: string, c: char, d2: string)
    requires i <= |s| && s[i..] == d1 + [c] + d2 && j == i + |d1|
    ensures j + 1 <= |s| && s[i..j] == d1 && s[j] == c && s[j + 1..] == d2
  {
    assert s[i..][..|d1|] == d1;
    assert s[i..][|d1|] == c;
    assert s[i..][|d1| + 1..] == d2;
  }

  lemma TailOfNumberToken(s: string, j: nat, c: char, d1: string, d2: string)
    requires j + 1 <= |s| && s[j] == c && s[j + 1..] == d2 && |d2| >= 1 && AllDigits(d2) && AllDigits(d1)
    ensures c == '.' ==> JsonFraction(s, j, DigitsValue(d1) as real) == Some(Decimal(d1, d2))
    ensures (c == 'e' || c == 'E') ==>
              JsonFraction(s, j, DigitsValue(d1) as real) == Some(Scale(DigitsValue(d1) as real, false, DigitsValue(d2)))
    ensures c != '.' && c != 'e' && c != 'E' ==> JsonFraction(s, j, DigitsValue(d1) as real) == None
  {
    if c == '.' {
      FractionOfDigits(s, j, d2, DigitsValue(d1) as real);
    } else if c == 'e' || c == 'E' {
      ExponentOfDigits(s, j, d2, DigitsValue(d1) as real);
    }
  }

  lemma FractionOfDigits(s: string, j: nat, d2: string, v: real)
    requires j + 1 <= |s| && s[j] == '.' && s[j + 1..] == d2 && |d2| >= 1 && AllDigits(d2)
    ensures JsonFraction(s, j, v) == Some(v + FracValue(d2))
  {
    DigitRunStops(s, j + 1, d2);
    assert s[j + 1..j + 1 + |d2|] == d2;
  }

  lemma ExponentOfDigits(s: string, k: nat, d2: string, m: real)
    requires k + 1 <= |s| && (s[k] == 'e' || s[k] == 'E') && s[k + 1..] == d2 && |d2| >= 1 && AllDigits(d2)
    ensures JsonExponent(s, k, m) == Some(Scale(m, false, DigitsValue(d2)))
  {
    DigitRunStops(s, k + 1, d2);
    assert !(s[k + 1] == '+' || s[k + 1] == '-') by { assert IsDigit(d2[0]); }
  }

  /**
   * `parseFloat(s)`: skip leading white space, then read the longest prefix
   * that is a decimal literal (`[+-]? digits? (. digits?)? (e [+-]? digits)?`
   * with at least one mantissa digit); `NaN` when there is none.
   */
  function ParseFloat(s: string): (r: Value)
    ensures r.Num? || r.NaN?
  {
    SignedPrefix(s[LeadingSpaces(s)..])
  }

  /** The optional sign, then the unsigned literal. */
  function SignedPrefix(t: string): (r: Value)
    ensures r.Num? || r.NaN?
  {
    var k := if |t| > 0 && (t[0] == '+' || t[0] == '-') then 1 else 0;
    match UnsignedPrefix(t, k)
    case None => NaN
    case Some(v) => Num(if k == 1 && t[0] == '-' then -v else v)
  }

  /** The unsigned decimal literal at the head of `t[k..]`, if there is one. */
  function UnsignedPrefix(t: string, k: nat): (r: Option<real>)
    requires k <= |t|
  {
    var a := DigitRun(t, k);
    var p := k + a;
    var hasDot := p < |t| && t[p] == '.';
    var b := if hasDot then DigitRun(t, p + 1) else 0;
    if a == 0 && b == 0 then None
    else
      var q := if hasDot then p + 1 + b else p;
      var mantissa := Decimal(t[k..p], if hasDot then t[p + 1..q] else "");
      Some(ExponentSuffix(t, q, mantissa))
  }

  /** Apply an exponent part `e [+-]? digits` found at `q`; without one, `m` is unchanged. */
  function ExponentSuffix(t: string, q: nat, m: real): real
    requires q <= |t|
  {
    var hasE := q < |t| && (t[q] == 'e' || t[q] == 'E');
    var signed := hasE && q + 1 < |t| && (t[q + 1] == '+' || t[q + 1] == '-');
    var ds := if signed then q + 2 else q + 1;
    var e := if hasE then DigitRun(t, ds) else 0;
    if e > 0 then Scale(m, signed && t[q + 1] == '-', DigitsValue(t[ds..ds + e])) else m
  }

  /**
   * `parseFloat` reads a Mirror or Fill Number token `-? digits (. digits)?`
   * as its exact decimal value.
   */
  lemma ParseFloatOfNumberToken(s: string, neg: bool, intDigits: string, fracDigits: string)
    requires |intDigits| >= 1 && AllDigits(intDigits) && AllDigits(fracDigits)
    requires s == (if neg then "-" else "") + intDigits + (if fracDigits == [] then "" else "." + fracDigits)
    ensures ParseFloat(s) == Num(if neg then -Decimal(intDigits, fracDigits) else Decimal(intDigits, fracDigits))
  {
    var k := if neg then 1 else 0;
    var rest := intDigits + (if fracDigits == [] then "" else "." + fracDigits);
    assert rest[0] == intDigits[0];
    assert s[k..] == rest;
    UnsignedOfDecimal(s, k, intDigits, fracDigits);
    SignThenPrefix(s, neg, rest, Decimal(intDigits, fracDigits));
  }

  /** `parseFloat` on an optional minus sign followed by text that starts with a digit. */
  lemma SignThenPrefix(s: string, neg: bool, rest: string, v: real)
    requires rest != [] && IsDigit(rest[0])
    requires s == (if neg then "-" else "") + rest
    requires UnsignedPrefix(s, if neg then 1 else 0) == Some(v)
    ensures ParseFloat(s) == Num(if neg then -v else v)
  {
    assert s[0] == (if neg then '-' else rest[0]);
    NoLeadingSpace(s);
    SignedOf(s, if neg then 1 else 0, v);
  }

  lemma NoLeadingSpace(s: string)
    requires s != [] && !IsSpace(s[0])
    ensures ParseFloat(s) == SignedPrefix(s)
  {
    assert s[LeadingSpaces(s)..] == s;
  }

  lemma SignedOf(t: string, k: nat, v: real)
    requires t != [] && k <= 1 && (k == 1 <==> t[0] == '-') && t[0] != '+'
    requires k <= |t| && UnsignedPrefix(t, k) == Some(v)
    ensures SignedPrefix(t) == Num(if k == 1 then -v else v)
  {
  }

  lemma UnsignedOfDecimal(t: string, k: nat, intDigits: string, fracDigits: string)
    requires |intDigits| >= 1 && AllDigits(intDigits) && AllDigits(fracDigits)
    requires k <= |t| && t[k..] == intDigits + (if fracDigits == [] then "" else "." + fracDigits)
    ensures UnsignedPrefix(t, k) == Some(Decimal(intDigits, fracDigits))
  {
    var p := k + |intDigits|;
    assert t[k..p] == intDigits;
    DigitRunStops(t, k, intDigits);
    if fracDigits != [] {
      assert t[p] == '.';
      assert t[p + 1..] == fracDigits;
      DigitRunStops(t, p + 1, fracDigits);
      assert t[p + 1..p + 1 + |fracDigits|] == fracDigits;
      assert p + 1 + |fracDigits| == |t|;
    } else {
      assert p == |t|;
    }
  }

  /** A digit run that is followed by a non-digit or the end. */
  lemma {:induction false} DigitRunStops(s: string, i: nat, ds: string)
    requires i + |ds| <= |s| && s[i..i + |ds|] == ds && AllDigits(ds)
    requires i + |ds| < |s| ==> !IsDigit(s[i + |ds|])
    ensures DigitRun(s, i) == |ds|
    decreases |ds|
  {
    if ds != [] {
      assert s[i + 1..i + 1 + |ds[1..]|] == ds[1..];
      DigitRunStops(s, i + 1, ds[1..]);
    }
  }
}
