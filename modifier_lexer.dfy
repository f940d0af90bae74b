/**
 * The token sets of the five modifier languages
 * (the files under src/services/classes/modifers/), each a list of patterns tried in
 * order by the first-match lexer.
 */
module ModifierLexer {
  import opened Wrappers
  import opened Chars
  import Values
  import opened Lexing

  datatype ModToken =
    // Color
    | ColorWord | Rgb | Hsa | RgbPercent | Grayscale | Hex
    // Flip
    | Direction
    // Mirror and Fill
    | Ident | LetterString | QuotedString | Number | Colon
    // Layer
    | WordRun
    // shared
    | Comma | Space

  /** `[word, RGB, HSA, RGBPercent, Comma, GRAYSCALE, HEX, WS]`. */
  const ColorOrder: seq<ModToken> := [ColorWord, Rgb, Hsa, RgbPercent, Comma, Grayscale, Hex, Space]
  const FlipOrder: seq<ModToken> := [Direction, Space]
  /** Mirror's strings are letters only. */
  const MirrorOrder: seq<ModToken> := [Ident, LetterString, Number, Colon, Comma, Space]
  /** Fill's strings are anything but a double quote. */
  const FillOrder: seq<ModToken> := [Ident, QuotedString, Number, Colon, Comma, Space]
  const LayerOrder: seq<ModToken> := [WordRun, Space]

  /** A decimal byte as the RGB pattern spells it: `0`, or 1–3 digits without a leading zero, at most 255. */
  predicate ByteText(s: string)
  {
    1 <= |s| <= 3 && AllDigits(s) && (s == "0" || s[0] != '0') && DigitsValue(s) <= 255
  }

  /**
   * `\b(N),(N),(N)\b` with N a byte: each group must take its whole digit
   * run (a comma or a word boundary follows it), and the character before
   * the first digit must not be a word character.
   */
  function RgbLength(t: string, i: nat): nat
  {
    if i < |t| && (i == 0 || !IsWordChar(t[i - 1])) then
      var j := i + Run(t, i, IsDigit);
      if j < |t| && t[j] == ',' && ByteText(t[i..j]) then
        var k := j + 1 + Run(t, j + 1, IsDigit);
        if k < |t| && t[k] == ',' && ByteText(t[j + 1..k]) then
          var e := k + 1 + Run(t, k + 1, IsDigit);
          if e <= |t| && ByteText(t[k + 1..e]) && (e == |t| || !IsWordChar(t[e])) then e - i else 0
        else 0
      else 0
    else 0
  }

  /** `[0-9]{1,3},[0-9]{1,3},[0-9]{1,3}`: the last group takes at most three digits. */
  function HsaLength(t: string, i: nat): nat
  {
    var a := Run(t, i, IsDigit);
    var j := i + a;
    if 1 <= a <= 3 && j < |t| && t[j] == ',' then
      var b := Run(t, j + 1, IsDigit);
      var k := j + 1 + b;
      if 1 <= b <= 3 && k < |t| && t[k] == ',' then
        var c := Run(t, k + 1, IsDigit);
        if c >= 1 then (k + 1 - i) + (if c > 3 then 3 else c) else 0
      else 0
    else 0
  }

  /** `[0-9]{1,3}%,[0-9]{1,3}%,[0-9]{1,3}%`. */
  function RgbPercentLength(t: string, i: nat): nat
  {
    var a := Run(t, i, IsDigit);
    var j := i + a;
    if 1 <= a <= 3 && j + 1 < |t| && t[j] == '%' && t[j + 1] == ',' then
      var b := Run(t, j + 2, IsDigit);
      var k := j + 2 + b;
      if 1 <= b <= 3 && k + 1 < |t| && t[k] == '%' && t[k + 1] == ',' then
        var c := Run(t, k + 2, IsDigit);
        var e := k + 2 + c;
        if 1 <= c <= 3 && e < |t| && t[e] == '%' then e + 1 - i else 0
      else 0
    else 0
  }

  /** `#([A-Fa-f0-9]{3,6})`. */
  function HexLength(t: string, i: nat): nat
  {
    if i < |t| && t[i] == '#' then
      var h := Run(t, i + 1, IsHexDigit);
      if h >= 3 then 1 + (if h > 6 then 6 else h) else 0
    else 0
  }

  /** `-?[0-9]+(\.[0-9]+)?` (the dot is escaped here). */
  function DecimalLength(t: string, i: nat): nat
  {
    var s := if i < |t| && t[i] == '-' then 1 else 0;
    var d := Run(t, i + s, IsDigit);
    var j := i + s + d;
    if d == 0 then 0
    else if j + 1 < |t| && t[j] == '.' && IsDigit(t[j + 1]) then s + d + 1 + Run(t, j + 1, IsDigit)
    else s + d
  }

  /** A double-quoted run of characters satisfying `p`, at least `least` of them. */
  function QuotedLength(t: string, i: nat, p: char -> bool, least: nat): nat
  {
    if i < |t| && t[i] == '"' then
      var k := Run(t, i + 1, p);
      if k >= least && i + 1 + k < |t| && t[i + 1 + k] == '"' then k + 2 else 0
    else 0
  }

  /** `[0-9]{1,3}`. */
  function GrayscaleLength(t: string, i: nat): nat
  {
    var d := Run(t, i, IsDigit);
    if d > 3 then 3 else d
  }

  function ModPatternLength(k: ModToken, t: string, i: nat): nat
  {
    match k
    case ColorWord => Run(t, i, IsLetter)
    case Rgb => RgbLength(t, i)
    case Hsa => HsaLength(t, i)
    case RgbPercent => RgbPercentLength(t, i)
    case Grayscale => GrayscaleLength(t, i)
    case Hex => HexLength(t, i)
    case Direction =>
      var h := LiteralIgnoreCase(t, i, "horizontal");
      if h > 0 then h else LiteralIgnoreCase(t, i, "vertical")
    case Ident => Run(t, i, IsIdentStart)
    case LetterString => QuotedLength(t, i, IsLetter, 1)
    case QuotedString => QuotedLength(t, i, c => c != '"', 0)
    case Number => DecimalLength(t, i)
    case Colon => Literal(t, i, ":")
    case WordRun => Run(t, i, IsWordChar)
    case Comma => Literal(t, i, ",")
    case Space => Run(t, i, IsSpace)
  }

  /** Whitespace is matched but produces no token. */
  predicate Skipped(k: ModToken) { k == Space }

  /** The tokens a modifier's lexer yields; its errors are discarded by `parse`. */
  function LexModifier(order: seq<ModToken>, t: string): (r: seq<Token<ModToken>>)
    ensures forall k :: 0 <= k < |r| ==> TokenAt(order, ModPatternLength, t, r[k]) && r[k].kind != Space
    ensures forall k, m :: 0 <= k < m < |r| ==> r[k].offset < r[m].offset
  {
    ScanLexes(order, ModPatternLength, Skipped, t, 0);
    Tokenize(order, ModPatternLength, Skipped, t).tokens
  }

  /** The colour class a Color token kind stands for. */
  function ColorKindOf(k: ModToken): Option<Values.ColorKind>
  {
    match k
    case ColorWord => Some(Values.Word)
    case Rgb => Some(Values.Rgb)
    case Hsa => Some(Values.Hsa)
    case RgbPercent => Some(Values.RgbPercent)
    case Grayscale => Some(Values.Grayscale)
    case Hex => Some(Values.Hex)
    case _ => None
  }

  // ----- token priority of the Color language -----

  lemma {:induction false} FirstMatchAfter(order: seq<ModToken>, t: string, i: nat, k: ModToken, n: nat, before: seq<ModToken>)
    requires n > 0 && i + n <= |t| && ModPatternLength(k, t, i) == n
    requires |before| < |order| && order[..|before|] == before && order[|before|] == k
    requires forall b :: b in before ==> ModPatternLength(b, t, i) == 0
    ensures FirstMatch(order, ModPatternLength, t, i) == Some((k, n))
    decreases |before|
  {
    if before != [] {
      assert order[0] == before[0];
      assert order[1..][..|before| - 1] == before[1..];
      FirstMatchAfter(order[1..], t, i, k, n, before[1..]);
    }
  }

  /** Three bytes separated by commas, standing alone, lex as one RGB token. */
  lemma RgbWins(t: string, i: nat)
    requires RgbLength(t, i) > 0
    ensures FirstMatch(ColorOrder, ModPatternLength, t, i) == Some((Rgb, RgbLength(t, i)))
  {
    assert IsDigit(t[i]);
    FirstMatchAfter(ColorOrder, t, i, Rgb, RgbLength(t, i), [ColorWord]);
  }

  /** Digit triples that are not all bytes fall through to HSA. */
  lemma HsaWhenNotRgb(t: string, i: nat)
    requires RgbLength(t, i) == 0 && HsaLength(t, i) > 0
    ensures FirstMatch(ColorOrder, ModPatternLength, t, i) == Some((Hsa, HsaLength(t, i)))
  {
    assert IsDigit(t[i]);
    FirstMatchAfter(ColorOrder, t, i, Hsa, HsaLength(t, i), [ColorWord, Rgb]);
  }

  /** Where the text starts with a digit, neither a colour word nor a comma matches. */
  lemma DigitInitial(t: string, i: nat)
    requires i < |t| && IsDigit(t[i])
    ensures ModPatternLength(ColorWord, t, i) == 0 && ModPatternLength(Comma, t, i) == 0
  {
    RunStopsAt(t, i, IsLetter);
    LiteralNeedsFirst(t, i, ",");
  }

  /** A digit run with no comma triple after it is a grayscale value of at most three digits. */
  lemma GrayscaleWhenNoTriple(t: string, i: nat)
    requires i < |t| && IsDigit(t[i])
    requires RgbLength(t, i) == 0 && HsaLength(t, i) == 0 && RgbPercentLength(t, i) == 0
    ensures FirstMatch(ColorOrder, ModPatternLength, t, i) == Some((Grayscale, GrayscaleLength(t, i)))
  {
    RunStopsAt(t, i, IsLetter);
    LiteralNeedsFirst(t, i, ",");
    var n := GrayscaleLength(t, i);
    assert n > 0 && i + n <= |t| by { GrayscaleBounds(t, i); }
    GrayscaleAfter(t, i, n);
  }

  /** A grayscale value is one to three digits and stays inside the text. */
  lemma GrayscaleBounds(t: string, i: nat)
    requires i < |t| && IsDigit(t[i])
    ensures 0 < GrayscaleLength(t, i) <= 3 && i + GrayscaleLength(t, i) <= |t|
  {
    assert Run(t, i, IsDigit) == 1 + Run(t, i + 1, IsDigit);
  }

  /** Grayscale wins once the five Color patterns before it are empty. */
  lemma GrayscaleAfter(t: string, i: nat, n: nat)
    requires n > 0 && i + n <= |t| && GrayscaleLength(t, i) == n
    requires Run(t, i, IsLetter) == 0 && RgbLength(t, i) == 0 && HsaLength(t, i) == 0 && RgbPercentLength(t, i) == 0
    requires Literal(t, i, ",") == 0
    ensures FirstMatch(ColorOrder, ModPatternLength, t, i) == Some((Grayscale, n))
  {
    assert ColorOrder[..5] == [ColorWord, Rgb, Hsa, RgbPercent, Comma];
    FirstMatchAfter(ColorOrder, t, i, Grayscale, n, [ColorWord, Rgb, Hsa, RgbPercent, Comma]);
  }

  /** No pattern of `order` matches at `i`. */
  lemma NoMatch(order: seq<ModToken>, t: string, i: nat)
    requires forall k :: k in order ==> ModPatternLength(k, t, i) == 0
    ensures FirstMatch(order, ModPatternLength, t, i).None?
  {
    assert forall k :: k in order ==> Bounded(ModPatternLength, k, t, i) == 0;
  }

  /** The digit patterns need a digit at `i`. */
  lemma NoDigitPatterns(t: string, i: nat)
    requires i < |t| && !IsDigit(t[i])
    ensures RgbLength(t, i) == 0 && HsaLength(t, i) == 0 && RgbPercentLength(t, i) == 0 && GrayscaleLength(t, i) == 0
  {
    assert Run(t, i, IsDigit) == 0;
    assert !ByteText(t[i..i]);
  }

  /** No Color pattern matches when each of them is empty on its own. */
  lemma NoColorMatch(t: string, i: nat)
    requires Run(t, i, IsLetter) == 0 && RgbLength(t, i) == 0 && HsaLength(t, i) == 0 && RgbPercentLength(t, i) == 0
    requires Literal(t, i, ",") == 0 && GrayscaleLength(t, i) == 0 && HexLength(t, i) == 0 && Run(t, i, IsSpace) == 0
    ensures FirstMatch(ColorOrder, ModPatternLength, t, i).None?
  {
    NoMatch(ColorOrder, t, i);
  }

  /** At a character that is no letter, digit, space, comma, `#` or `-`, no Color pattern matches. */
  lemma ColorNoMatchAt(t: string, i: nat)
    requires i < |t| && !IsLetter(t[i]) && !IsDigit(t[i]) && !IsSpace(t[i]) && t[i] != ',' && t[i] != '#'
    ensures FirstMatch(ColorOrder, ModPatternLength, t, i).None?
  {
    NoDigitPatterns(t, i);
    RunStopsAt(t, i, IsLetter);
    RunStopsAt(t, i, IsSpace);
    LiteralNeedsFirst(t, i, ",");
    NoColorMatch(t, i);
  }
}
