/**
 * The editor's linter (src/services/linter.ts): friendly texts for the
 * parsing library's lexing and parsing errors, and `lint`, which is
 * `interpret` in lint mode.
 *
 * The library's errors are given here by the fields the formatters read:
 * the `name` and `message` strings (a missing one reads as "") and
 * whether a `token` is attached.  Regular-expression matches are written
 * out as a leftmost search over start positions.
 */
module Linter {
  import opened Wrappers
  import opened Chars
  import opened Lexing
  import opened SceneLexer
  import opened Interpreter
  import opened Interpretation

  const StraySpace: string := "It looks like there's a stray space here. Please remove it."
  const UnrecognizedSymbol: string :=
    "There's an unrecognized symbol or character in your code that doesn't belong. Please review the line for errors."
  const Incomplete: string := "This part of the code is incomplete. Please check for missing values or commas."
  const GenericSyntax: string := "There is a syntax error here. Please check the structure of your code."

  function InvalidCharacter(c: char): string
  {
    "The character '" + [c] + "' is not valid here. Please check for typos or misplaced symbols."
  }

  function ExpectedFound(expected: string, found: string): string
  {
    "Syntax error: Expected a " + expected + " but found '" + found + "' instead."
  }

  // ----- formatLexerErrorMessage -----

  const CharOpen: string := "unexpected character: ->"
  const CharClose: string := "<-"

  /** `/unexpected character: ->(.)<-/` matches at `i`. */
  predicate CharPatternAt(m: string, i: nat)
  {
    && Literal(m, i, CharOpen) > 0
    && i + |CharOpen| < |m| && !IsLineTerminator(m[i + |CharOpen|])
    && Literal(m, i + |CharOpen| + 1, CharClose) > 0
  }

  /** The leftmost position at or after `i` where the pattern matches. */
  function CharSearch(m: string, i: nat): (r: Option<nat>)
    ensures r.Some? ==> i <= r.value && CharPatternAt(m, r.value)
    ensures r.Some? ==> forall j :: i <= j < r.value ==> !CharPatternAt(m, j)
    ensures r.None? ==> forall j :: i <= j ==> !CharPatternAt(m, j)
    decreases |m| - i
  {
    if CharPatternAt(m, i) then Some(i)
    else if i >= |m| then None
    else CharSearch(m, i + 1)
  }

  /** `formatLexerErrorMessage`: the character the library's message names, if it names one. */
  function FormatLexerErrorMessage(message: string): (r: string)
  {
    match CharSearch(message, 0)
    case None => UnrecognizedSymbol
    case Some(i) =>
      var c := message[i + |CharOpen|];
      if c == ' ' then StraySpace else InvalidCharacter(c)
  }

  /**
   * The text depends only on the character captured at the leftmost
   * match: a space gives the stray-space text, any other character is
   * quoted, and a message without a match gives the generic text.
   */
  lemma LexerMessageOfMatch(before: string, c: char, after: string)
    requires forall j :: 0 <= j < |before| ==> !CharPatternAt(before + CharOpen + [c] + CharClose + after, j)
    requires !IsLineTerminator(c)
    ensures var r := FormatLexerErrorMessage(before + CharOpen + [c] + CharClose + after);
      r == if c == ' ' then StraySpace else InvalidCharacter(c)
  {
    var m := before + CharOpen + [c] + CharClose + after;
    var i := |before|;
    assert m[i..i + |CharOpen|] == CharOpen;
    assert m[i + |CharOpen|] == c;
    assert m[i + |CharOpen| + 1..i + |CharOpen| + 1 + |CharClose|] == CharClose;
    assert CharPatternAt(m, i);
    var r := CharSearch(m, 0);
    assert r.Some? && r.value == i;
  }

  /** Without a match anywhere the generic text is given, and only then. */
  lemma LexerMessageGeneric(message: string)
    ensures FormatLexerErrorMessage(message) == UnrecognizedSymbol <==> forall j :: !CharPatternAt(message, j)
  {
    match CharSearch(message, 0)
    case None =>
    case Some(i) =>
      var c := message[i + |CharOpen|];
      if c != ' ' {
        assert InvalidCharacter(c)[15] == c;
        assert UnrecognizedSymbol[15] != c || InvalidCharacter(c) != UnrecognizedSymbol;
      }
  }

  // ----- formatParserErrorMessage -----

  /** The fields of a parsing error that the formatter reads. */
  datatype ErrorInfo = ErrorInfo(name: string, message: string, hasToken: bool)

  const MismatchOpen: string := "Expecting token of type --> "
  const MismatchMiddle: string := " <-- but found --> '"
  const MismatchClose: string := "' <--"

  /** Length of the run of word characters (`\w`) at `i`. */
  function WordRun(m: string, i: nat): (n: nat)
    ensures i + n <= |m| || n == 0
    ensures forall k :: i <= k < i + n ==> IsWordChar(m[k])
    decreases |m| - i
  {
    if i < |m| && IsWordChar(m[i]) then 1 + WordRun(m, i + 1) else 0
  }

  /** Length of the run of characters other than `'` (`[^']`) at `i`. */
  function QuoteFreeRun(m: string, i: nat): (n: nat)
    ensures i + n <= |m| || n == 0
    ensures forall k :: i <= k < i + n ==> m[k] != '\''
    decreases |m| - i
  {
    if i < |m| && m[i] != '\'' then 1 + QuoteFreeRun(m, i + 1) else 0
  }

  /**
   * The two groups of
   * `/Expecting token of type --> (\w+) <-- but found --> '([^']*)' <--/`
   * when it matches at `i`.  Each group is a maximal run, so the match at
   * a given start is unique.
   */
  function MismatchAt(m: string, i: nat): (r: Option<(string, string)>)
    ensures r.Some? ==> |r.value.0| > 0 && AllWordChars(r.value.0)
    ensures r.Some? ==> forall k :: 0 <= k < |r.value.1| ==> r.value.1[k] != '\''
  {
    GroupsAt(m, i, MismatchOpen, MismatchMiddle, MismatchClose)
  }

  /** The same pattern with its three literal parts as parameters. */
  function GroupsAt(m: string, i: nat, open: string, middle: string, close: string): (r: Option<(string, string)>)
    ensures r.Some? ==> |r.value.0| > 0 && AllWordChars(r.value.0)
    ensures r.Some? ==> forall k :: 0 <= k < |r.value.1| ==> r.value.1[k] != '\''
  {
    if Literal(m, i, open) == 0 then None
    else
      var a := i + |open|;
      var w := WordRun(m, a);
      if w == 0 || Literal(m, a + w, middle) == 0 then None
      else
        var b := a + w + |middle|;
        var q := QuoteFreeRun(m, b);
        if Literal(m, b + q, close) == 0 then None
        else Some((m[a..a + w], m[b..b + q]))
  }

  /** The leftmost position at or after `i` where the pattern matches. */
  function GroupsSearch(m: string, i: nat, open: string, middle: string, close: string): (r: Option<nat>)
    requires open != []
    ensures r.Some? ==> i <= r.value && GroupsAt(m, r.value, open, middle, close).Some?
    ensures r.Some? ==> forall j :: i <= j < r.value ==> GroupsAt(m, j, open, middle, close).None?
    ensures r.None? ==> forall j :: i <= j ==> GroupsAt(m, j, open, middle, close).None?
    decreases |m| - i
  {
    if GroupsAt(m, i, open, middle, close).Some? then Some(i)
    else if i >= |m| then None
    else GroupsSearch(m, i + 1, open, middle, close)
  }

  /** The position of the first `-->` in `s`, or `|s|`. */
  function ArrowIndex(s: string): (n: nat)
    ensures n <= |s|
    ensures n < |s| ==> n + 3 <= |s| && s[n..n + 3] == "-->"
    ensures forall j :: 0 <= j < n ==> Literal(s, j, "-->") == 0
  {
    if |s| < 3 then |s|
    else if s[..3] == "-->" then 0
    else
      var k := ArrowIndex(s[1..]);
      assert forall j :: 1 <= j < k + 1 ==> Literal(s, j, "-->") == Literal(s[1..], j - 1, "-->") by {
        forall j | 1 <= j < k + 1 ensures Literal(s, j, "-->") == Literal(s[1..], j - 1, "-->") {
          if j + 3 <= |s| { assert s[j..j + 3] == s[1..][j - 1..j + 2]; }
        }
      }
      if k < |s| - 1 then
        assert s[k + 1..k + 4] == s[1..][k..k + 3];
        k + 1
      else |s|
  }

  /** `message.split('-->')[0]`: the text before the first `-->`. */
  function BeforeArrow(s: string): (r: string)
    ensures r <= s
    ensures r == s || (|r| + 3 <= |s| && s[|r|..|r| + 3] == "-->")
    ensures forall j :: 0 <= j < |r| ==> Literal(s, j, "-->") == 0
  {
    s[..ArrowIndex(s)]
  }

  /**
   * The groups of the library's mismatch text, taken at its leftmost
   * match, when the error is a mismatch.
   */
  function MismatchGroups(e: ErrorInfo): (r: Option<(string, string)>)
    ensures r.Some? ==> e.name == "MismatchedTokenException"
    ensures r.Some? ==> exists j :: MismatchAt(e.message, j) == r
    ensures r.None? && e.name == "MismatchedTokenException" ==> forall j :: MismatchAt(e.message, j).None?
  {
    if e.name != "MismatchedTokenException" then None
    else
      match GroupsSearch(e.message, 0, MismatchOpen, MismatchMiddle, MismatchClose)
      case None => None
      case Some(j) => MismatchAt(e.message, j)
  }

  /** `formatParserErrorMessage`. */
  function FormatParserErrorMessage(e: ErrorInfo): (r: string)
  {
    var groups := MismatchGroups(e);
    if e.name == "NoViableAltException" then Incomplete
    else if groups.Some? then ExpectedFound(groups.value.0, groups.value.1)
    else if e.hasToken then e.message
    else
      var cleaned := Trim(BeforeArrow(e.message));
      if cleaned != [] then cleaned else GenericSyntax
  }

  /** An unviable alternative is reported as incomplete code. */
  lemma NoViableIsIncomplete(message: string, hasToken: bool)
    ensures FormatParserErrorMessage(ErrorInfo("NoViableAltException", message, hasToken)) == Incomplete
  {
  }

  /**
   * A mismatch whose message has the library's shape names what was
   * expected and what was found, read at the leftmost match: a text
   * before it that holds no match does not change the outcome.
   */
  lemma MismatchNamesBoth(before: string, x: string, y: string, after: string, hasToken: bool)
    requires |x| > 0 && AllWordChars(x) && forall k :: 0 <= k < |y| ==> y[k] != '\''
    requires forall j :: 0 <= j < |before| ==> MismatchAt(before + MismatchOpen + x + MismatchMiddle + y + MismatchClose + after, j).None?
    ensures FormatParserErrorMessage(ErrorInfo("MismatchedTokenException",
              before + MismatchOpen + x + MismatchMiddle + y + MismatchClose + after, hasToken)) == ExpectedFound(x, y)
  {
    var m := before + MismatchOpen + x + MismatchMiddle + y + MismatchClose + after;
    forall j | 0 <= j < |before| ensures GroupsAt(m, j, MismatchOpen, MismatchMiddle, MismatchClose).None? {
      assert MismatchAt(m, j).None?;
    }
    GroupsLeftmost(before, x, y, after, MismatchOpen, MismatchMiddle, MismatchClose);
  }

  /** The leftmost match of the pattern is the one the text was built around. */
  lemma GroupsLeftmost(before: string, x: string, y: string, after: string, open: string, middle: string, close: string)
    requires open != [] && middle != [] && !IsWordChar(middle[0]) && close != [] && close[0] == '\''
    requires |x| > 0 && AllWordChars(x) && forall k :: 0 <= k < |y| ==> y[k] != '\''
    requires forall j :: 0 <= j < |before| ==> GroupsAt(before + open + x + middle + y + close + after, j, open, middle, close).None?
    ensures var m := before + open + x + middle + y + close + after;
      GroupsSearch(m, 0, open, middle, close) == Some(|before|) && GroupsAt(m, |before|, open, middle, close) == Some((x, y))
  {
    var m := before + open + x + middle + y + close + after;
    FivePieces(before, open, x, middle, y, close, after);
    GroupsAtPieces(m, |before|, x, y, open, middle, close);
  }

  /** Where each piece of a concatenation sits. */
  lemma FivePieces(before: string, p1: string, p2: string, p3: string, p4: string, p5: string, after: string)
    ensures var m := before + p1 + p2 + p3 + p4 + p5 + after;
      var i := |before|;
      && i + |p1| + |p2| + |p3| + |p4| + |p5| <= |m|
      && m[i..i + |p1|] == p1 && m[i + |p1|..i + |p1| + |p2|] == p2
      && m[i + |p1| + |p2|..i + |p1| + |p2| + |p3|] == p3
      && m[i + |p1| + |p2| + |p3|..i + |p1| + |p2| + |p3| + |p4|] == p4
      && m[i + |p1| + |p2| + |p3| + |p4|..i + |p1| + |p2| + |p3| + |p4| + |p5|] == p5
  {
  }

  /** The match at `i` when the pieces are there. */
  lemma GroupsAtPieces(m: string, i: nat, x: string, y: string, open: string, middle: string, close: string)
    requires open != [] && middle != [] && !IsWordChar(middle[0]) && close != [] && close[0] == '\''
    requires |x| > 0 && AllWordChars(x) && forall k :: 0 <= k < |y| ==> y[k] != '\''
    requires i + |open| + |x| + |middle| + |y| + |close| <= |m|
    requires m[i..i + |open|] == open
    requires m[i + |open|..i + |open| + |x|] == x
    requires m[i + |open| + |x|..i + |open| + |x| + |middle|] == middle
    requires m[i + |open| + |x| + |middle|..i + |open| + |x| + |middle| + |y|] == y
    requires m[i + |open| + |x| + |middle| + |y|..i + |open| + |x| + |middle| + |y| + |close|] == close
    ensures GroupsAt(m, i, open, middle, close) == Some((x, y))
  {
    var a := i + |open|;
    var b := a + |x| + |middle|;
    assert m[a + |x|] == middle[0];
    WordRunIs(m, a, x, middle[0]);
    assert m[b + |y|] == close[0];
    QuoteRunIs(m, b, y);
    assert Literal(m, i, open) != 0 && Literal(m, a + |x|, middle) != 0 && Literal(m, b + |y|, close) != 0;
    GroupsAtOf(m, i, open, middle, close, x, y);
  }

  /** The match at `i` when each part is found with the given group lengths. */
  lemma GroupsAtOf(m: string, i: nat, open: string, middle: string, close: string, x: string, y: string)
    requires Literal(m, i, open) != 0 && |x| > 0 && WordRun(m, i + |open|) == |x|
    requires Literal(m, i + |open| + |x|, middle) != 0 && QuoteFreeRun(m, i + |open| + |x| + |middle|) == |y|
    requires Literal(m, i + |open| + |x| + |middle| + |y|, close) != 0
    requires m[i + |open|..i + |open| + |x|] == x && m[i + |open| + |x| + |middle|..i + |open| + |x| + |middle| + |y|] == y
    ensures GroupsAt(m, i, open, middle, close) == Some((x, y))
  {
  }

  lemma WordRunIs(m: string, a: nat, x: string, stop: char)
    requires a + |x| < |m| && m[a..a + |x|] == x && AllWordChars(x) && m[a + |x|] == stop && !IsWordChar(stop)
    ensures WordRun(m, a) == |x|
    decreases |x|
  {
    if x != [] {
      assert m[a + 1..a + 1 + |x[1..]|] == x[1..];
      WordRunIs(m, a + 1, x[1..], stop);
    }
  }

  lemma QuoteRunIs(m: string, b: nat, y: string)
    requires b + |y| < |m| && m[b..b + |y|] == y && m[b + |y|] == '\''
    requires forall k :: 0 <= k < |y| ==> y[k] != '\''
    ensures QuoteFreeRun(m, b) == |y|
    decreases |y|
  {
    if y != [] {
      assert m[b + 1..b + 1 + |y[1..]|] == y[1..];
      QuoteRunIs(m, b + 1, y[1..]);
    }
  }

  /**
   * Any other error: one with a token keeps its message; one without
   * keeps the trimmed text before the first `-->`, or gets the generic
   * text when that is blank.
   */
  lemma OtherErrorMessage(e: ErrorInfo)
    requires e.name != "NoViableAltException"
    requires e.name != "MismatchedTokenException" || forall j :: MismatchAt(e.message, j).None?
    ensures e.hasToken ==> FormatParserErrorMessage(e) == e.message
    ensures !e.hasToken && (forall k :: 0 <= k < |BeforeArrow(e.message)| ==> IsSpace(BeforeArrow(e.message)[k])) ==>
      FormatParserErrorMessage(e) == GenericSyntax
    ensures !e.hasToken && (exists k :: 0 <= k < |BeforeArrow(e.message)| && !IsSpace(BeforeArrow(e.message)[k])) ==>
      FormatParserErrorMessage(e) == Trim(BeforeArrow(e.message))
  {
    assert MismatchGroups(e).None?;
  }

  // ----- lint -----

  /**
   * `lint(text)`: `interpret(text, 'lint')`'s four collections.  It
   * throws only what lint-mode `interpret` throws, which is `JSON.parse`'s
   * error.
   */
  method LintText(parser: ObjectParser, text: string) returns (r: Result<Interpreted, Failure>)
    modifies parser
    ensures parser.tokens == LexScene(text).tokens
    ensures r == Outcome(Lint, LexScene(text).errors, Grammar(parser.tokens), parser.objects, parser.semanticErrors)
    ensures r.Err? <==> Grammar(LexScene(text).tokens).Some? && Grammar(LexScene(text).tokens).value.JsonThrow?
    ensures r.Err? ==> r.error.JsonFailure?
    ensures r.Ok? ==> r.value.lexErrors == LexScene(text).errors && |r.value.parseErrors| <= 1
    ensures r.Ok? ==> (r.value.parseErrors == [] <==> Grammar(LexScene(text).tokens).None?)
  {
    var result, halt := Interpret(parser, text, Lint);
    r := result;
  }
}
