/**
 * The token set of the scene language (src/services/instructions/
 * interpreter.ts, the `createToken` calls and `AllTokens`), run through
 * the first-match lexer.
 */
module SceneLexer {
  import opened Wrappers
  import opened Chars
  import opened Values
  import opened Lexing

  datatype SceneToken =
    | WhiteSpace | ExclamationPoint | As | Child | SetKeyword | To | AnyText | Comma
    | LeftParentheses | RightParentheses | Colon | Identifier | NumberToken | StringToken

  /** `AllTokens`, the order in which patterns are tried. */
  const SceneOrder: seq<SceneToken> := [WhiteSpace, ExclamationPoint, As, Child, SetKeyword, To, AnyText, Comma,
                                        LeftParentheses, RightParentheses, Colon, Identifier, NumberToken, StringToken]

  /** The token type's `name`. */
  function TokenName(k: SceneToken): string
  {
    match k
    case WhiteSpace => "WhiteSpace"
    case ExclamationPoint => "ExclamationPoint"
    case As => "As"
    case Child => "Child"
    case SetKeyword => "Set"
    case To => "To"
    case AnyText => "Any"
    case Comma => "Comma"
    case LeftParentheses => "LeftParentheses"
    case RightParentheses => "RightParentheses"
    case Colon => "Colon"
    case Identifier => "Identifier"
    case NumberToken => "Number"
    case StringToken => "String"
  }

  predicate IsStringChar(c: char) { IsLetter(c) || IsDigit(c) || c == '_' || c == '-' }

  /** `/-?[0-9]+(.[0-9]+)?/`: the `.` is unescaped, so any character but a line terminator may join two digit runs. */
  function NumberLength(t: string, i: nat): nat
  {
    var s := if i < |t| && t[i] == '-' then 1 else 0;
    var d1 := Run(t, i + s, IsDigit);
    var j := i + s + d1;
    if d1 == 0 then 0
    else if j + 1 < |t| && !IsLineTerminator(t[j]) && IsDigit(t[j + 1]) then s + d1 + 1 + Run(t, j + 1, IsDigit)
    else s + d1
  }

  /** `/'[^']*'/`. */
  function AnyLength(t: string, i: nat): nat
  {
    if i < |t| && t[i] == '\'' then
      var k := Run(t, i + 1, c => c != '\'');
      if i + 1 + k < |t| then k + 2 else 0
    else 0
  }

  /** `/"[a-zA-Z0-9_-]*"/`. */
  function StringLength(t: string, i: nat): nat
  {
    if i < |t| && t[i] == '"' then
      var k := Run(t, i + 1, IsStringChar);
      if i + 1 + k < |t| && t[i + 1 + k] == '"' then k + 2 else 0
    else 0
  }

  /** `/[a-zA-Z_]+[0-9]*\/`. */
  function IdentifierLength(t: string, i: nat): nat
  {
    var a := Run(t, i, IsIdentStart);
    if a == 0 then 0 else a + Run(t, i + a, IsDigit)
  }

  /** How many characters each pattern matches at `i` (0 for no match). */
  function PatternLength(k: SceneToken, t: string, i: nat): nat
  {
    match k
    case WhiteSpace => Run(t, i, IsSpace)
    case ExclamationPoint => Literal(t, i, "!")
    case As => LiteralIgnoreCase(t, i, "as")
    case Child => LiteralIgnoreCase(t, i, "CHILD")
    case SetKeyword => LiteralIgnoreCase(t, i, "SET")
    case To => LiteralIgnoreCase(t, i, "TO")
    case AnyText => AnyLength(t, i)
    case Comma => Literal(t, i, ",")
    case LeftParentheses => Literal(t, i, "(")
    case RightParentheses => Literal(t, i, ")")
    case Colon => Literal(t, i, ":")
    case Identifier => IdentifierLength(t, i)
    case NumberToken => NumberLength(t, i)
    case StringToken => StringLength(t, i)
  }

  /** The `SKIPPED` group: white space is matched but produces no token. */
  predicate Skipped(k: SceneToken) { k == WhiteSpace }

  /** `ObjectLexer.tokenize(t)`: white space is skipped. */
  function LexScene(t: string): (r: Lexed<SceneToken>)
    ensures forall k :: 0 <= k < |r.tokens| ==> r.tokens[k].kind != WhiteSpace
    ensures Lexes(SceneOrder, PatternLength, Skipped, t, 0, r)
  {
    ScanLexes(SceneOrder, PatternLength, Skipped, t, 0);
    Tokenize(SceneOrder, PatternLength, Skipped, t)
  }

  /** The scene lexing is the one result whose tokens and errors tile the whole text. */
  lemma LexSceneCovers(t: string, r: Lexed<SceneToken>)
    ensures Covers(SceneOrder, PatternLength, Skipped, t, 0, r) <==> r == LexScene(t)
  {
    CoversIff(SceneOrder, PatternLength, Skipped, t, 0, r);
  }

  /** The pattern that decides the token at `i`. */
  function SceneMatch(t: string, i: nat): Option<(SceneToken, nat)>
  {
    FirstMatch(SceneOrder, PatternLength, t, i)
  }

  // ----- what the pattern order implies -----

  lemma {:induction false} FirstMatchAfter(order: seq<SceneToken>, t: string, i: nat, k: SceneToken, n: nat, before: seq<SceneToken>)
    requires n > 0 && i + n <= |t| && PatternLength(k, t, i) == n
    requires |before| < |order| && order[..|before|] == before && order[|before|] == k
    requires forall b :: b in before ==> PatternLength(b, t, i) == 0
    ensures FirstMatch(order, PatternLength, t, i) == Some((k, n))
    decreases |before|
  {
    if before != [] {
      assert order[0] == before[0];
      assert order[1..][..|before| - 1] == before[1..];
      FirstMatchAfter(order[1..], t, i, k, n, before[1..]);
    }
  }

  /** A keyword pattern does not match where the text starts with another letter. */
  lemma OtherInitial(t: string, i: nat, w: string)
    requires i < |t| && w != [] && Lower(t[i]) != Lower(w[0])
    ensures LiteralIgnoreCase(t, i, w) == 0
  {
    if i + |w| <= |t| {
      assert LowerStr(t[i..i + |w|])[0] == Lower(t[i]) != LowerStr(w)[0];
    }
  }

  /** Where the text starts with a letter, white space and `!` do not match. */
  lemma LetterInitial(t: string, i: nat)
    requires i < |t| && ('a' <= Lower(t[i]) <= 'z')
    ensures PatternLength(WhiteSpace, t, i) == 0 && PatternLength(ExclamationPoint, t, i) == 0
  {
    assert !IsSpace(t[i]);
    assert t[i..i + 1][0] == t[i] != '!';
  }

  /**
   * A word that starts with `as` in any case lexes as the keyword `As`
   * followed by the rest, so `ascend` is the two tokens `as`, `cend`.
   */
  lemma KeywordAsSplits(t: string, i: nat)
    requires i + 2 <= |t| && EqualsIgnoreCase(t[i..i + 2], "as")
    ensures SceneMatch(t, i) == Some((As, 2))
  {
    assert LowerStr(t[i..i + 2])[0] == 'a';
    assert Lower(t[i]) == 'a';
    assert t[i] == 'a' || t[i] == 'A';
    assert PatternLength(As, t, i) == 2;
    LetterInitial(t, i);
    assert SceneOrder[..2] == [WhiteSpace, ExclamationPoint];
    FirstMatchAfter(SceneOrder, t, i, As, 2, [WhiteSpace, ExclamationPoint]);
  }

  /** Likewise `CHILD`, `SET` and `TO` win over `Identifier`: `settings` is `set`, `tings`. */
  lemma KeywordSetSplits(t: string, i: nat)
    requires i + 3 <= |t| && EqualsIgnoreCase(t[i..i + 3], "SET")
    ensures SceneMatch(t, i) == Some((SetKeyword, 3))
  {
    assert LowerStr(t[i..i + 3])[0] == 's';
    assert t[i] == 's' || t[i] == 'S';
    assert PatternLength(SetKeyword, t, i) == 3;
    LetterInitial(t, i);
    OtherInitial(t, i, "as");
    OtherInitial(t, i, "CHILD");
    assert SceneOrder[..4] == [WhiteSpace, ExclamationPoint, As, Child];
    FirstMatchAfter(SceneOrder, t, i, SetKeyword, 3, [WhiteSpace, ExclamationPoint, As, Child]);
  }

  lemma KeywordToSplits(t: string, i: nat)
    requires i + 2 <= |t| && EqualsIgnoreCase(t[i..i + 2], "TO")
    ensures SceneMatch(t, i) == Some((To, 2))
  {
    assert LowerStr(t[i..i + 2])[0] == 't';
    assert t[i] == 't' || t[i] == 'T';
    assert PatternLength(To, t, i) == 2;
    LetterInitial(t, i);
    OtherInitial(t, i, "as");
    OtherInitial(t, i, "CHILD");
    OtherInitial(t, i, "SET");
    assert SceneOrder[..5] == [WhiteSpace, ExclamationPoint, As, Child, SetKeyword];
    FirstMatchAfter(SceneOrder, t, i, To, 2, [WhiteSpace, ExclamationPoint, As, Child, SetKeyword]);
  }

  lemma KeywordChildSplits(t: string, i: nat)
    requires i + 5 <= |t| && EqualsIgnoreCase(t[i..i + 5], "CHILD")
    ensures SceneMatch(t, i) == Some((Child, 5))
  {
    assert LowerStr(t[i..i + 5])[0] == 'c';
    assert t[i] == 'c' || t[i] == 'C';
    assert PatternLength(Child, t, i) == 5;
    LetterInitial(t, i);
    OtherInitial(t, i, "as");
    assert SceneOrder[..3] == [WhiteSpace, ExclamationPoint, As];
    FirstMatchAfter(SceneOrder, t, i, Child, 5, [WhiteSpace, ExclamationPoint, As]);
  }

  /** No keyword pattern matches at `i`. */
  predicate NoKeywordAt(t: string, i: nat)
  {
    LiteralIgnoreCase(t, i, "as") == 0 && LiteralIgnoreCase(t, i, "CHILD") == 0
    && LiteralIgnoreCase(t, i, "SET") == 0 && LiteralIgnoreCase(t, i, "TO") == 0
  }

  /** At a letter or `_` where no keyword matches, the Identifier pattern decides. */
  lemma IdentifierTokenAt(t: string, i: nat)
    requires i < |t| && IsIdentStart(t[i]) && NoKeywordAt(t, i)
    ensures SceneMatch(t, i) == Some((Identifier, IdentifierLength(t, i)))
  {
    assert !IsSpace(t[i]);
    assert t[i..i + 1][0] == t[i];
    assert SceneOrder[..11] == [WhiteSpace, ExclamationPoint, As, Child, SetKeyword, To, AnyText, Comma,
                                LeftParentheses, RightParentheses, Colon];
    FirstMatchAfter(SceneOrder, t, i, Identifier, IdentifierLength(t, i), SceneOrder[..11]);
  }

  /**
   * A token that is directly followed by an identifier-initial character
   * where no keyword matches lexes as two tokens: itself, then the
   * identifier that runs on from it.  With `KeywordAsSplits` and its
   * siblings this splits a keyword-initial word in two.
   */
  lemma TokenThenIdentifier(t: string, i: nat, k: SceneToken, n: nat, m: nat)
    requires SceneMatch(t, i) == Some((k, n)) && k != WhiteSpace
    requires i + n < |t| && IsIdentStart(t[i + n]) && NoKeywordAt(t, i + n) && m == IdentifierLength(t, i + n)
    ensures var rest := Scan(SceneOrder, PatternLength, Skipped, t, i + n + m);
            Scan(SceneOrder, PatternLength, Skipped, t, i)
              == Lexed([Token(k, t[i..i + n], i), Token(Identifier, t[i + n..i + n + m], i + n)] + rest.tokens, rest.errors)
  {
    IdentifierTokenAt(t, i + n);
    ScanEmitsTwo(SceneOrder, PatternLength, Skipped, t, i, k, n, Identifier, m);
  }

  /** Letters and `_` up to the end of the text form one identifier. */
  lemma IdentifierToEnd(t: string, i: nat)
    requires i < |t| && forall k :: i <= k < |t| ==> IsIdentStart(t[k])
    ensures IdentifierLength(t, i) == |t| - i
  {
    RunToEnd(t, i, IsIdentStart);
    assert Run(t, |t|, IsDigit) == 0;
  }

  /** `TwoTokensToEnd` for the scene patterns. */
  lemma TwoSceneTokens(t: string, k: SceneToken, n: nat)
    requires n < |t| && FirstMatch(SceneOrder, PatternLength, t, 0) == Some((k, n)) && k != WhiteSpace
    requires FirstMatch(SceneOrder, PatternLength, t, n) == Some((Identifier, |t| - n))
    ensures Tokenize(SceneOrder, PatternLength, Skipped, t) == Lexed([Token(k, t[0..n], 0), Token(Identifier, t[n..|t|], n)], [])
  {
    TwoTokensToEnd(SceneOrder, PatternLength, Skipped, t, k, n, Identifier);
  }

  /** `LexScene` is the tokenizer on the scene patterns. */
  lemma LexSceneOfTokenized(t: string, r: Lexed<SceneToken>)
    requires Tokenize(SceneOrder, PatternLength, Skipped, t) == r
    ensures LexScene(t) == r
  {
  }

  /**
   * A text that is one word, a token (a keyword, by `KeywordAsSplits` and
   * its siblings) followed by an identifier that runs to the end, lexes as
   * exactly those two tokens and no error.
   */
  lemma KeywordWordSplits(t: string, k: SceneToken, n: nat)
    requires SceneMatch(t, 0) == Some((k, n)) && k != WhiteSpace
    requires n < |t| && SceneMatch(t, n) == Some((Identifier, |t| - n))
    ensures LexScene(t) == Lexed([Token(k, t[0..n], 0), Token(Identifier, t[n..|t|], n)], [])
  {
    TwoSceneTokens(t, k, n);
    LexSceneOfTokenized(t, Lexed([Token(k, t[0..n], 0), Token(Identifier, t[n..|t|], n)], []));
  }

  /** In `ascend` the Identifier pattern takes `cend`, since no keyword starts there. */
  lemma AscendRest(t: string)
    requires |t| == 6 && t[0..2] == "as" && t[2..6] == "cend"
    ensures SceneMatch(t, 2) == Some((Identifier, 4))
  {
    OtherInitial(t, 2, "as");
    OtherInitial(t, 2, "SET");
    OtherInitial(t, 2, "TO");
    assert forall j :: 2 <= j < |t| ==> t[j] == t[2..6][j - 2];
    assert forall j :: 2 <= j < |t| ==> IsIdentStart(t[j]);
    IdentifierToEnd(t, 2);
    IdentifierTokenAt(t, 2);
  }

  /** The text `ascend` is the keyword `as` followed by the identifier `cend`. */
  lemma AscendLexes(t: string)
    requires |t| == 6 && t[0..2] == "as" && t[2..6] == "cend"
    ensures LexScene(t) == Lexed([Token(As, "as", 0), Token(Identifier, "cend", 2)], [])
  {
    AscendRest(t);
    KeywordAsSplits(t, 0);
    KeywordWordSplits(t, As, 2);
  }

  /**
   * At a digit or a minus sign the Number pattern decides: digits, then
   * (when it is followed by a digit) any character but a line terminator,
   * then more digits, all form one token; so `1x5` and `10 20` are single
   * Number tokens.
   */
  lemma NumberTokenAt(t: string, i: nat)
    requires i < |t| && (IsDigit(t[i]) || (t[i] == '-' && i + 1 < |t| && IsDigit(t[i + 1])))
    ensures SceneMatch(t, i) == Some((NumberToken, NumberLength(t, i)))
  {
    var n := NumberLength(t, i);
    assert n > 0;
    SymbolsFail(t, i);
    NotKeyword(t, i, "as");
    NotKeyword(t, i, "CHILD");
    NotKeyword(t, i, "SET");
    NotKeyword(t, i, "TO");
    assert !IsIdentStart(t[i]);
    FirstMatchAfter(SceneOrder, t, i, NumberToken, n, SceneOrder[..12]);
  }

  /** The one-character patterns, white space and quoted text cannot match at a digit or a minus sign. */
  lemma SymbolsFail(t: string, i: nat)
    requires i < |t| && (IsDigit(t[i]) || t[i] == '-')
    ensures Run(t, i, IsSpace) == 0 && AnyLength(t, i) == 0
    ensures Literal(t, i, "!") == 0 && Literal(t, i, ",") == 0 && Literal(t, i, "(") == 0
    ensures Literal(t, i, ")") == 0 && Literal(t, i, ":") == 0
  {
    assert !IsSpace(t[i]);
  }

  /** A keyword cannot match where the text does not start with a letter. */
  lemma NotKeyword(t: string, i: nat, w: string)
    requires i < |t| && !IsLetter(t[i]) && |w| > 0 && IsLetter(w[0])
    ensures LiteralIgnoreCase(t, i, w) == 0
  {
  }

  /** An `Identifier` token's text is `[a-zA-Z_]+[0-9]*`, so it holds only word characters. */
  lemma IdentifierIsWord(order: seq<SceneToken>, t: string, tok: Token<SceneToken>)
    requires TokenAt(order, PatternLength, t, tok) && tok.kind == Identifier
    ensures AllWordChars(tok.image) && |tok.image| > 0
  {
    var i := tok.offset;
    MatchedLength(order, PatternLength, t, i, Identifier, |tok.image|);
    assert IdentifierLength(t, i) == |tok.image|;
    var a := Run(t, i, IsIdentStart);
    forall k | 0 <= k < |tok.image| ensures IsWordChar(tok.image[k]) {
      assert tok.image[k] == t[i + k];
      if k >= a { assert IsDigit(t[i + k]); }
    }
  }

  /** Every identifier the lexer produces is made of word characters. */
  lemma LexedIdentifiersAreWords(t: string)
    ensures forall k :: 0 <= k < |LexScene(t).tokens| && LexScene(t).tokens[k].kind == Identifier ==>
              AllWordChars(LexScene(t).tokens[k].image)
  {
    var toks := LexScene(t).tokens;
    forall k | 0 <= k < |toks| && toks[k].kind == Identifier ensures AllWordChars(toks[k].image) {
      IdentifierIsWord(SceneOrder, t, toks[k]);
    }
  }
}
