/**
 * The first-match lexer every grammar of the application uses (the
 * scene language and the five modifier languages).  Token patterns are
 * tried in their listed order at the current offset and the first one
 * that matches a non-empty prefix wins; it is not a longest-match lexer.
 * Skipped kinds (white space) produce no token.  Where no pattern
 * matches, characters are dropped until one does, and the dropped run is
 * reported as one error.
 */
module Lexing {
  import opened Wrappers
  import opened Chars

  datatype Token<T> = Token(kind: T, image: string, offset: nat)

  /** `length` characters starting at `offset` matched no pattern and were dropped. */
  datatype LexError = LexError(offset: nat, length: nat)

  datatype Lexed<T> = Lexed(tokens: seq<Token<T>>, errors: seq<LexError>)

  /** Length of the longest run of characters satisfying `p` that starts at `i`. */
  function Run(t: string, i: nat, p: char -> bool): (n: nat)
    ensures i + n <= |t| || (i >= |t| && n == 0)
    ensures forall k :: i <= k < i + n ==> p(t[k])
    ensures i + n < |t| ==> !p(t[i + n])
    decreases |t| - i
  {
    if i < |t| && p(t[i]) then 1 + Run(t, i + 1, p) else 0
  }

  /** `|w|` when `t[i..]` starts with `w`, else 0. */
  function Literal(t: string, i: nat, w: string): (n: nat)
    ensures n == 0 || (n == |w| && i + n <= |t| && t[i..i + n] == w)
  {
    if i + |w| <= |t| && t[i..i + |w|] == w then |w| else 0
  }

  /** `|w|` when `t[i..]` starts with `w` up to the case of ASCII letters (a regular expression with the `i` flag), else 0. */
  function LiteralIgnoreCase(t: string, i: nat, w: string): (n: nat)
    ensures n == 0 || (n == |w| && i + n <= |t| && EqualsIgnoreCase(t[i..i + n], w))
  {
    if i + |w| <= |t| && EqualsIgnoreCase(t[i..i + |w|], w) then |w| else 0
  }

  /** A run is empty where its first character fails the test. */
  lemma RunStopsAt(t: string, i: nat, p: char -> bool)
    requires i < |t| && !p(t[i])
    ensures Run(t, i, p) == 0
  {
  }

  /** A run over characters that all pass the test reaches the end of the text. */
  lemma {:induction false} RunToEnd(t: string, i: nat, p: char -> bool)
    requires i <= |t| && forall k :: i <= k < |t| ==> p(t[k])
    ensures Run(t, i, p) == |t| - i
    decreases |t| - i
  {
    if i < |t| { RunToEnd(t, i + 1, p); }
  }

  /** A literal does not match where the text starts with another character. */
  lemma LiteralNeedsFirst(t: string, i: nat, w: string)
    requires i < |t| && w != [] && t[i] != w[0]
    ensures Literal(t, i, w) == 0
  {
    if i + |w| <= |t| {
      assert t[i..i + |w|][0] == t[i];
    }
  }

  /** A pattern's match length, cut to 0 when it would run past the text. */
  function Bounded<T>(len: (T, string, nat) -> nat, k: T, t: string, i: nat): (n: nat)
    ensures i + n <= |t| || n == 0
  {
    var n := len(k, t, i);
    if i + n <= |t| then n else 0
  }

  /**
   * The first kind in `order` whose pattern matches a non-empty prefix of
   * `t[i..]`, with the matched length.
   */
  function FirstMatch<T(==)>(order: seq<T>, len: (T, string, nat) -> nat, t: string, i: nat): (r: Option<(T, nat)>)
    ensures r.Some? ==> r.value.0 in order && 0 < r.value.1 && i + r.value.1 <= |t|
    ensures r.Some? ==> r.value.1 == Bounded(len, r.value.0, t, i)
    ensures r.None? <==> forall k :: k in order ==> Bounded(len, k, t, i) == 0
  {
    if order == [] then None
    else
      var n := Bounded(len, order[0], t, i);
      if n > 0 then Some((order[0], n))
      else
        var r := FirstMatch(order[1..], len, t, i);
        assert forall k :: k in order ==> k == order[0] || k in order[1..];
        r
  }

  /** The first offset at or after `j` where some pattern matches, or the end of the text. */
  function Resync<T(==)>(order: seq<T>, len: (T, string, nat) -> nat, t: string, j: nat): (r: nat)
    requires j <= |t|
    ensures j <= r <= |t|
    ensures r < |t| ==> FirstMatch(order, len, t, r).Some?
    ensures forall m :: j <= m < r ==> FirstMatch(order, len, t, m).None?
    decreases |t| - j
  {
    if j == |t| || FirstMatch(order, len, t, j).Some? then j else Resync(order, len, t, j + 1)
  }

  /** Tokens and errors of `t[i..]`. */
  function Scan<T(==)>(order: seq<T>, len: (T, string, nat) -> nat, skip: T -> bool, t: string, i: nat): Lexed<T>
    decreases |t| - i
  {
    if i >= |t| then Lexed([], [])
    else
      match FirstMatch(order, len, t, i)
      case Some((k, n)) =>
        var rest := Scan(order, len, skip, t, i + n);
        if skip(k) then rest else Lexed([Token(k, t[i..i + n], i)] + rest.tokens, rest.errors)
      case None =>
        var j := Resync(order, len, t, i + 1);
        var rest := Scan(order, len, skip, t, j);
        Lexed(rest.tokens, [LexError(i, j - i)] + rest.errors)
  }

  /**
   * What a lexing of `t[i..]` guarantees: every token is the first match at
   * its offset and not a skipped kind, tokens come in increasing offset
   * order, every error is a maximal unmatched run, and all lie at or after `i`.
   */
  predicate Lexes<T(==)>(order: seq<T>, len: (T, string, nat) -> nat, skip: T -> bool, t: string, i: nat, r: Lexed<T>)
  {
    && (forall k :: 0 <= k < |r.tokens| ==> TokenAt(order, len, t, r.tokens[k]) && !skip(r.tokens[k].kind))
    && (forall k :: 0 <= k < |r.tokens| ==> i <= r.tokens[k].offset)
    && (forall k, m :: 0 <= k < m < |r.tokens| ==> r.tokens[k].offset < r.tokens[m].offset)
    && (forall k :: 0 <= k < |r.errors| ==> ErrorAt(order, len, t, r.errors[k]) && i <= r.errors[k].offset)
  }

  lemma LexesLater<T>(order: seq<T>, len: (T, string, nat) -> nat, skip: T -> bool, t: string, i: nat, j: nat, r: Lexed<T>)
    requires i <= j && Lexes(order, len, skip, t, j, r)
    ensures Lexes(order, len, skip, t, i, r)
  {
  }

  lemma PrependToken<T>(order: seq<T>, len: (T, string, nat) -> nat, skip: T -> bool, t: string, i: nat, k: T, n: nat,
                            rest: Lexed<T>)
    requires i < |t| && FirstMatch(order, len, t, i) == Some((k, n)) && !skip(k)
    requires Lexes(order, len, skip, t, i + n, rest)
    ensures Lexes(order, len, skip, t, i, Lexed([Token(k, t[i..i + n], i)] + rest.tokens, rest.errors))
  {
    var toks := [Token(k, t[i..i + n], i)] + rest.tokens;
    assert TokenAt(order, len, t, toks[0]);
    forall a | 0 < a < |toks| ensures toks[a] == rest.tokens[a - 1] {
    }
  }

  lemma PrependError<T>(order: seq<T>, len: (T, string, nat) -> nat, skip: T -> bool, t: string, i: nat, j: nat,
                            rest: Lexed<T>)
    requires i < |t| && FirstMatch(order, len, t, i).None? && j == Resync(order, len, t, i + 1)
    requires Lexes(order, len, skip, t, j, rest)
    ensures Lexes(order, len, skip, t, i, Lexed(rest.tokens, [LexError(i, j - i)] + rest.errors))
  {
    var errs := [LexError(i, j - i)] + rest.errors;
    DroppedRun(order, len, t, i, j);
    forall a | 0 < a < |errs| ensures errs[a] == rest.errors[a - 1] {
    }
  }

  /** Soundness of the lexer: every token and error `Scan` reports is one the patterns justify. */
  lemma {:induction false} ScanLexes<T>(order: seq<T>, len: (T, string, nat) -> nat, skip: T -> bool, t: string, i: nat)
    ensures Lexes(order, len, skip, t, i, Scan(order, len, skip, t, i))
    decreases |t| - i
  {
    if i >= |t| {
      ScanAtEnd(order, len, skip, t, i);
    } else {
      match FirstMatch(order, len, t, i)
      case Some((k, n)) =>
        ScanLexes(order, len, skip, t, i + n);
        if skip(k) {
          PassLexes(order, len, skip, t, i, k, n);
        } else {
          EmitLexes(order, len, skip, t, i, k, n);
        }
      case None =>
        var j := Resync(order, len, t, i + 1);
        ScanLexes(order, len, skip, t, j);
        DropLexes(order, len, skip, t, i, j);
    }
  }

  lemma PassLexes<T>(order: seq<T>, len: (T, string, nat) -> nat, skip: T -> bool, t: string, i: nat, k: T, n: nat)
    requires i < |t| && FirstMatch(order, len, t, i) == Some((k, n)) && skip(k)
    requires Lexes(order, len, skip, t, i + n, Scan(order, len, skip, t, i + n))
    ensures Lexes(order, len, skip, t, i, Scan(order, len, skip, t, i))
  {
    ScanPasses(order, len, skip, t, i, k, n);
    LexesLater(order, len, skip, t, i, i + n, Scan(order, len, skip, t, i + n));
  }

  lemma EmitLexes<T>(order: seq<T>, len: (T, string, nat) -> nat, skip: T -> bool, t: string, i: nat, k: T, n: nat)
    requires i < |t| && FirstMatch(order, len, t, i) == Some((k, n)) && !skip(k)
    requires Lexes(order, len, skip, t, i + n, Scan(order, len, skip, t, i + n))
    ensures Lexes(order, len, skip, t, i, Scan(order, len, skip, t, i))
  {
    ScanEmits(order, len, skip, t, i, k, n);
    PrependToken(order, len, skip, t, i, k, n, Scan(order, len, skip, t, i + n));
  }

  lemma DropLexes<T>(order: seq<T>, len: (T, string, nat) -> nat, skip: T -> bool, t: string, i: nat, j: nat)
    requires i < |t| && FirstMatch(order, len, t, i).None? && j == Resync(order, len, t, i + 1)
    requires Lexes(order, len, skip, t, j, Scan(order, len, skip, t, j))
    ensures Lexes(order, len, skip, t, i, Scan(order, len, skip, t, i))
  {
    ScanDrops(order, len, skip, t, i, j);
    PrependError(order, len, skip, t, i, j, Scan(order, len, skip, t, j));
  }

  lemma DroppedRun<T>(order: seq<T>, len: (T, string, nat) -> nat, t: string, i: nat, j: nat)
    requires i < |t| && FirstMatch(order, len, t, i).None? && j == Resync(order, len, t, i + 1)
    ensures ErrorAt(order, len, t, LexError(i, j - i))
  {
    UnmatchedRun(order, len, t, i, j);
  }

  lemma UnmatchedRun<T>(order: seq<T>, len: (T, string, nat) -> nat, t: string, i: nat, j: nat)
    requires i < j <= |t| && FirstMatch(order, len, t, i).None?
    requires forall m :: i + 1 <= m < j ==> FirstMatch(order, len, t, m).None?
    requires j < |t| ==> FirstMatch(order, len, t, j).Some?
    ensures ErrorAt(order, len, t, LexError(i, j - i))
  {
  }

  // ----- coverage: the pieces of a lexing tile the text -----

  /**
   * One stretch of the text as the lexer consumes it: an emitted token, a
   * match of a skipped kind, or a dropped run.
   */
  datatype Piece<T> = Emitted(token: Token<T>) | Passed(kind: T, offset: nat, length: nat) | Dropped(error: LexError)

  function PieceStart<T>(p: Piece<T>): nat
  {
    match p
    case Emitted(tok) => tok.offset
    case Passed(_, o, _) => o
    case Dropped(e) => e.offset
  }

  function PieceEnd<T>(p: Piece<T>): nat
  {
    match p
    case Emitted(tok) => tok.offset + |tok.image|
    case Passed(_, o, n) => o + n
    case Dropped(e) => e.offset + e.length
  }

  /** Each kind of piece is what the lexer does at its start. */
  predicate PieceAt<T(==)>(order: seq<T>, len: (T, string, nat) -> nat, skip: T -> bool, t: string, p: Piece<T>)
  {
    match p
    case Emitted(tok) => TokenAt(order, len, t, tok) && !skip(tok.kind)
    case Passed(k, o, n) => skip(k) && FirstMatch(order, len, t, o) == Some((k, n))
    case Dropped(e) => ErrorAt(order, len, t, e)
  }

  /**
   * `ps` consumes `t[i..]` exactly: the first piece starts at `i`, each
   * next one where the previous ends, and the last ends at the end of `t`.
   */
  predicate Tiles<T(==)>(order: seq<T>, len: (T, string, nat) -> nat, skip: T -> bool, t: string, i: nat, ps: seq<Piece<T>>)
    decreases |ps|
  {
    if ps == [] then i >= |t|
    else PieceStart(ps[0]) == i && PieceAt(order, len, skip, t, ps[0])
         && Tiles(order, len, skip, t, PieceEnd(ps[0]), ps[1..])
  }

  /** The tokens among the pieces, in order. */
  function TokensOf<T>(ps: seq<Piece<T>>): seq<Token<T>>
  {
    if ps == [] then [] else (if ps[0].Emitted? then [ps[0].token] else []) + TokensOf(ps[1..])
  }

  /** The dropped runs among the pieces, in order. */
  function ErrorsOf<T>(ps: seq<Piece<T>>): seq<LexError>
  {
    if ps == [] then [] else (if ps[0].Dropped? then [ps[0].error] else []) + ErrorsOf(ps[1..])
  }

  /**
   * The coverage half of a lexing: `r`'s tokens and errors are those of a
   * tiling of `t[i..]`, so nothing of the text is left unaccounted for and
   * the only stretches between them are matches of skipped kinds.
   */
  ghost predicate Covers<T(!new)>(order: seq<T>, len: (T, string, nat) -> nat, skip: T -> bool, t: string, i: nat, r: Lexed<T>)
  {
    exists ps :: Tiles(order, len, skip, t, i, ps) && TokensOf(ps) == r.tokens && ErrorsOf(ps) == r.errors
  }

  lemma CoverEnd<T(!new)>(order: seq<T>, len: (T, string, nat) -> nat, skip: T -> bool, t: string, i: nat)
    requires i >= |t|
    ensures Covers(order, len, skip, t, i, Lexed([], []))
  {
    var ps: seq<Piece<T>> := [];
    assert Tiles(order, len, skip, t, i, ps);
  }

  /** A kept first match in front of a covered rest is covered, with its token in front. */
  lemma CoverToken<T(!new)>(order: seq<T>, len: (T, string, nat) -> nat, skip: T -> bool, t: string, tok: Token<T>, rest: Lexed<T>)
    requires TokenAt(order, len, t, tok) && !skip(tok.kind)
    requires Covers(order, len, skip, t, tok.offset + |tok.image|, rest)
    ensures Covers(order, len, skip, t, tok.offset, Lexed([tok] + rest.tokens, rest.errors))
  {
    var ps :| Tiles(order, len, skip, t, tok.offset + |tok.image|, ps) && TokensOf(ps) == rest.tokens && ErrorsOf(ps) == rest.errors;
    var qs := [Emitted(tok)] + ps;
    assert qs[1..] == ps;
    assert Tiles(order, len, skip, t, tok.offset, qs);
    assert TokensOf(qs) == [tok] + rest.tokens && ErrorsOf(qs) == rest.errors;
  }

  /** A skipped first match in front of a covered rest is covered by the same lexing. */
  lemma CoverPassed<T(!new)>(order: seq<T>, len: (T, string, nat) -> nat, skip: T -> bool, t: string, k: T, i: nat, n: nat,
                             rest: Lexed<T>)
    requires skip(k) && FirstMatch(order, len, t, i) == Some((k, n)) && Covers(order, len, skip, t, i + n, rest)
    ensures Covers(order, len, skip, t, i, rest)
  {
    var ps :| Tiles(order, len, skip, t, i + n, ps) && TokensOf(ps) == rest.tokens && ErrorsOf(ps) == rest.errors;
    var qs := [Passed(k, i, n)] + ps;
    assert qs[1..] == ps;
    assert Tiles(order, len, skip, t, i, qs);
    assert TokensOf(qs) == rest.tokens && ErrorsOf(qs) == rest.errors;
  }

  /** A dropped run in front of a covered rest is covered, with its error in front. */
  lemma CoverDropped<T(!new)>(order: seq<T>, len: (T, string, nat) -> nat, skip: T -> bool, t: string, e: LexError, rest: Lexed<T>)
    requires ErrorAt(order, len, t, e) && Covers(order, len, skip, t, e.offset + e.length, rest)
    ensures Covers(order, len, skip, t, e.offset, Lexed(rest.tokens, [e] + rest.errors))
  {
    var ps :| Tiles(order, len, skip, t, e.offset + e.length, ps) && TokensOf(ps) == rest.tokens && ErrorsOf(ps) == rest.errors;
    var p: Piece<T> := Dropped(e);
    var qs := [p] + ps;
    assert qs[1..] == ps;
    assert Tiles(order, len, skip, t, e.offset, qs);
    assert TokensOf(qs) == rest.tokens && ErrorsOf(qs) == [e] + rest.errors;
  }

  /** Two pieces the lexer could produce at the same offset are the same piece. */
  lemma PieceUnique<T>(order: seq<T>, len: (T, string, nat) -> nat, skip: T -> bool, t: string, p: Piece<T>, q: Piece<T>)
    requires PieceAt(order, len, skip, t, p) && PieceAt(order, len, skip, t, q) && PieceStart(p) == PieceStart(q)
    ensures p == q
  {
    if p.Dropped? && q.Dropped? {
      var o, a, b := p.error.offset, p.error.length, q.error.length;
      // each run stops where the other's next pattern matches
      if o + a < |t| { assert FirstMatch(order, len, t, o + a).Some?; }
      if o + b < |t| { assert FirstMatch(order, len, t, o + b).Some?; }
    }
  }

  /** A text has one tiling from each offset. */
  lemma {:induction false} TilingUnique<T>(order: seq<T>, len: (T, string, nat) -> nat, skip: T -> bool, t: string, i: nat,
                                            ps: seq<Piece<T>>, qs: seq<Piece<T>>)
    requires Tiles(order, len, skip, t, i, ps) && Tiles(order, len, skip, t, i, qs)
    ensures ps == qs
    decreases |ps|
  {
    if ps != [] && qs != [] {
      PieceUnique(order, len, skip, t, ps[0], qs[0]);
      TilingUnique(order, len, skip, t, PieceEnd(ps[0]), ps[1..], qs[1..]);
      assert ps == [ps[0]] + ps[1..] && qs == [qs[0]] + qs[1..];
    }
  }

  /** `Scan`'s tokens and errors come from a tiling of `t[i..]`. */
  lemma {:induction false} ScanCovers<T(!new)>(order: seq<T>, len: (T, string, nat) -> nat, skip: T -> bool, t: string, i: nat)
    ensures Covers(order, len, skip, t, i, Scan(order, len, skip, t, i))
    decreases |t| - i
  {
    if i >= |t| {
      ScanAtEnd(order, len, skip, t, i);
      CoverEnd(order, len, skip, t, i);
    } else {
      match FirstMatch(order, len, t, i)
      case Some((k, n)) =>
        ScanCovers(order, len, skip, t, i + n);
        var rest := Scan(order, len, skip, t, i + n);
        if skip(k) {
          ScanPasses(order, len, skip, t, i, k, n);
          CoverPassed(order, len, skip, t, k, i, n, rest);
        } else {
          ScanEmits(order, len, skip, t, i, k, n);
          CoverToken(order, len, skip, t, Token(k, t[i..i + n], i), rest);
        }
      case None =>
        var j := Resync(order, len, t, i + 1);
        ScanCovers(order, len, skip, t, j);
        DroppedRun(order, len, t, i, j);
        ScanDrops(order, len, skip, t, i, j);
        CoverDropped(order, len, skip, t, LexError(i, j - i), Scan(order, len, skip, t, j));
    }
  }

  /**
   * A lexing covers `t[i..]` exactly when it is `Scan`'s: `Scan` tiles the
   * text, and any result that tiles it has exactly `Scan`'s tokens and errors.
   */
  lemma CoversIff<T(!new)>(order: seq<T>, len: (T, string, nat) -> nat, skip: T -> bool, t: string, i: nat, r: Lexed<T>)
    ensures Covers(order, len, skip, t, i, r) <==> r == Scan(order, len, skip, t, i)
  {
    ScanCovers(order, len, skip, t, i);
    if Covers(order, len, skip, t, i, r) {
      CoveredIsScan(order, len, skip, t, i, r);
    }
  }

  /** Any lexing that covers `t[i..]` has exactly `Scan`'s tokens and errors. */
  lemma CoveredIsScan<T(!new)>(order: seq<T>, len: (T, string, nat) -> nat, skip: T -> bool, t: string, i: nat, r: Lexed<T>)
    requires Covers(order, len, skip, t, i, r)
    ensures r == Scan(order, len, skip, t, i)
  {
    var ps :| Tiles(order, len, skip, t, i, ps) && TokensOf(ps) == r.tokens && ErrorsOf(ps) == r.errors;
    var s := Scan(order, len, skip, t, i);
    ScanCovers(order, len, skip, t, i);
    var qs :| Tiles(order, len, skip, t, i, qs) && TokensOf(qs) == s.tokens && ErrorsOf(qs) == s.errors;
    TilingUnique(order, len, skip, t, i, ps, qs);
  }

  /** `tok` is what the first matching pattern at its offset produces. */
  predicate TokenAt<T(==)>(order: seq<T>, len: (T, string, nat) -> nat, t: string, tok: Token<T>)
  {
    tok.offset < |t| && |tok.image| > 0 && tok.offset + |tok.image| <= |t|
    && tok.image == t[tok.offset..tok.offset + |tok.image|]
    && FirstMatch(order, len, t, tok.offset) == Some((tok.kind, |tok.image|))
  }

  /**
   * No pattern matches anywhere in the dropped run, and one matches right
   * after it unless the text ends there.
   */
  predicate ErrorAt<T(==)>(order: seq<T>, len: (T, string, nat) -> nat, t: string, e: LexError)
  {
    e.length >= 1 && e.offset + e.length <= |t|
    && (forall m :: e.offset <= m < e.offset + e.length ==> FirstMatch(order, len, t, m).None?)
    && (e.offset + e.length < |t| ==> FirstMatch(order, len, t, e.offset + e.length).Some?)
  }

  /** `tokenize(t)`. */
  function Tokenize<T(==)>(order: seq<T>, len: (T, string, nat) -> nat, skip: T -> bool, t: string): Lexed<T>
  {
    Scan(order, len, skip, t, 0)
  }

  /** The lexer's message for an error: the first dropped character, its offset and the run's length. */
  function LexErrorMessage(t: string, e: LexError): string
    requires e.offset < |t|
  {
    "unexpected character: ->" + [t[e.offset]] + "<- at offset: " + NatToString(e.offset)
      + ", skipped " + NatToString(e.length) + " characters."
  }

  /** Where a pattern of a kept kind matches first, its token leads the rest of the lexing. */
  lemma ScanEmits<T>(order: seq<T>, len: (T, string, nat) -> nat, skip: T -> bool, t: string, i: nat, k: T, n: nat)
    requires i < |t| && FirstMatch(order, len, t, i) == Some((k, n)) && !skip(k)
    ensures var rest := Scan(order, len, skip, t, i + n);
            Scan(order, len, skip, t, i) == Lexed([Token(k, t[i..i + n], i)] + rest.tokens, rest.errors)
  {
  }

  /** A skipped first match leaves no token behind. */
  lemma ScanPasses<T>(order: seq<T>, len: (T, string, nat) -> nat, skip: T -> bool, t: string, i: nat, k: T, n: nat)
    requires i < |t| && FirstMatch(order, len, t, i) == Some((k, n)) && skip(k)
    ensures Scan(order, len, skip, t, i) == Scan(order, len, skip, t, i + n)
  {
  }

  /** An offset where nothing matches opens an error running to the next match. */
  lemma ScanDrops<T>(order: seq<T>, len: (T, string, nat) -> nat, skip: T -> bool, t: string, i: nat, j: nat)
    requires i < |t| && FirstMatch(order, len, t, i).None? && j == Resync(order, len, t, i + 1)
    ensures var rest := Scan(order, len, skip, t, j);
            Scan(order, len, skip, t, i) == Lexed(rest.tokens, [LexError(i, j - i)] + rest.errors)
  {
  }

  /** Nothing is left to lex at the end of the text. */
  lemma ScanAtEnd<T>(order: seq<T>, len: (T, string, nat) -> nat, skip: T -> bool, t: string, i: nat)
    requires i >= |t|
    ensures Scan(order, len, skip, t, i) == Lexed([], [])
  {
  }

  /** Two kept first matches in a row lead the lexing as two tokens. */
  lemma ScanEmitsTwo<T>(order: seq<T>, len: (T, string, nat) -> nat, skip: T -> bool, t: string, i: nat,
                        k: T, n: nat, k2: T, m: nat)
    requires i < |t| && FirstMatch(order, len, t, i) == Some((k, n)) && !skip(k)
    requires i + n < |t| && FirstMatch(order, len, t, i + n) == Some((k2, m)) && !skip(k2)
    ensures var rest := Scan(order, len, skip, t, i + n + m);
            Scan(order, len, skip, t, i)
              == Lexed([Token(k, t[i..i + n], i), Token(k2, t[i + n..i + n + m], i + n)] + rest.tokens, rest.errors)
  {
    ScanEmits(order, len, skip, t, i + n, k2, m);
    ScanEmits(order, len, skip, t, i, k, n);
    ConsTwo(Scan(order, len, skip, t, i), Scan(order, len, skip, t, i + n), Scan(order, len, skip, t, i + n + m),
            Token(k, t[i..i + n], i), Token(k2, t[i + n..i + n + m], i + n));
  }

  /** Two tokens put in front one at a time are the pair put in front. */
  lemma ConsTwo<T>(r: Lexed<T>, mid: Lexed<T>, rest: Lexed<T>, a: Token<T>, b: Token<T>)
    requires r == Lexed([a] + mid.tokens, mid.errors) && mid == Lexed([b] + rest.tokens, rest.errors)
    ensures r == Lexed([a, b] + rest.tokens, rest.errors)
  {
    assert [a] + ([b] + rest.tokens) == [a, b] + rest.tokens;
  }

  /** A text made of two kept first matches lexes as exactly those two tokens. */
  lemma TwoTokensToEnd<T>(order: seq<T>, len: (T, string, nat) -> nat, skip: T -> bool, t: string, k: T, n: nat, k2: T)
    requires n < |t| && FirstMatch(order, len, t, 0) == Some((k, n)) && !skip(k)
    requires FirstMatch(order, len, t, n) == Some((k2, |t| - n)) && !skip(k2)
    ensures Tokenize(order, len, skip, t) == Lexed([Token(k, t[0..n], 0), Token(k2, t[n..|t|], n)], [])
  {
    ScanEmitsTwo(order, len, skip, t, 0, k, n, k2, |t| - n);
    ScanAtEnd(order, len, skip, t, |t|);
  }

  /** A text that is one kept first match lexes as exactly that token. */
  lemma OneTokenToEnd<T>(order: seq<T>, len: (T, string, nat) -> nat, skip: T -> bool, t: string, k: T)
    requires 0 < |t| && FirstMatch(order, len, t, 0) == Some((k, |t|)) && !skip(k)
    ensures Tokenize(order, len, skip, t) == Lexed([Token(k, t, 0)], [])
  {
    ScanEmits(order, len, skip, t, 0, k, |t|);
    ScanAtEnd(order, len, skip, t, |t|);
    assert t[0..|t|] == t;
  }

  /** A text on which some pattern matches at every offset lexes without errors. */
  lemma {:induction false} NoErrorsWhenAlwaysMatching<T>(order: seq<T>, len: (T, string, nat) -> nat, skip: T -> bool, t: string, i: nat)
    requires forall m :: i <= m < |t| ==> FirstMatch(order, len, t, m).Some?
    ensures Scan(order, len, skip, t, i).errors == []
    decreases |t| - i
  {
    if i < |t| {
      var k := FirstMatch(order, len, t, i).value;
      NoErrorsWhenAlwaysMatching(order, len, skip, t, i + k.1);
    }
  }

  /** The length a first match reports is what its own pattern matches. */
  lemma MatchedLength<T>(order: seq<T>, len: (T, string, nat) -> nat, t: string, i: nat, k: T, n: nat)
    requires FirstMatch(order, len, t, i) == Some((k, n))
    ensures len(k, t, i) == n
  {
  }
}
