/**
 * The editor's suggestion and hover logic (src/services/autocomplete.ts):
 * the word under the cursor, the hover information for a word, the last
 * comma outside parentheses, and the suggestion list for the text before
 * the cursor.  Regular-expression matches are written out as searches
 * whose contracts state the leftmost match the expression finds.
 */
module Autocomplete {
  import opened Wrappers
  import opened Chars
  import opened Kinds
  import opened Params

  // ---------------------------------------------------------------------
  // JavaScript string helpers
  // ---------------------------------------------------------------------

  /** A `slice` bound: negative counts from the end, then clamped to `0..n`. */
  function SliceBound(x: int, n: nat): (r: nat)
    ensures r <= n
    ensures 0 <= x <= n ==> r == x
  {
    if x < 0 then (if n + x < 0 then 0 else n + x) else if x > n then n else x
  }

  /** `s.slice(a, b)`. */
  function Slice(s: string, a: int, b: int): (r: string)
    ensures 0 <= a <= b <= |s| ==> r == s[a..b]
  {
    var from, to := SliceBound(a, |s|), SliceBound(b, |s|);
    if from < to then s[from..to] else []
  }

  /** `pieces.join(c)`. */
  function Join(pieces: seq<string>, c: char): string
    requires |pieces| >= 1
  {
    if |pieces| == 1 then pieces[0] else pieces[0] + [c] + Join(pieces[1..], c)
  }

  /** `s.split(c)` for a one-character separator: never empty, and the pieces joined by `c` give `s` back. */
  function Split(s: string, c: char): (r: seq<string>)
    ensures |r| >= 1
    ensures forall i :: 0 <= i < |r| ==> c !in r[i]
    ensures c !in s ==> r == [s]
    ensures Join(r, c) == s
  {
    var k := IndexOf(s, c);
    if k == -1 then [s] else [s[..k]] + Split(s[k + 1..], c)
  }

  /**
   * `s.trim().split(/\s+/).filter(p => p)`: the maximal runs of non-space
   * characters, in order (`WordsAtSpace` and `WordsOfRun`).
   */
  function Words(s: string): seq<string>
    decreases |s|
  {
    var a := LeadingSpaces(s);
    if a == |s| then []
    else
      var rest := s[a..];
      var e := SpaceFree(rest);
      [rest[..e]] + Words(rest[e..])
  }

  /** Every word is a non-empty run without spaces. */
  lemma {:induction false} WordsAreRuns(s: string)
    ensures forall i :: 0 <= i < |Words(s)| ==> Words(s)[i] != [] && forall j :: 0 <= j < |Words(s)[i]| ==> !IsSpace(Words(s)[i][j])
    decreases |s|
  {
    var a := LeadingSpaces(s);
    if a < |s| {
      var rest := s[a..];
      var e := SpaceFree(rest);
      assert rest[0] == s[a];
      var first, tail := rest[..e], Words(rest[e..]);
      assert Words(s) == [first] + tail;
      WordsAreRuns(rest[e..]);
    }
  }

  /** A text has no words exactly when it is all spaces. */
  lemma WordsNoneWhenBlank(s: string)
    ensures (forall i :: 0 <= i < |s| ==> IsSpace(s[i])) <==> Words(s) == []
  {
    var a := LeadingSpaces(s);
    if a < |s| {
      assert !IsSpace(s[a]);
      var rest := s[a..];
      assert Words(s) == [rest[..SpaceFree(rest)]] + Words(rest[SpaceFree(rest)..]);
    }
  }

  /** Length of the longest prefix of `s` free of spaces. */
  function SpaceFree(s: string): (n: nat)
    ensures n <= |s|
    ensures forall i :: 0 <= i < n ==> !IsSpace(s[i])
    ensures n < |s| ==> IsSpace(s[n])
    ensures s != [] && !IsSpace(s[0]) ==> n > 0
  {
    if s == [] || IsSpace(s[0]) then 0 else 1 + SpaceFree(s[1..])
  }

  /** The space-free prefix of `x + y` runs into `y` only when `x` has no space. */
  lemma {:induction false} SpaceFreeAppend(x: string, y: string)
    ensures SpaceFree(x + y) == if SpaceFree(x) < |x| then SpaceFree(x) else |x| + SpaceFree(y)
    decreases |x|
  {
    if x == [] {
      assert x + y == y;
    } else if IsSpace(x[0]) {
      assert (x + y)[0] == x[0];
    } else {
      assert (x + y)[0] == x[0];
      assert (x + y)[1..] == x[1..] + y;
      SpaceFreeAppend(x[1..], y);
    }
  }

  /** A leading space does not change the words. */
  lemma WordsDropSpace(s: string)
    requires s != [] && IsSpace(s[0])
    ensures Words(s) == Words(s[1..])
  {
    var a := LeadingSpaces(s);
    var t := s[1..];
    assert a == 1 + LeadingSpaces(t);
    if a == |s| {
      assert Words(s) == [] == Words(t);
    } else {
      var rest := s[a..];
      assert rest == t[a - 1..];
      var e := SpaceFree(rest);
      assert Words(s) == [rest[..e]] + Words(rest[e..]);
      assert Words(t) == [rest[..e]] + Words(rest[e..]);
    }
  }

  /** A non-empty run without spaces is one word. */
  lemma WordsOfRun(w: string)
    requires w != [] && forall i :: 0 <= i < |w| ==> !IsSpace(w[i])
    ensures Words(w) == [w]
  {
    assert LeadingSpaces(w) == 0;
    assert w[0..][..SpaceFree(w)] == w;
  }

  /** A non-empty space-free `w` followed by nothing or by a space is the first word of `w + t`. */
  lemma WordsStep(w: string, t: string)
    requires w != [] && (forall i :: 0 <= i < |w| ==> !IsSpace(w[i]))
    requires t == [] || IsSpace(t[0])
    ensures Words(w + t) == [w] + Words(t)
  {
    var s := w + t;
    assert s[0] == w[0];
    SpaceFreeAppend(w, t);
    assert SpaceFree(w) == |w|;
    assert LeadingSpaces(s) == 0;
    assert s[0..] == s && s[..|w|] == w && s[|w|..] == t;
    assert Words(s) == [s[..|w|]] + Words(s[|w|..]);
  }

  /**
   * A space separates words: the words of `a`, a space and `b` are those
   * of `a` followed by those of `b`.  With `WordsOfRun` this fixes every
   * word of a text, in order and with repeats.
   */
  lemma {:induction false} WordsAtSpace(a: string, c: char, b: string)
    requires IsSpace(c)
    ensures Words(a + [c] + b) == Words(a) + Words(b)
    decreases |a|, 3
  {
    var s := a + [c] + b;
    if a == [] {
      assert s == [c] + b;
      WordsDropSpace(s);
      assert s[1..] == b;
      assert Words(a) == [];
    } else if IsSpace(a[0]) {
      assert s[0] == a[0] && s[1..] == a[1..] + [c] + b;
      calc {
        Words(s);
        { WordsDropSpace(s); }
        Words(a[1..] + [c] + b);
        { WordsAtSpace(a[1..], c, b); }
        Words(a[1..]) + Words(b);
        { WordsDropSpace(a); }
        Words(a) + Words(b);
      }
    } else {
      WordsAfterFirst(a, c, b);
    }
  }

  /** `WordsAtSpace` when `a` starts with a word. */
  lemma {:induction false} WordsAfterFirst(a: string, c: char, b: string)
    requires IsSpace(c) && a != [] && !IsSpace(a[0])
    ensures Words(a + [c] + b) == Words(a) + Words(b)
    decreases |a|, 2
  {
    var e := SpaceFree(a);
    var w, t := a[..e], a[e..];
    var u := t + [c] + b;
    assert a == w + t && a + [c] + b == w + u;
    assert forall i :: 0 <= i < |w| ==> !IsSpace(w[i]);
    assert t == [] || IsSpace(t[0]);
    assert IsSpace(u[0]) by {
      if t == [] { assert u[0] == c; } else { assert u[0] == t[0]; }
    }
    WordsStep(w, u);
    WordsStep(w, t);
    WordsRest(t, c, b);
    assert Words(a + [c] + b) == [w] + Words(u);
    assert Words(a) == [w] + Words(t);
    assert Words(u) == Words(t) + Words(b);
    ConcatAssoc([w], Words(t), Words(b));
  }

  lemma ConcatAssoc(x: seq<string>, y: seq<string>, z: seq<string>)
    ensures x + (y + z) == (x + y) + z
  {
  }

  /** `WordsAtSpace` for the text after the first word, which is empty or starts with a space. */
  lemma {:induction false} WordsRest(t: string, c: char, b: string)
    requires IsSpace(c) && (t == [] || IsSpace(t[0]))
    ensures Words(t + [c] + b) == Words(t) + Words(b)
    decreases |t|, 4
  {
    if t == [] {
      assert t + [c] + b == [c] + b && ([c] + b)[1..] == b;
      WordsDropSpace([c] + b);
      assert Words(t) == [];
    } else {
      WordsAtSpace(t, c, b);
    }
  }

  /**
   * Keeps, in order, the entries that start with `prefix` once `fold` is
   * applied to both: each kept entry as often as in `xs`, and the result
   * of a concatenation is the concatenation of the results
   * (`KeepPrefixedAppend`).
   */
  function KeepPrefixed(xs: seq<string>, prefix: string, fold: string -> string): (r: seq<string>)
    ensures forall x :: x in r <==> x in xs && StartsWith(fold(x), fold(prefix))
    ensures forall x :: multiset(r)[x] == if StartsWith(fold(x), fold(prefix)) then multiset(xs)[x] else 0
    ensures |xs| == 1 ==> r == if StartsWith(fold(xs[0]), fold(prefix)) then xs else []
    ensures |r| <= |xs|
  {
    if xs == [] then []
    else
      var rest := KeepPrefixed(xs[1..], prefix, fold);
      assert xs == [xs[0]] + xs[1..];
      if StartsWith(fold(xs[0]), fold(prefix)) then [xs[0]] + rest else rest
  }

  /** When every entry starts with the prefix, the filter keeps the whole list, in order. */
  lemma {:induction false} KeepPrefixedAll(xs: seq<string>, prefix: string, fold: string -> string)
    requires forall i :: 0 <= i < |xs| ==> StartsWith(fold(xs[i]), fold(prefix))
    ensures KeepPrefixed(xs, prefix, fold) == xs
    decreases |xs|
  {
    if xs != [] {
      KeepPrefixedAll(xs[1..], prefix, fold);
      assert xs == [xs[0]] + xs[1..];
    }
  }

  /** Filtering distributes over concatenation, so the kept entries keep their order. */
  lemma {:induction false} KeepPrefixedAppend(xs: seq<string>, ys: seq<string>, prefix: string, fold: string -> string)
    ensures KeepPrefixed(xs + ys, prefix, fold) == KeepPrefixed(xs, prefix, fold) + KeepPrefixed(ys, prefix, fold)
    decreases |xs|
  {
    if xs == [] {
      assert xs + ys == ys;
    } else {
      assert (xs + ys)[0] == xs[0] && (xs + ys)[1..] == xs[1..] + ys;
      KeepPrefixedAppend(xs[1..], ys, prefix, fold);
    }
  }

  /** `xs.filter(s => s.toLowerCase().startsWith(prefix.toLowerCase()))`. */
  function WithPrefixIgnoringCase(xs: seq<string>, prefix: string): (r: seq<string>)
    ensures forall x :: x in r <==> x in xs && StartsWith(LowerStr(x), LowerStr(prefix))
    ensures forall x :: multiset(r)[x] == if StartsWith(LowerStr(x), LowerStr(prefix)) then multiset(xs)[x] else 0
    ensures |xs| == 1 ==> r == if StartsWith(LowerStr(xs[0]), LowerStr(prefix)) then xs else []
    ensures |r| <= |xs|
  {
    KeepPrefixed(xs, prefix, LowerStr)
  }

  /** The case-insensitive filter keeps the order of its input too. */
  lemma WithPrefixAppend(xs: seq<string>, ys: seq<string>, prefix: string)
    ensures WithPrefixIgnoringCase(xs + ys, prefix) == WithPrefixIgnoringCase(xs, prefix) + WithPrefixIgnoringCase(ys, prefix)
  {
    KeepPrefixedAppend(xs, ys, prefix, LowerStr);
  }

  // ---------------------------------------------------------------------
  // Regular expressions over words
  // ---------------------------------------------------------------------

  /** `t.search(/\w+$/)`: where the trailing run of word characters starts, or -1 when there is none. */
  function TrailingWordStart(t: string): (r: int)
    ensures -1 <= r < |t|
    ensures r == -1 <==> t == [] || !IsWordChar(t[|t| - 1])
    ensures r >= 0 ==> AllWordChars(t[r..]) && (r == 0 || !IsWordChar(t[r - 1]))
  {
    if t == [] || !IsWordChar(t[|t| - 1]) then -1
    else
      var init := t[..|t| - 1];
      var p := TrailingWordStart(init);
      if p == -1 then |t| - 1
      else
        assert t[p..] == init[p..] + [t[|t| - 1]];
        assert p > 0 ==> t[p - 1] == init[p - 1];
        p
  }

  /** `t.search(/\W/)`: the first position that is not a word character, or -1. */
  function FirstNonWord(t: string): (r: int)
    ensures -1 <= r < |t|
    ensures r >= 0 ==> !IsWordChar(t[r]) && AllWordChars(t[..r])
    ensures r == -1 ==> AllWordChars(t)
  {
    if t == [] then -1
    else if !IsWordChar(t[0]) then 0
    else
      var k := FirstNonWord(t[1..]);
      if k == -1 then -1
      else
        assert t[..k + 1] == [t[0]] + t[1..][..k];
        k + 1
  }

  /** End of the run of characters satisfying `[a-zA-Z_]` that starts at `i`. */
  function IdentEnd(w: string, i: nat): (e: nat)
    requires i <= |w|
    ensures i <= e <= |w|
    ensures forall j :: i <= j < e ==> IsIdentStart(w[j])
    ensures e < |w| ==> !IsIdentStart(w[e])
    decreases |w| - i
  {
    if i < |w| && IsIdentStart(w[i]) then IdentEnd(w, i + 1) else i
  }

  /** End of the run of digits that starts at `i`. */
  function DigitEnd(w: string, i: nat): (e: nat)
    requires i <= |w|
    ensures i <= e <= |w|
    ensures AllDigits(w[i..e])
    ensures e < |w| ==> !IsDigit(w[e])
    decreases |w| - i
  {
    if i < |w| && IsDigit(w[i]) then DigitEnd(w, i + 1) else i
  }

  /** `/([a-zA-Z_]+)([0-9]+)/` can match at `p`: letters from `p` on, then a digit. */
  predicate VariadicAt(w: string, p: nat)
  {
    p < |w| && IsIdentStart(w[p]) && IdentEnd(w, p) < |w| && IsDigit(w[IdentEnd(w, p)])
  }

  /** The leftmost `p >= i` where the expression matches. */
  function VariadicSearch(w: string, i: nat): (r: Option<nat>)
    requires i <= |w|
    ensures r.Some? ==> i <= r.value && VariadicAt(w, r.value)
    ensures forall q :: i <= q && (r.None? || q < r.value) ==> !VariadicAt(w, q)
    decreases |w| - i
  {
    if i == |w| then None
    else if VariadicAt(w, i) then Some(i)
    else VariadicSearch(w, i + 1)
  }

  /** `w.match(/([a-zA-Z_]+)([0-9]+)/)`: the two groups of the leftmost match. */
  function VariadicMatch(w: string): (r: Option<(string, string)>)
    ensures r.Some? ==> r.value.0 != [] && r.value.1 != [] && AllDigits(r.value.1)
    ensures r.None? <==> forall p :: 0 <= p < |w| ==> !VariadicAt(w, p)
    ensures r.Some? ==> exists p :: (0 <= p < |w| && VariadicAt(w, p) && (forall q :: 0 <= q < p ==> !VariadicAt(w, q))
      && r.value.0 == w[p..IdentEnd(w, p)] && r.value.1 == w[IdentEnd(w, p)..DigitEnd(w, IdentEnd(w, p))])
  {
    match VariadicSearch(w, 0)
    case None => None
    case Some(p) =>
      var e := IdentEnd(w, p);
      Some((w[p..e], w[e..DigitEnd(w, e)]))
  }

  // ---------------------------------------------------------------------
  // findLastTopLevelComma
  // ---------------------------------------------------------------------

  /** A comma at `i` with as many `(` as `)` after it. */
  predicate TopLevelComma(t: string, i: int)
  {
    0 <= i < |t| && t[i] == ',' && Count(t[i + 1..], '(') == Count(t[i + 1..], ')')
  }

  /** The largest top-level comma below `n`, or -1. */
  function LastCommaBelow(t: string, n: nat): (r: int)
    requires n <= |t|
    ensures -1 <= r < n
    ensures r >= 0 ==> TopLevelComma(t, r)
    ensures forall j :: r < j < n ==> !TopLevelComma(t, j)
  {
    if n == 0 then -1
    else if TopLevelComma(t, n - 1) then n - 1
    else LastCommaBelow(t, n - 1)
  }

  /** The position of the last comma outside every parenthesis, or -1. */
  function LastTopLevelComma(t: string): (r: int)
  {
    LastCommaBelow(t, |t|)
  }

  /** A text without commas has no top-level comma. */
  lemma NoTopLevelComma(t: string)
    requires ',' !in t
    ensures LastTopLevelComma(t) == -1
  {
  }

  lemma {:induction false} CountCons(x: char, s: string, c: char)
    ensures Count([x] + s, c) == (if x == c then 1 else 0) + Count(s, c)
    decreases |s|
  {
    if s != [] {
      var t := [x] + s;
      assert t[..|t| - 1] == [x] + s[..|s| - 1];
      CountCons(x, s[..|s| - 1], c);
    }
  }

  /**
   * `findLastTopLevelComma`: scanning from the end with a parenthesis
   * depth, the first comma met at depth 0 is the last top-level one.
   */
  method FindLastTopLevelComma(text: string) returns (r: int)
    ensures r == LastTopLevelComma(text)
    ensures r >= 0 ==> TopLevelComma(text, r) && forall j :: r < j < |text| ==> !TopLevelComma(text, j)
    ensures r == -1 ==> forall j :: 0 <= j < |text| ==> !TopLevelComma(text, j)
  {
    var depth := 0;
    var i := |text| - 1;
    while i >= 0
      invariant -1 <= i < |text|
      invariant depth == Count(text[i + 1..], ')') - Count(text[i + 1..], '(')
      invariant LastTopLevelComma(text) == LastCommaBelow(text, i + 1)
      decreases i + 1
    {
      var c := text[i];
      assert text[i..] == [c] + text[i + 1..];
      CountCons(c, text[i + 1..], ')');
      CountCons(c, text[i + 1..], '(');
      if c == ')' {
        depth := depth + 1;
      } else if c == '(' {
        depth := depth - 1;
      } else if c == ',' && depth == 0 {
        return i;
      }
      i := i - 1;
    }
    return -1;
  }

  // ---------------------------------------------------------------------
  // getWordAt
  // ---------------------------------------------------------------------

  datatype WordAt = WordAt(word: string, start: int, end: int)

  /**
   * `getWordAt(text, index)`: the word-character run reaching `index`
   * from the left and the run of word characters from `index` on.
   */
  function GetWordAt(text: string, index: nat): Option<WordAt>
  {
    WordBetween(text, index, TrailingWordStart(Slice(text, 0, index + 1)), FirstNonWord(Slice(text, index, |text|)))
  }

  /** The rest of `getWordAt`, given where the two searches ended. */
  function WordBetween(text: string, index: nat, left: int, right: int): Option<WordAt>
  {
    if right == -1 then Some(WordAt(Slice(text, left, |text|), left, |text|))
    else
      var word := Slice(text, left, right + index);
      if left == -1 || Blank(word) then None
      else Some(WordAt(word, left, right + index))
  }

  /** `!s.trim()`: the text is empty once trimmed, that is, it is all white space. */
  predicate Blank(s: string)
  {
    forall i :: 0 <= i < |s| ==> IsSpace(s[i])
  }

  lemma BlankIsTrimmedAway(s: string)
    ensures Blank(s) <==> Trim(s) == []
  {
  }

  /** `s..e` is a maximal run of word characters of `text`. */
  predicate MaximalWord(text: string, s: int, e: int)
  {
    0 <= s < e <= |text| && AllWordChars(text[s..e])
    && (s == 0 || !IsWordChar(text[s - 1])) && (e == |text| || !IsWordChar(text[e]))
  }

  /** On a word character the result is the whole word around it. */
  lemma GetWordAtWord(text: string, index: nat) returns (start: nat, end: nat)
    requires index < |text| && IsWordChar(text[index])
    ensures start <= index < end && MaximalWord(text, start, end)
    ensures GetWordAt(text, index) == Some(WordAt(text[start..end], start, end))
  {
    start := WordLeft(text, index);
    end := WordRight(text, index);
    WordCharsJoin(text, start, index, end);
    WordBetweenRun(text, index, start, FirstNonWord(Slice(text, index, |text|)), end);
  }

  /** `WordBetween` on a non-empty run of word characters from `left` to `end`. */
  lemma WordBetweenRun(text: string, index: nat, left: nat, right: int, end: nat)
    requires left <= index < end <= |text| && AllWordChars(text[left..end])
    requires end == if right == -1 then |text| else index + right
    ensures WordBetween(text, index, left, right) == Some(WordAt(text[left..end], left, end))
  {
    assert Slice(text, left, end) == text[left..end];
    if right != -1 {
      WordNotBlank(text[left..end]);
    }
  }

  /** The run reaching `index` from the left starts at a word boundary at or before it. */
  lemma WordLeft(text: string, index: nat) returns (start: nat)
    requires index < |text| && IsWordChar(text[index])
    ensures start == TrailingWordStart(Slice(text, 0, index + 1))
    ensures start <= index && AllWordChars(text[start..index]) && (start == 0 || !IsWordChar(text[start - 1]))
  {
    var a := text[..index + 1];
    assert Slice(text, 0, index + 1) == a;
    start := TrailingWordStart(a);
    assert a[start..index] == text[start..index];
    assert start > 0 ==> a[start - 1] == text[start - 1];
  }

  /** The run from `index` on ends at the text's end or before a non-word character. */
  lemma WordRight(text: string, index: nat) returns (end: nat)
    requires index < |text| && IsWordChar(text[index])
    ensures var right := FirstNonWord(Slice(text, index, |text|));
      end == if right == -1 then |text| else index + right
    ensures index < end <= |text| && AllWordChars(text[index..end]) && (end == |text| || !IsWordChar(text[end]))
  {
    var b := text[index..];
    assert Slice(text, index, |text|) == b;
    var right := FirstNonWord(b);
    if right == -1 {
      end := |text|;
      assert b == text[index..end];
    } else {
      end := index + right;
      assert b[right] == text[end] && b[..right] == text[index..end];
    }
  }

  lemma WordCharsJoin(text: string, s: nat, m: nat, e: nat)
    requires s <= m <= e <= |text| && AllWordChars(text[s..m]) && AllWordChars(text[m..e])
    ensures AllWordChars(text[s..e])
  {
    forall i | s <= i < e ensures IsWordChar(text[i]) {
      if i < m { assert text[s..m][i - s] == text[i]; } else { assert text[m..e][i - m] == text[i]; }
    }
  }

  lemma WordNotBlank(w: string)
    requires w != [] && AllWordChars(w)
    ensures !Blank(w)
  {
    assert !IsSpace(w[0]);
  }

  /** On any other character there is no word. */
  lemma GetWordAtOther(text: string, index: nat)
    requires index < |text| && !IsWordChar(text[index])
    ensures GetWordAt(text, index).None?
  {
    assert Slice(text, index, |text|)[0] == text[index];
  }

  /**
   * Past the end, the result is the text's trailing word; when the text
   * does not end in a word character, `slice(-1)` yields the last
   * character (or nothing) and the start is -1.
   */
  lemma GetWordAtEnd(text: string, index: nat)
    requires index >= |text|
    ensures var r := GetWordAt(text, index);
      && r.Some? && r.value.end == |text|
      && (text != [] && IsWordChar(text[|text| - 1]) ==>
            MaximalWord(text, r.value.start, |text|) && r.value.word == text[r.value.start..])
      && (text == [] || !IsWordChar(text[|text| - 1]) ==>
            r.value.start == -1 && r.value.word == (if text == [] then [] else [text[|text| - 1]]))
  {
    assert Slice(text, 0, index + 1) == text;
  }

  // ---------------------------------------------------------------------
  // The language model and getInfo
  // ---------------------------------------------------------------------

  /** The first kind in `ks` whose registry key is exactly `name`. */
  function KindNamed(ks: seq<Kind>, name: string): (r: Option<Kind>)
    ensures r.Some? ==> r.value in ks && KindName(r.value) == name
    ensures r.None? ==> forall k :: k in ks ==> KindName(k) != name
  {
    if ks == [] then None
    else if KindName(ks[0]) == name then Some(ks[0])
    else KindNamed(ks[1..], name)
  }

  /** The first modifier in `ms` whose registry key is exactly `name`. */
  function ModifierNamedIn(ms: seq<ModifierKind>, name: string): (r: Option<ModifierKind>)
    ensures r.Some? ==> r.value in ms && ModifierName(r.value) == name
    ensures r.None? ==> forall m :: m in ms ==> ModifierName(m) != name
  {
    if ms == [] then None
    else if ModifierName(ms[0]) == name then Some(ms[0])
    else ModifierNamedIn(ms[1..], name)
  }

  /** `languageModel.objects[name]`: the key must match exactly, case included. */
  function ObjectNamed(name: string): Option<Kind>
  {
    KindNamed(ObjectKinds, name)
  }

  /**
   * The editor's own modifier table `languageModel.modifiers`: the same
   * five modifiers as the interpreter's registry, but with Color first.
   */
  const EditorModifiers: seq<ModifierKind> := [ColorModifier, LayerModifier, FlipModifier, MirrorModifier, FillModifier]

  /** `Object.keys(languageModel.modifiers)`, in the table's order. */
  function EditorModifierKeys(): (r: seq<string>)
    ensures |r| == |EditorModifiers| && forall i :: 0 <= i < |r| ==> r[i] == ModifierName(EditorModifiers[i])
  {
    seq(|EditorModifiers|, i requires 0 <= i < |EditorModifiers| => ModifierName(EditorModifiers[i]))
  }

  /** The editor lists the registry's keys, each once, in another order. */
  lemma EditorModifierKeysReordered()
    ensures multiset(EditorModifierKeys()) == multiset(ModifierKeys())
    ensures EditorModifierKeys() != ModifierKeys()
  {
    var e, m := EditorModifierKeys(), ModifierKeys();
    assert e == [m[1], m[0]] + m[2..];
    assert m == [m[0], m[1]] + m[2..];
    assert multiset([m[1], m[0]]) == multiset([m[0], m[1]]);
    assert e[0] == "Color" != "Layer" == m[0];
  }

  /** `languageModel.modifiers[name]`. */
  function ModifierNamed(name: string): Option<ModifierKind>
  {
    ModifierNamedIn(EditorModifiers, name)
  }

  /**
   * The members every plain object inherits from `Object.prototype`.  The
   * editor's tables are object literals read with `table[name]`, so these
   * names resolve too, to a built-in function (`Object` itself for
   * `constructor`, the prototype object for `__proto__`).
   */
  const PrototypeKeys: seq<string> := ["constructor", "hasOwnProperty", "isPrototypeOf", "propertyIsEnumerable",
    "toLocaleString", "toString", "valueOf", "__defineGetter__", "__defineSetter__", "__lookupGetter__",
    "__lookupSetter__", "__proto__"]

  /** What `table[name]` yields on one of the editor's object literals. */
  datatype Lookup<T> = Own(value: T) | Inherited(key: string) | Absent

  /** `languageModel.objects[name]`, own keys before inherited ones. */
  function ObjectEntry(name: string): (r: Lookup<Kind>)
    ensures r.Own? <==> ObjectNamed(name).Some?
    ensures r.Own? ==> r.value == ObjectNamed(name).value
    ensures r.Inherited? <==> ObjectNamed(name).None? && name in PrototypeKeys
    ensures r.Inherited? ==> r.key == name
  {
    match ObjectNamed(name)
    case Some(k) => Own(k)
    case None => if name in PrototypeKeys then Inherited(name) else Absent
  }

  /** No registry key is an inherited member: the keys are capitalised, the members are not. */
  lemma PrototypeKeysNotRegistered(name: string)
    requires name in PrototypeKeys
    ensures ObjectNamed(name).None? && ModifierNamed(name).None?
    ensures ObjectEntry(name) == Inherited(name)
  {
    assert name[0] == 'c' || name[0] == 'h' || name[0] == 'i' || name[0] == 'p'
        || name[0] == 't' || name[0] == 'v' || name[0] == '_';
    if ObjectNamed(name).Some? {
      KindNameCapitalised(ObjectNamed(name).value);
      assert false;
    }
    if ModifierNamed(name).Some? {
      ModifierNameCapitalised(ModifierNamed(name).value);
      assert false;
    }
  }

  /** A capitalised name is no inherited member. */
  lemma CapitalisedNotInherited(name: string)
    requires |name| > 0 && 'A' <= name[0] <= 'Z'
    ensures name !in PrototypeKeys
  {
  }

  /** Every modifier key starts with a capital letter. */
  lemma ModifierNameCapitalised(m: ModifierKind)
    ensures |ModifierName(m)| > 0 && 'A' <= ModifierName(m)[0] <= 'Z'
  {
  }

  /** The object table answers exactly the nine registry keys, each with its own kind. */
  lemma ObjectNamedSpec(name: string, k: Kind)
    ensures ObjectNamed(name) == Some(k) <==> KindName(k) == name
  {
    if KindName(k) == name {
      assert k in ObjectKinds;
      var r := ObjectNamed(name);
      KindNamesDistinct(r.value, k);
    }
  }

  /** The modifier table answers exactly the five registry keys, each with its own modifier. */
  lemma ModifierNamedSpec(name: string, m: ModifierKind)
    ensures ModifierNamed(name) == Some(m) <==> ModifierName(m) == name
  {
    if ModifierName(m) == name {
      assert m in EditorModifiers;
      var r := ModifierNamed(name);
      ModifierNamesDistinct(r.value, m);
    }
  }

  /**
   * Unlike the interpreter's registry lookup, the editor's table is
   * case-sensitive: `rectangle` constructs a Rectangle but has no hover
   * information of its own.
   */
  lemma ObjectNamedIsCaseSensitive()
    ensures ObjectNamed("rectangle").None?
    ensures LookupObjectKind("rectangle") == Some(Rectangle)
  {
    var r := ObjectNamed("rectangle");
    if r.Some? {
      KindNameCapitalised(r.value);
      assert false;
    }
    RectangleIgnoringCase();
    LookupObjectKindSpec("rectangle", Rectangle);
  }

  lemma RectangleIgnoringCase()
    ensures EqualsIgnoreCase("Rectangle", "rectangle")
  {
    var a, b := LowerStr("Rectangle"), LowerStr("rectangle");
    assert a[0] == b[0];
    assert forall i :: 1 <= i < 9 ==> a[i] == b[i];
  }

  /** Every registry key starts with a capital letter. */
  lemma KindNameCapitalised(k: Kind)
    ensures |KindName(k)| > 0 && 'A' <= KindName(k)[0] <= 'Z'
  {
  }

  /** One entry of a modifier's hover list; the type is always left empty. */
  datatype ModifierParam = ModifierParam(name: string, description: string, ptype: string)

  /** What `getInfo` returns: an object type, a modifier, or one parameter of the call the cursor is in. */
  datatype Info =
    | ObjectInfo(name: string, description: string, params: seq<Param>)
    | ModifierInfo(name: string, description: string, modifierParams: seq<ModifierParam>)
    | ParamInfo(name: string, ptype: string, paramDescription: Option<string>)

  /**
   * The `TypeError` a lookup that lands on an inherited member raises:
   * `new table[key]()` is not a constructor, or (for `constructor`, which
   * is `Object`) the new object has no `getParams` method.
   */
  datatype TypeError = NotAnObjectType(key: string)

  /** `Object.keys(parameter_descriptions).map(...)`. */
  function ModifierParams(m: ModifierKind): (r: seq<ModifierParam>)
    ensures |r| == |ModifierParamDescriptions(m)|
    ensures forall i :: 0 <= i < |r| ==>
      r[i] == ModifierParam(ModifierParamDescriptions(m)[i].0, ModifierParamDescriptions(m)[i].1, "")
  {
    var d := ModifierParamDescriptions(m);
    seq(|d|, i requires 0 <= i < |d| => ModifierParam(d[i].0, d[i].1, ""))
  }

  /** The first parameter of `ps` called `name` (`params.find(p => p.name === name)`). */
  function ParamNamed(ps: seq<Param>, name: string): (r: Option<Param>)
    ensures r.Some? ==> r.value in ps && r.value.name == name
    ensures r.None? ==> forall p :: p in ps ==> p.name != name
  {
    if ps == [] then None
    else if ps[0].name == name then Some(ps[0])
    else ParamNamed(ps[1..], name)
  }

  /** The first variadic sub-parameter of `vs` called `name`. */
  function VariadicNamed(vs: seq<VariadicParam>, name: string): (r: Option<VariadicParam>)
    ensures r.Some? ==> r.value in vs && r.value.name == name
    ensures r.None? ==> forall v :: v in vs ==> v.name != name
  {
    if vs == [] then None
    else if vs[0].name == name then Some(vs[0])
    else VariadicNamed(vs[1..], name)
  }

  /**
   * The object type of the call the cursor is in: the word that ends
   * right before the last `(` before the cursor, if it names a type.
   */
  function CallBefore(text: string, cursor: nat): Lookup<Kind>
  {
    var open := LastIndexOf(Slice(text, 0, cursor), '(');
    if open == -1 then Absent
    else
      var head := Slice(text, 0, open);
      var s := TrailingWordStart(head);
      if s == -1 then Absent else ObjectEntry(head[s..])
  }

  /** The parameter `word` names in the call the cursor is in. */
  function ParamContextInfo(text: string, cursor: nat, word: string): Result<Option<Info>, TypeError>
  {
    match CallBefore(text, cursor)
    case Absent => Ok(None)
    case Inherited(key) => Err(NotAnObjectType(key))
    case Own(k) =>
      var v := Variadic(k);
      var vm := VariadicMatch(word);
      if v.Some? && vm.Some? then
        var p := VariadicNamed(v.value.params, vm.value.0);
        Ok(if p.None? then None else Some(ParamInfo(word, p.value.ptype, Some(p.value.description))))
      else
        var p := ParamNamed(ParamTable(k), word);
        Ok(if p.None? then None else Some(ParamInfo(word, p.value.ptype, p.value.description)))
  }

  /**
   * The lookups of `getInfo` for a non-empty word: the object table first
   * (where an inherited member throws), then modifiers, then parameters.
   */
  function InfoFor(text: string, cursor: nat, word: string): Result<Option<Info>, TypeError>
  {
    if word == [] then Ok(None)
    else
      match ObjectEntry(word)
      case Own(k) => Ok(Some(ObjectInfo(word, KindDescription(k), ParamTable(k))))
      case Inherited(key) => Err(NotAnObjectType(key))
      case Absent =>
        if ModifierNamed(word).Some? then
          var m := ModifierNamed(word).value;
          Ok(Some(ModifierInfo(word, ModifierDescription(m), ModifierParams(m))))
        else ParamContextInfo(text, cursor, word)
  }

  /** `getInfo(text, cursorPosition, _, word)`; an empty `word` stands for one not given. */
  function GetInfo(text: string, cursor: nat, word: string): Result<Option<Info>, TypeError>
  {
    if word != [] then InfoFor(text, cursor, word)
    else
      var w := GetWordAt(text, cursor);
      if w.None? then Ok(None) else InfoFor(text, cursor, w.value.word)
  }

  /** An inherited member's name, as the word or as the call the cursor is in, throws. */
  lemma GetInfoInherited(text: string, cursor: nat, word: string)
    requires word in PrototypeKeys
    ensures GetInfo(text, cursor, word) == Err(NotAnObjectType(word))
  {
    PrototypeKeysNotRegistered(word);
    InfoForInherited(text, cursor, word);
  }

  lemma InfoForInherited(text: string, cursor: nat, word: string)
    requires word != [] && ObjectEntry(word) == Inherited(word)
    ensures GetInfo(text, cursor, word) == Err(NotAnObjectType(word))
  {
  }

  /** Inside a call whose name is an inherited member, any other word throws as well. */
  lemma GetInfoInheritedCall(text: string, cursor: nat, word: string, key: string)
    requires word != [] && word !in PrototypeKeys && ObjectNamed(word).None? && ModifierNamed(word).None?
    requires CallBefore(text, cursor) == Inherited(key)
    ensures GetInfo(text, cursor, word) == Err(NotAnObjectType(key))
  {
  }

  /** An object type's name shows its description and its `getParams()` list, sorted by name. */
  lemma GetInfoObject(text: string, cursor: nat, k: Kind)
    ensures GetInfo(text, cursor, KindName(k)) == Ok(Some(ObjectInfo(KindName(k), KindDescription(k), ParamTable(k))))
    ensures ParamTable(k) == SortByName(Exposed(Fields(k), Whitelist(k), ParamDescriptions(k), {}))
    ensures SortedByName(ParamTable(k))
  {
    ObjectNamedSpec(KindName(k), k);
    InfoForObject(text, cursor, KindName(k), k);
    ParamTableIsGetParams(k);
    TableStrictlySorted(k, ParamDescriptions(k));
  }

  /** A modifier's name, unless an object type has the same name, shows the modifier's description keys. */
  lemma GetInfoModifier(text: string, cursor: nat, m: ModifierKind)
    requires m != LayerModifier
    ensures GetInfo(text, cursor, ModifierName(m)) == Ok(Some(ModifierInfo(ModifierName(m), ModifierDescription(m), ModifierParams(m))))
  {
    var n := ModifierName(m);
    var r := ObjectNamed(n);
    if r.Some? {
      ModifierNotObject(m, r.value);
      assert false;
    }
    ModifierNamedSpec(n, m);
    ModifierNameCapitalised(m);
    CapitalisedNotInherited(n);
    InfoForModifier(text, cursor, n, m);
  }

  lemma InfoForModifier(text: string, cursor: nat, word: string, m: ModifierKind)
    requires word != [] && ObjectEntry(word) == Absent && ModifierNamed(word) == Some(m)
    ensures GetInfo(text, cursor, word) == Ok(Some(ModifierInfo(word, ModifierDescription(m), ModifierParams(m))))
  {
  }

  lemma InfoForObject(text: string, cursor: nat, word: string, k: Kind)
    requires word != [] && ObjectNamed(word) == Some(k)
    ensures GetInfo(text, cursor, word) == Ok(Some(ObjectInfo(word, KindDescription(k), ParamTable(k))))
  {
  }

  /** Apart from `Layer`, no modifier shares its name with an object type. */
  lemma ModifierNotObject(m: ModifierKind, k: Kind)
    requires m != LayerModifier
    ensures KindName(k) != ModifierName(m)
  {
    var a, b := KindName(k), ModifierName(m);
    assert |a| >= 4 && |b| >= 4;
    assert a[0] != b[0] || a[1] != b[1] || a[2] != b[2];
  }

  /** `Layer` names both an object type and a modifier; the object type wins. */
  lemma GetInfoLayer(text: string, cursor: nat)
    ensures ModifierNamed("Layer") == Some(LayerModifier)
    ensures GetInfo(text, cursor, "Layer") == Ok(Some(ObjectInfo("Layer", KindDescription(LayerObject), ParamTable(LayerObject))))
  {
    ModifierNamedSpec("Layer", LayerModifier);
    GetInfoObject(text, cursor, LayerObject);
  }

  /** Without a word and with no word at the cursor, there is nothing to show. */
  lemma GetInfoNoWord(text: string, cursor: nat)
    requires cursor < |text| && !IsWordChar(text[cursor])
    ensures GetInfo(text, cursor, "") == Ok(None)
  {
    GetWordAtOther(text, cursor);
  }

  /**
   * Inside a call of a type with variadic groups, a word of the form
   * letters-then-digits is looked up by its letters among the group's
   * sub-parameters.
   */
  lemma GetInfoVariadic(text: string, cursor: nat, word: string, k: Kind, i: nat)
    requires ObjectNamed(word).None? && ModifierNamed(word).None? && word != [] && word !in PrototypeKeys
    requires CallBefore(text, cursor) == Own(k) && Variadic(k).Some? && i < |Variadic(k).value.params|
    requires VariadicMatch(word).Some? && VariadicMatch(word).value.0 == Variadic(k).value.params[i].name
    ensures var v := Variadic(k).value.params[i];
      GetInfo(text, cursor, word) == Ok(Some(ParamInfo(word, v.ptype, Some(v.description))))
  {
    var vs := Variadic(k).value.params;
    VariadicNamedOwn(k, i);
    InfoForVariadic(text, cursor, word, k, vs[i]);
  }

  /** A type's variadic sub-parameters have distinct names, so looking one up by its name finds it. */
  lemma VariadicNamedOwn(k: Kind, i: nat)
    requires Variadic(k).Some? && i < |Variadic(k).value.params|
    ensures var vs := Variadic(k).value.params; VariadicNamed(vs, vs[i].name) == Some(vs[i])
  {
    var vs := Variadic(k).value.params;
    var p := VariadicNamed(vs, vs[i].name);
    assert p.Some? by { assert vs[i] in vs; }
    assert p.value == vs[i];
  }

  /**
   * Inside a call, a word that is not a variadic name is looked up among
   * the type's parameters.
   */
  lemma GetInfoParam(text: string, cursor: nat, word: string, k: Kind, i: nat)
    requires ObjectNamed(word).None? && ModifierNamed(word).None? && word != [] && word !in PrototypeKeys
    requires CallBefore(text, cursor) == Own(k) && (Variadic(k).None? || VariadicMatch(word).None?)
    requires i < |ParamTable(k)| && ParamTable(k)[i].name == word
    ensures var p := ParamTable(k)[i];
      GetInfo(text, cursor, word) == Ok(Some(ParamInfo(word, p.ptype, p.description)))
  {
    TableStrictlySorted(k, ParamDescriptions(k));
    ParamNamedDistinct(ParamTable(k), i);
    InfoForParam(text, cursor, word, k, ParamTable(k)[i]);
  }

  /** Where names are distinct, looking a parameter up by its name finds that parameter. */
  lemma {:induction false} ParamNamedDistinct(ps: seq<Param>, i: nat)
    requires i < |ps|
    requires forall a, b :: 0 <= a < b < |ps| ==> ps[a].name != ps[b].name
    ensures ParamNamed(ps, ps[i].name) == Some(ps[i])
  {
    if i > 0 {
      assert ps[0].name != ps[i].name;
      ParamNamedDistinct(ps[1..], i - 1);
    }
  }

  lemma InfoForParam(text: string, cursor: nat, word: string, k: Kind, p: Param)
    requires ObjectNamed(word).None? && ModifierNamed(word).None? && word != [] && word !in PrototypeKeys
    requires CallBefore(text, cursor) == Own(k) && (Variadic(k).None? || VariadicMatch(word).None?)
    requires ParamNamed(ParamTable(k), word) == Some(p)
    ensures GetInfo(text, cursor, word) == Ok(Some(ParamInfo(word, p.ptype, p.description)))
  {
  }

  lemma InfoForVariadic(text: string, cursor: nat, word: string, k: Kind, v: VariadicParam)
    requires ObjectNamed(word).None? && ModifierNamed(word).None? && word != [] && word !in PrototypeKeys
    requires CallBefore(text, cursor) == Own(k) && Variadic(k).Some? && VariadicMatch(word).Some?
    requires VariadicNamed(Variadic(k).value.params, VariadicMatch(word).value.0) == Some(v)
    ensures GetInfo(text, cursor, word) == Ok(Some(ParamInfo(word, v.ptype, Some(v.description))))
  {
  }
}
