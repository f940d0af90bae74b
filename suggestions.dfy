/**
 * `getSuggestions` (src/services/autocomplete.ts): what the editor offers
 * for the text before the cursor.  Inside an open argument list it offers
 * the unused parameters of the object type and the next variadic names;
 * after an object definition it offers the keywords the clause grammar
 * still allows, or modifiers after `SET`; otherwise object types, `!`,
 * or the names of earlier objects to clone.
 */
module Suggestions {
  import opened Wrappers
  import opened Chars
  import opened Kinds
  import opened Params
  import opened Autocomplete
  import opened SceneLexer
  import opened Interpreter
  import opened Interpretation

  // ---------------------------------------------------------------------
  // The parameter context: /(\w+)\s*\(([^)]*)$/
  // ---------------------------------------------------------------------

  /** Where the word that ends right before position `q`, spaces aside, starts; -1 when there is none. */
  function NameBefore(t: string, q: nat): (r: int)
    requires q <= |t|
    ensures -1 <= r < q
  {
    TrailingWordStart(t[..q - TrailingSpaces(t[..q])])
  }

  /** The expression can match with its `(` at `q`: a name before it and no `)` after it. */
  predicate CallOpenAt(t: string, q: nat)
  {
    q < |t| && t[q] == '(' && ')' !in t[q + 1..] && NameBefore(t, q) >= 0
  }

  /** The first `q >= i` where the expression can match. */
  function CallOpenSearch(t: string, i: nat): (r: Option<nat>)
    requires i <= |t|
    ensures r.Some? ==> i <= r.value && CallOpenAt(t, r.value)
    ensures forall q :: i <= q && (r.None? || q < r.value) ==> !CallOpenAt(t, q)
    decreases |t| - i
  {
    if i == |t| then None
    else if CallOpenAt(t, i) then Some(i)
    else CallOpenSearch(t, i + 1)
  }

  /**
   * `t.match(/(\w+)\s*\(([^)]*)$/)`: the object name and the text after
   * the `(`.  The leftmost match belongs to the leftmost possible `(`,
   * since the name before a later `(` starts after an earlier one.
   */
  function ParamContext(t: string): (r: Option<(string, string)>)
    ensures r.Some? ==> r.value.0 != [] && AllWordChars(r.value.0) && ')' !in r.value.1
    ensures r.None? <==> forall q :: 0 <= q < |t| ==> !CallOpenAt(t, q)
    ensures r.Some? ==> exists q :: (0 <= q < |t| && CallOpenAt(t, q) && (forall p :: 0 <= p < q ==> !CallOpenAt(t, p))
      && r.value.1 == t[q + 1..] && r.value.0 == t[NameBefore(t, q)..q - TrailingSpaces(t[..q])])
  {
    match CallOpenSearch(t, 0)
    case None => None
    case Some(q) =>
      var j := q - TrailingSpaces(t[..q]);
      Some((t[NameBefore(t, q)..j], t[q + 1..]))
  }

  /** A match always ends an open argument list, so the source's extra test `lastOpenParen > lastCloseParen` holds. */
  lemma ParamContextIsOpen(t: string)
    requires ParamContext(t).Some?
    ensures LastIndexOf(t, '(') > LastIndexOf(t, ')')
  {
    var q := CallOpenSearch(t, 0).value;
    assert t[q] == '(';
  }

  // ---------------------------------------------------------------------
  // Inside an argument list
  // ---------------------------------------------------------------------

  /** `p.trim().split(':')[0]`: the name part of one argument. */
  function ArgName(p: string): string
  {
    Split(Trim(p), ':')[0]
  }

  /** The arguments before the last comma, that comma included. */
  function Completed(args: string): string
  {
    args[..LastIndexOf(args, ',') + 1]
  }

  /** The argument being typed: everything after the last comma. */
  function Current(args: string): string
  {
    args[LastIndexOf(args, ',') + 1..]
  }

  /** `usedParamNames`: the non-empty names of the completed arguments. */
  function UsedNames(completed: string): set<string>
  {
    set p | p in Split(completed, ',') && ArgName(p) != [] :: ArgName(p)
  }

  /** `allTypedParams`: the name part of every argument, the current one included. */
  function TypedNames(args: string): (r: seq<string>)
    ensures |r| == |Split(args, ',')|
  {
    var ps := Split(args, ',');
    seq(|ps|, i requires 0 <= i < |ps| => ArgName(ps[i]))
  }

  /** The standard names not used yet, in table order. */
  function Unused(names: seq<string>, used: set<string>): (r: seq<string>)
    ensures |names| == 1 ==> r == if names[0] in used then [] else names
    ensures |r| <= |names|
  {
    if names == [] then []
    else (if names[0] in used then [] else [names[0]]) + Unused(names[1..], used)
  }

  /** `Unused` keeps each name not used, as often as the table lists it, and drops the used ones. */
  lemma {:induction false} UnusedCounts(names: seq<string>, used: set<string>)
    ensures forall n :: n in Unused(names, used) <==> n in names && n !in used
    ensures forall n :: multiset(Unused(names, used))[n] == if n in used then 0 else multiset(names)[n]
    decreases |names|
  {
    if names != [] {
      UnusedCounts(names[1..], used);
      assert names == [names[0]] + names[1..];
    }
  }

  /** The unused names of two lists in a row are those of the first, then those of the second. */
  lemma {:induction false} UnusedAppend(xs: seq<string>, ys: seq<string>, used: set<string>)
    ensures Unused(xs + ys, used) == Unused(xs, used) + Unused(ys, used)
    decreases |xs|
  {
    if xs == [] {
      assert xs + ys == ys;
    } else {
      assert (xs + ys)[0] == xs[0] && (xs + ys)[1..] == xs[1..] + ys;
      UnusedAppend(xs[1..], ys, used);
    }
  }

  /** The index a typed argument carries: `parseInt` of the digits of its variadic match, or none. */
  function TypedIndex(p: string): nat
  {
    match VariadicMatch(p)
    case None => 0
    case Some(m) => DigitsValue(m.1)
  }

  /** The index each typed argument carries. */
  function Indices(typed: seq<string>): (r: seq<nat>)
    ensures |r| == |typed| && forall i :: 0 <= i < |typed| ==> r[i] == TypedIndex(typed[i])
  {
    seq(|typed|, i requires 0 <= i < |typed| => TypedIndex(typed[i]))
  }

  /** The largest of `xs`, or 0, folding from the left as the source's loop does. */
  function MaxOf(xs: seq<nat>): (m: nat)
    ensures forall i :: 0 <= i < |xs| ==> xs[i] <= m
    ensures m == 0 || exists i :: 0 <= i < |xs| && xs[i] == m
  {
    if xs == [] then 0
    else
      var m := MaxOf(xs[..|xs| - 1]);
      assert forall i :: 0 <= i < |xs| - 1 ==> xs[..|xs| - 1][i] == xs[i];
      if xs[|xs| - 1] > m then xs[|xs| - 1] else m
  }

  /** One more element for the left fold. */
  lemma MaxOfStep(xs: seq<nat>, i: nat)
    requires i < |xs|
    ensures MaxOf(xs[..i + 1]) == if xs[i] > MaxOf(xs[..i]) then xs[i] else MaxOf(xs[..i])
  {
    assert xs[..i + 1][..i] == xs[..i];
  }

  /** The largest index any typed argument carries, or 0. */
  function MaxIndex(typed: seq<string>): (m: nat)
    ensures forall i :: 0 <= i < |typed| ==> TypedIndex(typed[i]) <= m
    ensures m == 0 || exists i :: 0 <= i < |typed| && TypedIndex(typed[i]) == m
  {
    MaxOf(Indices(typed))
  }

  /** The `forEach` over the typed arguments that finds `maxIndex`. */
  method MaxTypedIndex(typed: seq<string>) returns (maxIndex: nat)
    ensures maxIndex == MaxIndex(typed)
  {
    ghost var xs := Indices(typed);
    maxIndex := 0;
    var i := 0;
    while i < |typed|
      invariant i <= |typed| == |xs|
      invariant maxIndex == MaxOf(xs[..i])
    {
      var index := TypedIndex(typed[i]);
      assert index == xs[i];
      MaxOfStep(xs, i);
      if index > maxIndex {
        maxIndex := index;
      }
      i := i + 1;
    }
    assert xs[..i] == xs;
  }

  /** Appending `suffix` is the only way to end a string with it. */
  lemma SuffixSplit(p: string, suffix: string)
    ensures forall n :: n + suffix == p <==> EndsWith(p, suffix) && n == p[..|p| - |suffix|]
  {
    forall n ensures n + suffix == p <==> EndsWith(p, suffix) && n == p[..|p| - |suffix|] {
      if n + suffix == p {
        assert p[..|n|] == n && p[|n|..] == suffix;
      }
      if EndsWith(p, suffix) && n == p[..|p| - |suffix|] {
        assert p == p[..|p| - |suffix|] + p[|p| - |suffix|..];
      }
    }
  }

  /** The group's names: the typed arguments ending in `suffix`, with it cut off. */
  function GroupNames(typed: seq<string>, suffix: string): (r: seq<string>)
    ensures forall n :: n in r <==> n + suffix in typed
  {
    if typed == [] then []
    else
      var rest := GroupNames(typed[1..], suffix);
      SuffixSplit(typed[0], suffix);
      if EndsWith(typed[0], suffix) then [typed[0][..|typed[0]| - |suffix|]] + rest else rest
  }

  /** Every sub-parameter of the group has been typed. */
  predicate GroupComplete(params: seq<VariadicParam>, group: seq<string>)
  {
    forall p :: p in params ==> p.name in group
  }

  /** The sub-parameters of the group not typed yet, in declaration order. */
  function Missing(params: seq<VariadicParam>, group: seq<string>): (r: seq<VariadicParam>)
    ensures |params| == 1 ==> r == if params[0].name in group then [] else params
    ensures |r| <= |params|
  {
    if params == [] then []
    else (if params[0].name in group then [] else [params[0]]) + Missing(params[1..], group)
  }

  /** `Missing` keeps each sub-parameter not typed, as often as declared, and drops the typed ones. */
  lemma {:induction false} MissingCounts(params: seq<VariadicParam>, group: seq<string>)
    ensures forall p :: p in Missing(params, group) <==> p in params && p.name !in group
    ensures forall p :: multiset(Missing(params, group))[p] == if p.name in group then 0 else multiset(params)[p]
    decreases |params|
  {
    if params != [] {
      MissingCounts(params[1..], group);
      assert params == [params[0]] + params[1..];
    }
  }

  /** The missing sub-parameters of two lists in a row are those of the first, then those of the second. */
  lemma {:induction false} MissingAppend(xs: seq<VariadicParam>, ys: seq<VariadicParam>, group: seq<string>)
    ensures Missing(xs + ys, group) == Missing(xs, group) + Missing(ys, group)
    decreases |xs|
  {
    if xs == [] {
      assert xs + ys == ys;
    } else {
      assert (xs + ys)[0] == xs[0] && (xs + ys)[1..] == xs[1..] + ys;
      MissingAppend(xs[1..], ys, group);
    }
  }

  /** `params.map(p => p.name + suffix)`. */
  function Suffixed(params: seq<VariadicParam>, suffix: string): (r: seq<string>)
    ensures |r| == |params| && forall i :: 0 <= i < |params| ==> r[i] == params[i].name + suffix
  {
    seq(|params|, i requires 0 <= i < |params| => params[i].name + suffix)
  }

  /** The names `Suffixed` makes are exactly the sub-parameter names with the suffix. */
  lemma SuffixedMembers(params: seq<VariadicParam>, suffix: string)
    ensures forall x :: x in Suffixed(params, suffix) <==> exists p :: p in params && x == p.name + suffix
  {
    var r := Suffixed(params, suffix);
    forall x ensures x in r <==> exists p :: p in params && x == p.name + suffix {
      if x in r {
        var i :| 0 <= i < |r| && r[i] == x;
        assert params[i] in params;
      }
      if exists p :: p in params && x == p.name + suffix {
        var p :| p in params && x == p.name + suffix;
        var i :| 0 <= i < |params| && params[i] == p;
        assert r[i] == x;
      }
    }
  }

  /** The variadic names offered, given the names typed so far. */
  function VariadicSuggestions(params: seq<VariadicParam>, typed: seq<string>): seq<string>
  {
    var max := MaxIndex(typed);
    var group := GroupNames(typed, NatToString(max));
    if max == 0 then Suffixed(params, "1")
    else if GroupComplete(params, group) then Suffixed(params, NatToString(max + 1))
    else Suffixed(Missing(params, group), NatToString(max))
  }

  /** The argument being typed has a value after its `:`, or ends in `:`. */
  predicate TypingValue(current: string)
  {
    var parts := Split(current, ':');
    |parts| > 1 && (Trim(parts[1]) != [] || EndsWith(Trim(current), ":"))
  }

  /** The suggestions inside the argument list `args` of a type with these parameters. */
  function ArgumentSuggestions(standard: seq<string>, def: Option<VariadicDef>, args: string): seq<string>
  {
    var current := Current(args);
    if TypingValue(current) then []
    else
      var partial := Trim(Split(current, ':')[0]);
      var offered := Unused(standard, UsedNames(Completed(args)))
        + (if def.Some? then VariadicSuggestions(def.value.params, TypedNames(args)) else []);
      if partial != [] then WithPrefixIgnoringCase(offered, partial) else offered
  }

  // ---------------------------------------------------------------------
  // Variadic groups
  // ---------------------------------------------------------------------

  /** With no indexed argument typed, every sub-parameter is offered with index 1. */
  lemma FirstGroupOffered(params: seq<VariadicParam>, typed: seq<string>)
    requires forall i :: 0 <= i < |typed| ==> TypedIndex(typed[i]) == 0
    ensures var r := VariadicSuggestions(params, typed);
      |r| == |params| && forall i :: 0 <= i < |params| ==> r[i] == params[i].name + "1"
  {
  }

  /** Once every sub-parameter carries the highest index `m`, the next group `m + 1` is offered. */
  lemma NextGroupOffered(params: seq<VariadicParam>, typed: seq<string>, m: nat)
    requires m > 0 && (forall i :: 0 <= i < |typed| ==> TypedIndex(typed[i]) <= m)
    requires exists i :: 0 <= i < |typed| && TypedIndex(typed[i]) == m
    requires forall p :: p in params ==> p.name + NatToString(m) in typed
    ensures var r := VariadicSuggestions(params, typed);
      |r| == |params| && forall i :: 0 <= i < |params| ==> r[i] == params[i].name + NatToString(m + 1)
  {
    assert MaxIndex(typed) == m;
  }

  /** While the group with the highest index `m` is incomplete, only its missing names are offered. */
  lemma MissingOffered(params: seq<VariadicParam>, typed: seq<string>, m: nat)
    requires m > 0 && (forall i :: 0 <= i < |typed| ==> TypedIndex(typed[i]) <= m)
    requires exists i :: 0 <= i < |typed| && TypedIndex(typed[i]) == m
    requires exists p :: p in params && p.name + NatToString(m) !in typed
    ensures forall x :: x in VariadicSuggestions(params, typed) <==>
      exists p :: p in params && p.name + NatToString(m) !in typed && x == p.name + NatToString(m)
  {
    assert MaxIndex(typed) == m;
    var group := GroupNames(typed, NatToString(m));
    var ms := Missing(params, group);
    MissingCounts(params, group);
    assert VariadicSuggestions(params, typed) == Suffixed(ms, NatToString(m));
    SuffixedMembers(ms, NatToString(m));
  }

  // ---------------------------------------------------------------------
  // Inside an argument list: what stops suggestions and what is offered
  // ---------------------------------------------------------------------

  /** `trim` keeps a last character that is not a space. */
  lemma TrimKeepsLast(s: string)
    requires s != [] && !IsSpace(s[|s| - 1])
    ensures Trim(s) != [] && Trim(s)[|Trim(s)| - 1] == s[|s| - 1]
  {
    var a := LeadingSpaces(s);
    assert a < |s|;
    var rest := s[a..];
    assert rest[|rest| - 1] == s[|s| - 1];
    assert TrailingSpaces(rest) == 0;
  }

  /** The arguments `done` end at a comma (or are empty) and `current` has none. */
  lemma CurrentArgument(done: string, current: string)
    requires done == [] || done[|done| - 1] == ','
    requires ',' !in current
    ensures Current(done + current) == current && Completed(done + current) == done
  {
    var t := done + current;
    var c := LastIndexOf(t, ',');
    if done != [] {
      assert t[|done| - 1] == ',';
    }
    assert forall j :: |done| <= j < |t| ==> t[j] == current[j - |done|];
  }

  /** Splitting `name:rest` at its first `:` when `name` has none. */
  lemma SplitAtColon(name: string, rest: string)
    requires ':' !in name
    ensures Split(name + ":" + rest, ':') == [name] + Split(rest, ':')
  {
    var s := name + ":" + rest;
    var k := IndexOf(s, ':');
    assert s[|name|] == ':';
    assert forall j :: 0 <= j < |name| ==> s[j] == name[j];
    assert s[..k] == name && s[k + 1..] == rest;
  }

  /** While a value is being typed, nothing is offered. */
  lemma StopsWhileTypingValue(standard: seq<string>, def: Option<VariadicDef>, args: string)
    requires TypingValue(Current(args))
    ensures ArgumentSuggestions(standard, def, args) == []
  {
  }

  /** `name:value` with a non-blank value is a value being typed. */
  lemma ValueTypedHere(name: string, value: string)
    requires ':' !in name && ':' !in value
    requires exists i :: 0 <= i < |value| && !IsSpace(value[i])
    ensures TypingValue(name + ":" + value)
  {
    SplitAtColon(name, value);
    assert Split(name + ":" + value, ':') == [name, value];
  }

  /** `name:` is a value about to be typed. */
  lemma ColonTypedHere(name: string)
    requires ':' !in name
    ensures TypingValue(name + ":")
  {
    var current := name + ":";
    SplitAtColon(name, "");
    assert current == name + ":" + "";
    assert Split(current, ':') == [name, ""];
    TrimKeepsLast(current);
    var trimmed := Trim(current);
    assert trimmed[|trimmed| - 1..] == ":";
  }

  /** No comma in `name:rest` when there is none in `name` or `rest`. */
  lemma NoCommaAround(name: string, rest: string)
    requires ',' !in name && ',' !in rest
    ensures ',' !in name + ":" + rest
  {
    var current := name + ":" + rest;
    forall i | 0 <= i < |current| ensures current[i] != ',' {
      if i < |name| { assert current[i] == name[i]; }
      else if i > |name| { assert current[i] == rest[i - |name| - 1]; }
    }
  }

  /** Once the current argument has a value after its `:`, nothing is offered. */
  lemma ValueStopsSuggestions(standard: seq<string>, def: Option<VariadicDef>, done: string, name: string, value: string)
    requires done == [] || done[|done| - 1] == ','
    requires ',' !in name && ':' !in name && ',' !in value && ':' !in value
    requires exists i :: 0 <= i < |value| && !IsSpace(value[i])
    ensures ArgumentSuggestions(standard, def, done + (name + ":" + value)) == []
  {
    NoCommaAround(name, value);
    CurrentArgument(done, name + ":" + value);
    ValueTypedHere(name, value);
    StopsWhileTypingValue(standard, def, done + (name + ":" + value));
  }

  /** Right after the `:` of the current argument, nothing is offered either. */
  lemma ColonStopsSuggestions(standard: seq<string>, def: Option<VariadicDef>, done: string, name: string)
    requires done == [] || done[|done| - 1] == ','
    requires ',' !in name && ':' !in name
    ensures ArgumentSuggestions(standard, def, done + (name + ":")) == []
  {
    NoCommaAround(name, "");
    assert name + ":" + "" == name + ":";
    CurrentArgument(done, name + ":");
    ColonTypedHere(name);
    StopsWhileTypingValue(standard, def, done + (name + ":"));
  }

  /**
   * For a type without variadic groups, right after a comma (or the `(`),
   * exactly the standard parameters not named by a completed argument
   * are offered, in table order, so none is offered twice.
   */
  lemma UnusedOffered(standard: seq<string>, done: string, spaces: string)
    requires done == [] || done[|done| - 1] == ','
    requires forall i :: 0 <= i < |spaces| ==> IsSpace(spaces[i])
    ensures ArgumentSuggestions(standard, None, done + spaces) == Unused(standard, UsedNames(done))
    ensures forall x :: x in ArgumentSuggestions(standard, None, done + spaces) <==>
      x in standard && x !in UsedNames(done)
  {
    assert ',' !in spaces by {
      forall i | 0 <= i < |spaces| ensures spaces[i] != ',' {
        assert IsSpace(spaces[i]);
      }
    }
    assert ':' !in spaces by {
      forall i | 0 <= i < |spaces| ensures spaces[i] != ':' {
        assert IsSpace(spaces[i]);
      }
    }
    CurrentArgument(done, spaces);
    assert Split(spaces, ':') == [spaces];
    UnusedCounts(standard, UsedNames(done));
  }

  /** A partial name narrows the offer to entries that start with it, ignoring case. */
  lemma PartialNarrows(standard: seq<string>, def: Option<VariadicDef>, args: string, x: string)
    requires !TypingValue(Current(args))
    requires Trim(Split(Current(args), ':')[0]) != []
    requires x in ArgumentSuggestions(standard, def, args)
    ensures StartsWith(LowerStr(x), LowerStr(Trim(Split(Current(args), ':')[0])))
    ensures x in standard || (def.Some? && x in VariadicSuggestions(def.value.params, TypedNames(args)))
  {
    UnusedCounts(standard, UsedNames(Completed(args)));
  }

  // ---------------------------------------------------------------------
  // After an object definition: keywords and modifiers
  // ---------------------------------------------------------------------

  /** Where the run of word characters starting at `i` ends. */
  function WordEnd(s: string, i: nat): (e: nat)
    requires i <= |s|
    ensures i <= e <= |s| && (forall j :: i <= j < e ==> IsWordChar(s[j])) && (e < |s| ==> !IsWordChar(s[e]))
    decreases |s| - i
  {
    if i < |s| && IsWordChar(s[i]) then WordEnd(s, i + 1) else i
  }

  /** Where the run of spaces starting at `i` ends. */
  function SpacesEnd(s: string, i: nat): (e: nat)
    requires i <= |s|
    ensures i <= e <= |s| && (forall j :: i <= j < e ==> IsSpace(s[j])) && (e < |s| ==> !IsSpace(s[e]))
    decreases |s| - i
  {
    if i < |s| && IsSpace(s[i]) then SpacesEnd(s, i + 1) else i
  }

  /** The first `)` at or after `i`, or `|s|` when there is none. */
  function CloseFrom(s: string, i: nat): (e: nat)
    requires i <= |s|
    ensures i <= e <= |s| && (forall j :: i <= j < e ==> s[j] != ')') && (e < |s| ==> s[e] == ')')
    decreases |s| - i
  {
    if i < |s| && s[i] != ')' then CloseFrom(s, i + 1) else i
  }

  /**
   * `s.match(/^\s*\w+\s*\([^)]*\)/)`: where the object definition that
   * opens `s` ends, which is just after the first `)` of `s`.
   */
  function ObjectDefEnd(s: string): (r: Option<nat>)
    ensures r.Some? ==> 0 < r.value <= |s| && s[r.value - 1] == ')'
    ensures r.Some? ==> forall j :: 0 <= j < r.value - 1 ==> s[j] != ')'
  {
    var a := SpacesEnd(s, 0);
    var w := WordEnd(s, a);
    if w == a then None
    else
      var b := SpacesEnd(s, w);
      if b == |s| || s[b] != '(' then None
      else
        var c := CloseFrom(s, b + 1);
        if c == |s| then None
        else
          NoCloseBefore(s, a, w, b, c);
          Some(c + 1)
  }

  /** Spaces, a word, spaces, `(` and characters other than `)` contain no `)`. */
  lemma NoCloseBefore(s: string, a: nat, w: nat, b: nat, c: nat)
    requires a <= w <= b < c <= |s|
    requires forall j :: 0 <= j < a ==> IsSpace(s[j])
    requires forall j :: a <= j < w ==> IsWordChar(s[j])
    requires forall j :: w <= j < b ==> IsSpace(s[j])
    requires s[b] == '('
    requires forall j :: b < j < c ==> s[j] != ')'
    ensures forall j :: 0 <= j < c ==> s[j] != ')'
  {
    forall j | 0 <= j < c ensures s[j] != ')' {
      if j < a || w <= j < b {
        SpaceNotWordChar(s[j]);
      }
    }
  }

  /** A run of spaces from `i` to `e` that is not followed by a space ends at `e`. */
  lemma {:induction false} SpacesEndAt(s: string, i: nat, e: nat)
    requires i <= e <= |s|
    requires forall j :: i <= j < e ==> IsSpace(s[j])
    requires e < |s| ==> !IsSpace(s[e])
    ensures SpacesEnd(s, i) == e
    decreases e - i
  {
    if i < e {
      SpacesEndAt(s, i + 1, e);
    }
  }

  /** A run of word characters from `i` to `e` that is not followed by one ends at `e`. */
  lemma {:induction false} WordEndAt(s: string, i: nat, e: nat)
    requires i <= e <= |s|
    requires forall j :: i <= j < e ==> IsWordChar(s[j])
    requires e < |s| ==> !IsWordChar(s[e])
    ensures WordEnd(s, i) == e
    decreases e - i
  {
    if i < e {
      WordEndAt(s, i + 1, e);
    }
  }

  /** The first `)` at or after `i` is at `e` when `s[i..e]` holds none. */
  lemma {:induction false} CloseFromAt(s: string, i: nat, e: nat)
    requires i <= e < |s| && s[e] == ')'
    requires forall j :: i <= j < e ==> s[j] != ')'
    ensures CloseFrom(s, i) == e
    decreases e - i
  {
    if i < e {
      CloseFromAt(s, i + 1, e);
    }
  }

  /**
   * Every text made of spaces, a word, spaces, `(`, text without `)`, `)`
   * and anything after it is matched, and the match ends right after that
   * `)`.  So `ObjectDefEnd` is None exactly on texts without this form.
   */
  lemma ObjectDefEndMatches(s: string, sp1: string, word: string, sp2: string, inner: string, rest: string)
    requires s == sp1 + word + sp2 + "(" + inner + ")" + rest
    requires forall i :: 0 <= i < |sp1| ==> IsSpace(sp1[i])
    requires word != [] && AllWordChars(word)
    requires forall i :: 0 <= i < |sp2| ==> IsSpace(sp2[i])
    requires ')' !in inner
    ensures ObjectDefEnd(s) == Some(|sp1| + |word| + |sp2| + |inner| + 2)
  {
    var a, w := |sp1|, |sp1| + |word|;
    var b := w + |sp2|;
    ObjectDefRuns(s, sp1, word, sp2, inner, rest);
    ObjectDefEndOfRuns(s, a, w, b, b + 1 + |inner|);
  }

  /**
   * `ObjectDefEnd` is None exactly when `s` does not open with an object
   * definition, and otherwise its runs are the ones the scans found.
   */
  lemma ObjectDefEndNone(s: string)
    ensures ObjectDefEnd(s).None? <==> forall a, w, b, c :: !ObjectDefAt(s, a, w, b, c)
    ensures ObjectDefEnd(s).Some? ==>
      var a := SpacesEnd(s, 0);
      ObjectDefAt(s, a, WordEnd(s, a), SpacesEnd(s, WordEnd(s, a)), ObjectDefEnd(s).value - 1)
  {
    if ObjectDefEnd(s).None? {
      forall a, w, b, c | ObjectDefAt(s, a, w, b, c) ensures false {
        ObjectDefEndOfRuns(s, a, w, b, c);
      }
    } else {
      var a := SpacesEnd(s, 0);
      var w := WordEnd(s, a);
      var b := SpacesEnd(s, w);
      var c := CloseFrom(s, b + 1);
      assert ObjectDefEnd(s) == Some(c + 1);
      assert ObjectDefAt(s, a, w, b, c);
    }
  }

  /** The runs an object definition is made of, located in its text. */
  lemma ObjectDefRuns(s: string, sp1: string, word: string, sp2: string, inner: string, rest: string)
    requires s == sp1 + word + sp2 + "(" + inner + ")" + rest
    requires forall i :: 0 <= i < |sp1| ==> IsSpace(sp1[i])
    requires AllWordChars(word)
    requires forall i :: 0 <= i < |sp2| ==> IsSpace(sp2[i])
    requires ')' !in inner
    ensures |sp1| + |word| + |sp2| + |inner| + 1 < |s|
    ensures forall j :: 0 <= j < |sp1| ==> IsSpace(s[j])
    ensures forall j :: |sp1| <= j < |sp1| + |word| ==> IsWordChar(s[j])
    ensures forall j :: |sp1| + |word| <= j < |sp1| + |word| + |sp2| ==> IsSpace(s[j])
    ensures s[|sp1| + |word| + |sp2|] == '(' && s[|sp1| + |word| + |sp2| + 1 + |inner|] == ')'
    ensures forall j :: |sp1| + |word| + |sp2| < j < |sp1| + |word| + |sp2| + 1 + |inner| ==> s[j] != ')'
  {
    ObjectDefPieces(s, sp1, word, sp2, inner, rest);
    var a, w := |sp1|, |sp1| + |word|;
    var b := w + |sp2|;
    var c := b + 1 + |inner|;
    forall j | 0 <= j < a ensures IsSpace(s[j]) {
      assert s[j] == sp1[j];
    }
    forall j | a <= j < w ensures IsWordChar(s[j]) {
      assert s[j] == word[j - a];
    }
    forall j | w <= j < b ensures IsSpace(s[j]) {
      assert s[j] == sp2[j - w];
    }
    forall j | b < j < c ensures s[j] != ')' {
      assert s[j] == inner[j - b - 1];
    }
  }

  /**
   * `s` opens with `/\s*\w+\s*\([^)]*\)/`: spaces up to `a`, word
   * characters up to `w`, spaces up to `b`, `(` at `b`, no `)` between,
   * and `)` at `c`.
   */
  predicate ObjectDefAt(s: string, a: int, w: int, b: int, c: int)
  {
    0 <= a < w <= b < c < |s|
    && (forall j :: 0 <= j < a ==> IsSpace(s[j]))
    && (forall j :: a <= j < w ==> IsWordChar(s[j]))
    && (forall j :: w <= j < b ==> IsSpace(s[j]))
    && s[b] == '(' && s[c] == ')'
    && (forall j :: b < j < c ==> s[j] != ')')
  }

  /** `ObjectDefEnd` once the runs of spaces, word characters and non-`)` characters are located. */
  lemma ObjectDefEndOfRuns(s: string, a: nat, w: nat, b: nat, c: nat)
    requires ObjectDefAt(s, a, w, b, c)
    ensures ObjectDefEnd(s) == Some(c + 1)
  {
    WordCharNotSpace(s[a]);
    SpacesEndAt(s, 0, a);
    if w < b {
      SpaceNotWordChar(s[w]);
    }
    WordEndAt(s, a, w);
    WordCharNotSpace(s[b]);
    SpacesEndAt(s, w, b);
    CloseFromAt(s, b + 1, c);
  }

  /** Where the pieces of an object definition sit in its text. */
  lemma ObjectDefPieces(s: string, sp1: string, word: string, sp2: string, inner: string, rest: string)
    requires s == sp1 + word + sp2 + "(" + inner + ")" + rest
    ensures |sp1| + |word| + |sp2| + |inner| + 1 < |s|
    ensures forall j :: 0 <= j < |sp1| ==> s[j] == sp1[j]
    ensures forall j :: 0 <= j < |word| ==> s[|sp1| + j] == word[j]
    ensures forall j :: 0 <= j < |sp2| ==> s[|sp1| + |word| + j] == sp2[j]
    ensures s[|sp1| + |word| + |sp2|] == '('
    ensures forall j :: 0 <= j < |inner| ==> s[|sp1| + |word| + |sp2| + 1 + j] == inner[j]
    ensures s[|sp1| + |word| + |sp2| + 1 + |inner|] == ')'
  {
  }

  /** `s` is exactly an object definition (`/^\s*\w+\s*\([^)]*\)$/`). */
  predicate EndOfObject(s: string)
  {
    ObjectDefEnd(s) == Some(|s|)
  }

  /** Some word of `parts` is `kw` once upper-cased (`parts.some(p => p.toUpperCase() === kw)`). */
  predicate HasPart(parts: seq<string>, kw: string)
  {
    exists i :: 0 <= i < |parts| && UpperStr(parts[i]) == kw
  }

  /** The last word already finished: the one before the word being typed, or the last one. */
  function LastCompletePart(parts: seq<string>, typing: bool): string
  {
    var i := if typing then |parts| - 2 else |parts| - 1;
    if 0 <= i then parts[i] else ""
  }

  /** `/\bSET\s*(\w*)$/` can match at `p`. */
  predicate SetAt(u: string, p: nat)
  {
    p + 3 <= |u| && u[p..p + 3] == "SET" && (p == 0 || !IsWordChar(u[p - 1]))
    && forall j :: p + 3 + LeadingSpaces(u[p + 3..]) <= j < |u| ==> IsWordChar(u[j])
  }

  /** The first `p >= i` where `SetAt` holds. */
  function SetSearch(u: string, i: nat): (r: Option<nat>)
    requires i <= |u|
    ensures r.Some? ==> i <= r.value && SetAt(u, r.value)
    ensures forall p :: i <= p && (r.None? || p < r.value) ==> !SetAt(u, p)
    decreases |u| - i
  {
    if i == |u| then None
    else if SetAt(u, i) then Some(i)
    else SetSearch(u, i + 1)
  }

  /** `u.match(/\bSET\s*(\w*)$/)[1]`: the modifier name being typed after `SET`. */
  function SetPartial(u: string): (r: Option<string>)
    ensures r.Some? ==> AllWordChars(r.value) && EndsWith(u, r.value)
    ensures r.None? <==> forall p :: 0 <= p < |u| ==> !SetAt(u, p)
    ensures r.Some? ==> exists p :: (0 <= p < |u| && SetAt(u, p) && (forall q :: 0 <= q < p ==> !SetAt(u, q))
      && r.value == u[p + 3 + LeadingSpaces(u[p + 3..])..])
  {
    match SetSearch(u, 0)
    case None => None
    case Some(p) => Some(u[p + 3 + LeadingSpaces(u[p + 3..])..])
  }

  /** The keywords the clause grammar still allows after the words `parts`. */
  function AvailableKeywords(parts: seq<string>): seq<string>
  {
    if HasPart(parts, "CHILD") then ["SET"]
    else if HasPart(parts, "AS") then ["CHILD TO", "SET"]
    else ["AS", "CHILD TO", "SET"]
  }

  /** The suggestions after an object definition, `rest` being the text that follows it. */
  function KeywordSuggestions(rest: string, filter: bool): seq<string>
  {
    var typing := !EndsWith(rest, " ");
    var parts := Words(Trim(rest));
    var last := UpperStr(LastCompletePart(parts, typing));
    if last == "AS" || last == "TO" then []
    else if HasPart(parts, "SET") then
      var partial := SetPartial(UpperStr(rest));
      if partial.Some? && (partial.value != [] || !filter) then KeepPrefixed(EditorModifierKeys(), partial.value, UpperStr)
      else []
    else
      var available := AvailableKeywords(parts);
      var partial := if typing && |parts| > 0 then parts[|parts| - 1] else "";
      if partial != [] then KeepPrefixed(available, UpperStr(partial), s => s)
      else if filter then [] else available
  }

  /** After `AS` or `TO`, a name is expected, so nothing is offered. */
  lemma NothingAfterAsOrTo(rest: string, filter: bool)
    requires var parts := Words(Trim(rest));
      var last := UpperStr(LastCompletePart(parts, !EndsWith(rest, " ")));
      last == "AS" || last == "TO"
    ensures KeywordSuggestions(rest, filter) == []
  {
  }

  /**
   * Before any `SET`, and not right after `AS` or `TO`, the keywords
   * offered on request are `SET` after `CHILD`, `CHILD TO` and `SET` after
   * `AS`, and all three otherwise; without a request nothing is offered.
   */
  lemma KeywordsOffered(rest: string)
    requires EndsWith(rest, " ")
    requires var parts := Words(Trim(rest));
      var last := UpperStr(LastCompletePart(parts, false));
      last != "AS" && last != "TO" && !HasPart(parts, "SET")
    ensures var parts := Words(Trim(rest));
      KeywordSuggestions(rest, false) ==
        if HasPart(parts, "CHILD") then ["SET"]
        else if HasPart(parts, "AS") then ["CHILD TO", "SET"]
        else ["AS", "CHILD TO", "SET"]
    ensures KeywordSuggestions(rest, true) == []
  {
  }

  /** While a keyword is being typed, only the allowed keywords it begins are offered. */
  lemma KeywordTyped(rest: string, filter: bool, x: string)
    requires !EndsWith(rest, " ")
    requires var parts := Words(Trim(rest));
      var last := UpperStr(LastCompletePart(parts, true));
      last != "AS" && last != "TO" && !HasPart(parts, "SET") && |parts| > 0
    ensures var parts := Words(Trim(rest));
      x in KeywordSuggestions(rest, filter) <==>
        x in AvailableKeywords(parts) && StartsWith(x, UpperStr(parts[|parts| - 1]))
  {
    var parts := Words(Trim(rest));
    WordsAreRuns(Trim(rest));
    assert parts[|parts| - 1] != [];
  }

  /** The whole editor table passes the empty filter. */
  lemma EditorKeysUnfiltered()
    ensures KeepPrefixed(EditorModifierKeys(), [], UpperStr) == ["Color", "Layer", "Flip", "Mirror", "Fill"]
  {
    var keys := EditorModifierKeys();
    assert keys == ["Color", "Layer", "Flip", "Mirror", "Fill"] by {
      assert keys[0] == "Color" && keys[1] == "Layer" && keys[2] == "Flip";
      assert keys[3] == "Mirror" && keys[4] == "Fill";
    }
    assert UpperStr([]) == [];
    forall i | 0 <= i < |keys| ensures StartsWith(UpperStr(keys[i]), UpperStr([])) {
      assert UpperStr(keys[i])[..0] == [];
    }
    KeepPrefixedAll(keys, [], UpperStr);
  }

  /**
   * Right after `SET` and before any letter of a modifier, the whole
   * editor table is offered on request, in its order: Color, Layer, Flip,
   * Mirror, Fill.
   */
  lemma AllModifiersAfterSet(rest: string)
    requires var parts := Words(Trim(rest));
      var last := UpperStr(LastCompletePart(parts, !EndsWith(rest, " ")));
      last != "AS" && last != "TO" && HasPart(parts, "SET")
    requires SetPartial(UpperStr(rest)) == Some([])
    ensures KeywordSuggestions(rest, false) == ["Color", "Layer", "Flip", "Mirror", "Fill"]
  {
    EditorKeysUnfiltered();
  }

  /** `" SET "` is a `SET` clause with nothing typed after it. */
  lemma SetClauseEmpty(u: string)
    requires u == " SET "
    ensures Words(Trim(u)) == ["SET"]
    ensures SetPartial(UpperStr(u)) == Some([])
    ensures EndsWith(u, " ") && UpperStr(LastCompletePart(Words(Trim(u)), false)) == "SET"
    ensures HasPart(Words(Trim(u)), "SET")
  {
    assert LeadingSpaces(u) == 1 by { WordCharNotSpace(u[1]); }
    assert Trim(u) == "SET" by {
      WordCharNotSpace(u[3]);
      var t := Trim(u);
      assert t != [] by { WordCharNotSpace(u[1]); }
      assert |t| == 3;
    }
    WordCharNotSpace('S'); WordCharNotSpace('E'); WordCharNotSpace('T');
    WordsOfRun("SET");
    assert UpperStr(u) == u;
    assert !SetAt(u, 0) by { assert u[0..3] != "SET"; }
    assert LeadingSpaces(u[4..]) == 1;
    assert SetAt(u, 1);
    assert SetSearch(u, 1) == Some(1);
    assert UpperStr("SET") == "SET";
    assert HasPart(["SET"], "SET") by { assert UpperStr(["SET"][0]) == "SET"; }
  }

  /** After `Rectangle()`, the statement `Rectangle() SET ` is answered by the keyword offer for ` SET `. */
  lemma RectangleSetStatement(text: string)
    requires text == "Rectangle() SET "
    ensures Suggest(text, 16, false) == Listed(KeywordSuggestions(text[11..], false))
  {
    assert Slice(text, 0, 16) == text;
    LastIndexOfAt(text, ')', 10);
    LastIndexOfAt(text, '(', 9);
    assert ',' !in text;
    NoTopLevelComma(text);
    assert text[0..] == text;
    assert AllWordChars("Rectangle");
    assert text == "" + "Rectangle" + "" + "(" + "" + ")" + text[11..];
    ObjectDefEndMatches(text, "", "Rectangle", "", "", text[11..]);
    SuggestAfterDefinition(text, 16, false, text, 11);
  }

  /** After `Rectangle()`, the text ` SET ` is offered the whole editor table, in the editor's order. */
  lemma SetClauseOffersAll(text: string)
    requires text == "Rectangle() SET "
    ensures KeywordSuggestions(text[11..], false) == ["Color", "Layer", "Flip", "Mirror", "Fill"]
  {
    var rest := text[11..];
    assert rest == " SET ";
    SetClauseEmpty(rest);
    AllModifiersAfterSet(rest);
  }

  /** `getSuggestions("Rectangle() SET ", 16, false)` lists the five modifiers in the editor's order. */
  lemma SetOffersEditorOrder(text: string)
    requires text == "Rectangle() SET "
    ensures Suggest(text, 16, false) == Listed(["Color", "Layer", "Flip", "Mirror", "Fill"])
  {
    RectangleSetStatement(text);
    SetClauseOffersAll(text);
  }

  /** In a `SET` clause, the modifiers offered are those whose name starts with what follows `SET`. */
  lemma ModifiersAfterSet(rest: string, filter: bool, x: string)
    requires var parts := Words(Trim(rest));
      var last := UpperStr(LastCompletePart(parts, !EndsWith(rest, " ")));
      last != "AS" && last != "TO" && HasPart(parts, "SET")
    requires SetPartial(UpperStr(rest)).Some?
    requires SetPartial(UpperStr(rest)).value != [] || !filter
    ensures x in KeywordSuggestions(rest, filter) <==>
      x in EditorModifierKeys() && StartsWith(UpperStr(x), UpperStr(SetPartial(UpperStr(rest)).value))
  {
  }

  /** In a `SET` clause nothing else is offered: no keyword, and no modifier unless one is typed or requested. */
  lemma OnlyModifiersAfterSet(rest: string, filter: bool)
    requires var parts := Words(Trim(rest));
      var last := UpperStr(LastCompletePart(parts, !EndsWith(rest, " ")));
      last != "AS" && last != "TO" && HasPart(parts, "SET")
    requires SetPartial(UpperStr(rest)).None? || (SetPartial(UpperStr(rest)).value == [] && filter)
    ensures KeywordSuggestions(rest, filter) == []
  {
  }

  // ---------------------------------------------------------------------
  // Elsewhere: object types and clones
  // ---------------------------------------------------------------------

  /** `/([a-zA-Z_!][a-zA-Z0-9_]*)$/` can match at `p`. */
  predicate TailWordAt(t: string, p: nat)
  {
    p < |t| && (IsIdentStart(t[p]) || t[p] == '!') && forall j :: p < j < |t| ==> IsWordChar(t[j])
  }

  /** The first `p >= i` where `TailWordAt` holds. */
  function TailWordSearch(t: string, i: nat): (r: Option<nat>)
    requires i <= |t|
    ensures r.Some? ==> i <= r.value && TailWordAt(t, r.value)
    ensures forall p :: i <= p && (r.None? || p < r.value) ==> !TailWordAt(t, p)
    decreases |t| - i
  {
    if i == |t| then None
    else if TailWordAt(t, i) then Some(i)
    else TailWordSearch(t, i + 1)
  }

  /** The word being typed at the end of `t`, or "" when `t` does not end in one. */
  function CurrentWord(t: string): (w: string)
    ensures w != [] ==> EndsWith(t, w) && (IsIdentStart(w[0]) || w[0] == '!')
    ensures w != [] ==> forall j :: |t| - |w| < j < |t| ==> IsWordChar(t[j])
    ensures w == [] <==> forall p :: 0 <= p < |t| ==> !TailWordAt(t, p)
    ensures forall p :: 0 <= p < |t| - |w| ==> !TailWordAt(t, p)
  {
    match TailWordSearch(t, 0)
    case None => []
    case Some(p) => t[p..]
  }

  /** Object type names, then `!` for a clone. */
  function Starters(): (r: seq<string>)
    ensures |r| == |ObjectKinds| + 1 && r[|r| - 1] == "!"
  {
    ObjectKeys() + ["!"]
  }

  /** What `getSuggestions` settles on without running the interpreter, or the clone query it needs. */
  datatype Suggestion =
    | Listed(items: seq<string>)
    | Clones(source: string, partial: string)
    | Throws(error: TypeError)

  /** The suggestions when the statement has no object definition yet. */
  function DefaultSuggestions(text: string, statement: string, filter: bool): Suggestion
  {
    var trimmed := Trim(statement);
    var word := CurrentWord(trimmed);
    if word != [] && word[0] == '!' then
      var bang := LastIndexOf(text, '!');
      Clones(if bang < 0 then [] else text[..bang], LowerStr(word[1..]))
    else if word != [] then Listed(WithPrefixIgnoringCase(Starters(), word))
    else if trimmed != [] then Listed([])
    else if !filter then Listed(Starters())
    else Listed([])
  }

  /** `params.map(p => p.name)`. */
  function Names(params: seq<Param>): (r: seq<string>)
    ensures |r| == |params| && forall i :: 0 <= i < |r| ==> r[i] == params[i].name
  {
    seq(|params|, i requires 0 <= i < |params| => params[i].name)
  }

  /**
   * Everything `getSuggestions` decides from the text alone.  Both tests
   * of the source's first branch are pure, so the parenthesis test is
   * taken first here.
   */
  function Suggest(text: string, cursor: nat, filter: bool): Suggestion
  {
    var upTo := Slice(text, 0, cursor);
    if LastIndexOf(upTo, '(') > LastIndexOf(upTo, ')') && ParamContext(upTo).Some? then
      CallSuggestions(ParamContext(upTo).value.0, ParamContext(upTo).value.1)
    else StatementSuggestions(text, upTo[LastTopLevelComma(upTo) + 1..], filter)
  }

  /** The suggestions inside the open argument list `args` of a call to `name`. */
  function CallSuggestions(name: string, args: string): Suggestion
  {
    match ObjectEntry(name)
    case Absent => Listed([])
    case Inherited(key) => Throws(NotAnObjectType(key))
    case Own(k) => Listed(ArgumentSuggestions(Names(ParamTable(k)), Variadic(k), args))
  }

  /** The suggestions for the last statement when the cursor is not inside an argument list. */
  function StatementSuggestions(text: string, statement: string, filter: bool): Suggestion
  {
    var end := ObjectDefEnd(statement);
    if end == Some(|statement|) then Listed([])
    else if end.Some? then Listed(KeywordSuggestions(statement[end.value..], filter))
    else DefaultSuggestions(text, statement, filter)
  }

  /**
   * When the text up to the cursor closes its last `(` and its last
   * statement is an object definition followed by more text, the offer is
   * the keyword offer for that text.
   */
  lemma SuggestAfterDefinition(text: string, cursor: nat, filter: bool, statement: string, end: nat)
    requires LastIndexOf(Slice(text, 0, cursor), '(') < LastIndexOf(Slice(text, 0, cursor), ')')
    requires statement == Slice(text, 0, cursor)[LastTopLevelComma(Slice(text, 0, cursor)) + 1..]
    requires ObjectDefEnd(statement) == Some(end) && end < |statement|
    ensures Suggest(text, cursor, filter) == Listed(KeywordSuggestions(statement[end..], filter))
  {
    SuggestOutsideCall(text, cursor, filter);
    StatementAfterDefinition(text, statement, filter, end);
  }

  /** A statement that opens with an object definition followed by more text is offered keywords for that text. */
  lemma StatementAfterDefinition(text: string, statement: string, filter: bool, end: nat)
    requires ObjectDefEnd(statement) == Some(end) && end < |statement|
    ensures StatementSuggestions(text, statement, filter) == Listed(KeywordSuggestions(statement[end..], filter))
  {
  }

  /** Outside an open argument list, the offer is that of the last statement. */
  lemma SuggestOutsideCall(text: string, cursor: nat, filter: bool)
    requires LastIndexOf(Slice(text, 0, cursor), '(') < LastIndexOf(Slice(text, 0, cursor), ')')
    ensures Suggest(text, cursor, filter) ==
      StatementSuggestions(text, Slice(text, 0, cursor)[LastTopLevelComma(Slice(text, 0, cursor)) + 1..], filter)
  {
  }

  /** Inside the open argument list of a known type, the offer is that of the argument list. */
  lemma SuggestInCall(text: string, cursor: nat, filter: bool, k: Kind)
    requires ParamContext(Slice(text, 0, cursor)).Some?
    requires ObjectNamed(ParamContext(Slice(text, 0, cursor)).value.0) == Some(k)
    ensures Suggest(text, cursor, filter) ==
      Listed(ArgumentSuggestions(Names(ParamTable(k)), Variadic(k), ParamContext(Slice(text, 0, cursor)).value.1))
  {
    ParamContextIsOpen(Slice(text, 0, cursor));
  }

  /** Inside the open argument list of a call named by an inherited member, `getSuggestions` throws. */
  lemma SuggestInInheritedCall(text: string, cursor: nat, filter: bool)
    requires ParamContext(Slice(text, 0, cursor)).Some?
    requires ParamContext(Slice(text, 0, cursor)).value.0 in PrototypeKeys
    ensures Suggest(text, cursor, filter) == Throws(NotAnObjectType(ParamContext(Slice(text, 0, cursor)).value.0))
  {
    ParamContextIsOpen(Slice(text, 0, cursor));
    PrototypeKeysNotRegistered(ParamContext(Slice(text, 0, cursor)).value.0);
  }

  /** A name a clone may copy: it contains no `(` and starts with the prefix, ignoring case. */
  predicate CloneCandidate(n: string, partial: string)
  {
    '(' !in n && StartsWith(LowerStr(n), LowerStr(partial))
  }

  /** The names a clone may copy: the objects' names that qualify, in definition order. */
  function CloneCandidates(objects: seq<Entry>, partial: string): (r: seq<string>)
    ensures forall x :: x in r ==> CloneCandidate(x, partial)
    ensures forall i :: 0 <= i < |objects| ==>
      (CloneCandidate(objects[i].objectName, partial) ==> objects[i].objectName in r)
    ensures |objects| == 1 ==>
      r == if CloneCandidate(objects[0].objectName, partial) then [objects[0].objectName] else []
  {
    if objects == [] then []
    else
      var n := objects[0].objectName;
      var rest := CloneCandidates(objects[1..], partial);
      assert forall i :: 1 <= i < |objects| ==> objects[i] == objects[1..][i - 1];
      if CloneCandidate(n, partial) then [n] + rest else rest
  }

  /** The candidates of two object lists in a row are those of the first, then those of the second. */
  lemma {:induction false} CloneCandidatesAppend(xs: seq<Entry>, ys: seq<Entry>, partial: string)
    ensures CloneCandidates(xs + ys, partial) == CloneCandidates(xs, partial) + CloneCandidates(ys, partial)
    decreases |xs|
  {
    if xs == [] {
      assert xs + ys == ys;
    } else {
      assert (xs + ys)[0] == xs[0] && (xs + ys)[1..] == xs[1..] + ys;
      CloneCandidatesAppend(xs[1..], ys, partial);
    }
  }

  /** What `getSuggestions` throws: the interpreter's failure, or the `TypeError` of an inherited table member. */
  datatype SuggestFailure = FromInterpreter(failure: Failure) | FromLookup(error: TypeError)

  /** `getSuggestions(text, cursorPosition, filter)`. */
  method GetSuggestions(parser: ObjectParser, text: string, cursor: nat, filter: bool)
    returns (r: Result<seq<string>, SuggestFailure>)
    modifies parser
    ensures Suggest(text, cursor, filter).Listed? ==> r == Ok(Suggest(text, cursor, filter).items)
    ensures Suggest(text, cursor, filter).Throws? ==> r == Err(FromLookup(Suggest(text, cursor, filter).error))
    ensures var s := Suggest(text, cursor, filter);
      s.Clones? ==>
        && parser.tokens == LexScene(s.source).tokens
        && parser.mode == Lint
        && (r == match Outcome(Lint, LexScene(s.source).errors, Grammar(parser.tokens), parser.objects, parser.semanticErrors)
              case Ok(v) => Ok(CloneCandidates(v.objects, s.partial))
              case Err(e) => Err(FromInterpreter(e)))
        && (r.Err? <==> Grammar(parser.tokens).Some? && Grammar(parser.tokens).value.JsonThrow?)
        && (r.Ok? ==> r.value == CloneCandidates(parser.objects, s.partial))
  {
    var s := Suggest(text, cursor, filter);
    if s.Listed? {
      r := Ok(s.items);
    } else if s.Throws? {
      r := Err(FromLookup(s.error));
    } else {
      var result, halt := Interpret(parser, s.source, Lint);
      if result.Err? {
        r := Err(FromInterpreter(result.error));
      } else {
        r := Ok(CloneCandidates(result.value.objects, s.partial));
      }
    }
  }
}
