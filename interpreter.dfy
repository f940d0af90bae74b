/**
 * The scene-language interpreter (src/services/instructions/
 * interpreter.ts): a parser with embedded actions that builds scene
 * objects statement by statement, binds their arguments, applies their
 * modifiers, names them and appends them, with two error policies
 * ("execute" throws, "lint" collects).
 *
 * The parser follows the grammar rules one method per rule.  A
 * recognition error is recorded as an opaque `SyntaxError` at a token
 * index and ends the parse; the library's error recovery and its message
 * texts are not modelled.
 */
module Interpreter {
  import opened Wrappers
  import opened Chars
  import opened Values
  import opened Kinds
  import opened Lexing
  import opened SceneLexer
  import opened Scene
  import opened Modifiers
  import opened Binder

  datatype Mode = Execute | Lint

  /**
   * The text of a semantic error: plain text, or a modifier's parse
   * failure, which is the panda prefix followed by the parsing library's
   * message for the first recognition error (whose text is not modelled).
   */
  datatype Message = Text(text: string) | Panda(first: SyntaxError)

  /** An entry of `semanticErrors`: only errors that carry a token are kept. */
  datatype SemanticError = SemanticError(message: Message, token: Tok)

  /**
   * Why a rule stopped: an error thrown in execute mode, `JSON.parse`
   * failing on a Number token (thrown in both modes), or a recognition
   * error.
   */
  datatype Halt = Threw(message: Message) | JsonThrow(image: string) | Syntax(error: SyntaxError)

  /** An element of `objects`: the name it was appended under and the object. */
  datatype Entry = Entry(objectName: string, obj: SceneObject)

  /** What `objectClause`/`cloneClause` return: the type or clone target as written, the object (if any) and the arguments. */
  datatype Clause = Clause(objectName: string, obj: SceneObject?, args: seq<Arg>)

  /** What `singleObjectAndModifiers` returns. */
  datatype Statement = Statement(clause: Clause, name: Option<Tok>, parent: Option<Tok>)

  /** What `interpret` returns. */
  datatype Interpreted = Interpreted(objects: seq<Entry>, lexErrors: seq<LexError>,
                                     parseErrors: seq<SyntaxError>, semanticErrors: seq<SemanticError>)

  /**
   * What `interpret` throws: an action's error, `JSON.parse`'s error, or
   * (execute mode) the first lexing error, else the first parse error.
   */
  datatype Failure = Raised(message: Message) | JsonFailure(image: string) | LexFailure(lexError: LexError) | ParseFailure(error: SyntaxError)

  // ----- messages -----

  function TypeNotFound(n: string): string { "Object type \"" + n + "\" not found." }
  function CloneMissing(n: string): string { "Cannot find named object \"" + n + "\" to clone." }
  function CloneMirrored(n: string): string { "Object \"" + n + "\" is a mirrored object and cannot be cloned." }
  function ParentUndefined(n: string): string { "Parent object \"" + n + "\" is undefined." }
  function NameTaken(n: string): string { "Name \"" + n + "\" is already taken." }
  function ModifierUndefined(n: string): string { "Modifier \"" + n + "\" is undefined." }
  function ModifierUnsupported(key: string, typeName: string): string
  {
    "Modifier \"" + key + "\" is not supported by the " + typeName + " object."
  }
  const TrailingComma: string := "A trailing comma at the end of the statement is not allowed."

  /** The message of what a modifier's `parse` throws. */
  function FailureMessage(f: ModifierFailure): Message
  {
    match f
    case Thrown(m) => Text(m)
    case ParsingErrors(e) => Panda(e)
  }

  /** A semantic problem as `throwOrAddError` receives it: its message and the token, if any. */
  datatype Event = Event(message: Message, token: Option<Tok>)

  /** The binder's problems as events. */
  function FromProblems(ps: seq<Problem>): (r: seq<Event>)
    ensures |r| == |ps|
    ensures forall k :: 0 <= k < |ps| ==> r[k] == Event(Text(ps[k].message), ps[k].token)
  {
    if ps == [] then [] else [Event(Text(ps[0].message), ps[0].token)] + FromProblems(ps[1..])
  }

  /** The events as lint mode records them: those without a token are dropped. */
  function Reported(es: seq<Event>): (r: seq<SemanticError>)
    ensures |r| <= |es|
    ensures forall e :: e in r <==> exists v :: v in es && v.token.Some? && e == SemanticError(v.message, v.token.value)
  {
    if es == [] then []
    else
      var rest := Reported(es[1..]);
      assert forall v :: v in es <==> v == es[0] || v in es[1..];
      if es[0].token.Some? then [SemanticError(es[0].message, es[0].token.value)] + rest else rest
  }

  /** What execute mode throws for the events: the first one, if any. */
  function FirstThrown(es: seq<Event>): (r: Option<Halt>)
    ensures r.None? <==> es == []
    ensures r.Some? ==> r.value == Threw(es[0].message)
  {
    if es == [] then None else Some(Threw(es[0].message))
  }

  /**
   * `throwOrAddError` applied to `es` in turn: execute mode throws the
   * first (nothing is recorded), lint mode records those with a token
   * and goes on.
   */
  predicate Applied(m: Mode, es: seq<Event>, halt: Option<Halt>, before: seq<SemanticError>, after: seq<SemanticError>)
  {
    && (m == Execute ==> halt == FirstThrown(es) && after == before)
    && (m == Lint ==> halt.None? && after == before + Reported(es))
  }

  /**
   * One `throwOrAddError(message, token)` whose rule then goes on: execute
   * mode has thrown it, lint mode has recorded it (whatever the rest of
   * the rule then does to the cursor).
   */
  predicate Refused(m: Mode, message: Message, token: Tok, halt: Option<Halt>, before: seq<SemanticError>, after: seq<SemanticError>)
  {
    && (m == Execute ==> halt == Some(Threw(message)) && after == before)
    && (m == Lint ==> after == before + [SemanticError(message, token)])
  }

  // ----- looking up entries -----

  /** `objects.find(p => p.objectName === name)`, as the index of the first match. */
  function FindEntry(objects: seq<Entry>, name: string): (r: Option<nat>)
    ensures r.Some? ==> r.value < |objects| && objects[r.value].objectName == name
    ensures r.Some? ==> forall j :: 0 <= j < r.value ==> objects[j].objectName != name
    ensures r.None? <==> forall j :: 0 <= j < |objects| ==> objects[j].objectName != name
  {
    if objects == [] then None
    else if objects[0].objectName == name then Some(0)
    else
      match FindEntry(objects[1..], name)
      case None => None
      case Some(i) => Some(i + 1)
  }

  /** Appending entries does not change where an earlier name is first found. */
  lemma FindEntryAppend(objects: seq<Entry>, more: seq<Entry>, name: string)
    requires FindEntry(objects, name).Some?
    ensures FindEntry(objects + more, name) == FindEntry(objects, name)
  {
    var i := FindEntry(objects, name).value;
    assert (objects + more)[i] == objects[i];
  }

  // ----- naming -----

  /** `${objectName}(${order})`, the name of a statement without a usable `AS` name. */
  function Fallback(written: string, order: nat): string
  {
    written + "(" + NatToString(order) + ")"
  }

  /** The name of a Mirror companion. */
  function MirrorName(name: string): string
  {
    name + "-mirrored"
  }

  /** How a statement's name came about: its own `AS` name, or the fallback. */
  datatype BaseName = Chosen(name: string) | Generated(written: string, order: nat)

  /** How an entry's name came about: a statement's own name, or that of its companion. */
  datatype NameOrigin = Own(base: BaseName) | Companion(base: BaseName)

  function BaseText(b: BaseName): string
  {
    match b
    case Chosen(n) => n
    case Generated(w, n) => Fallback(w, n)
  }

  function OriginText(o: NameOrigin): string
  {
    match o
    case Own(b) => BaseText(b)
    case Companion(b) => MirrorName(BaseText(b))
  }

  /** Names and written type or clone names are identifiers, so they hold only word characters. */
  predicate WordBase(b: BaseName)
  {
    match b
    case Chosen(n) => AllWordChars(n)
    case Generated(w, _) => AllWordChars(w)
  }

  /**
   * The name a statement is appended under: its `AS` name when no entry
   * has it yet, else the fallback built from the type or clone target as
   * written and the count of constructed statements.
   */
  function StatementBase(objects: seq<Entry>, asName: Option<Tok>, written: string, order: nat): (b: BaseName)
    ensures b.Chosen? <==> asName.Some? && FindEntry(objects, asName.value.image).None?
  {
    if asName.Some? && FindEntry(objects, asName.value.image).None? then Chosen(asName.value.image)
    else Generated(written, order)
  }

  /** A fallback has `(` right after the written name and ends in `)`. */
  lemma FallbackShape(w: string, n: nat)
    ensures |Fallback(w, n)| > |w| + 1 && Fallback(w, n)[|w|] == '('
    ensures Fallback(w, n)[|Fallback(w, n)| - 1] == ')'
  {
  }

  /** A companion name has `-` right after the owner's name and ends in `d`. */
  lemma MirrorShape(t: string)
    ensures |MirrorName(t)| > |t| && MirrorName(t)[|t|] == '-'
    ensures MirrorName(t)[|MirrorName(t)| - 1] == 'd'
  {
  }

  lemma WordCharAt(n: string, i: int)
    ensures AllWordChars(n) && 0 <= i < |n| ==> IsWordChar(n[i])
  {
  }

  /** Two different fallbacks, or a fallback and an identifier, never spell the same name. */
  lemma {:induction false} BaseTextInjective(a: BaseName, b: BaseName)
    requires WordBase(a) && WordBase(b) && BaseText(a) == BaseText(b)
    ensures a == b
  {
    match (a, b)
    case (Chosen(n), Generated(w, k)) =>
      FallbackShape(w, k);
      WordCharAt(n, |w|);
    case (Generated(w, k), Chosen(n)) =>
      FallbackShape(w, k);
      WordCharAt(n, |w|);
    case (Chosen(_), Chosen(_)) =>
    case (Generated(w, k), Generated(w', k')) =>
      var s := BaseText(a);
      FallbackShape(w, k);
      FallbackShape(w', k');
      WordCharAt(w', |w|);
      WordCharAt(w, |w'|);
      assert |w| == |w'|;
      assert w == s[..|w|] == w';
      assert s[|w| + 1..|s| - 1] == NatToString(k);
      assert BaseText(b)[|w| + 1..|s| - 1] == NatToString(k');
      NatToStringInjective(k, k');
  }

  /** Entry names of different origins differ: a companion's name is its owner's with `-mirrored` added. */
  lemma {:induction false} OriginTextInjective(a: NameOrigin, b: NameOrigin)
    requires WordBase(a.base) && WordBase(b.base) && OriginText(a) == OriginText(b)
    ensures a == b
  {
    if a.Own? && b.Companion? {
      OwnIsNoCompanion(a.base, b.base);
    } else if a.Companion? && b.Own? {
      OwnIsNoCompanion(b.base, a.base);
    } else if a.Companion? {
      var s, t, t' := OriginText(a), BaseText(a.base), BaseText(b.base);
      assert t == s[..|t|] == t';
      BaseTextInjective(a.base, b.base);
    } else {
      BaseTextInjective(a.base, b.base);
    }
  }

  /** A statement's own name never ends in `-mirrored` after an identifier or a fallback. */
  lemma OwnIsNoCompanion(x: BaseName, y: BaseName)
    requires WordBase(x) && WordBase(y)
    ensures BaseText(x) != MirrorName(BaseText(y))
  {
    var t := BaseText(y);
    MirrorShape(t);
    match x
    case Chosen(n) =>
      WordCharAt(n, |t|);
    case Generated(w, k) =>
      FallbackShape(w, k);
  }

  /** No two entries share a name, so `find` by name is unambiguous. */
  predicate DistinctNames(objects: seq<Entry>)
  {
    forall i, j :: 0 <= i < j < |objects| ==> objects[i].objectName != objects[j].objectName
  }

  /**
   * How the entries' names came about: each is an origin's text, every
   * base is made of word characters, every fallback used a rank below
   * `order`, and a companion always follows its own statement's entry.
   */
  ghost predicate Named(objects: seq<Entry>, origins: seq<NameOrigin>, order: nat)
  {
    && |origins| == |objects|
    && (forall i :: 0 <= i < |objects| ==> objects[i].objectName == OriginText(origins[i]))
    && (forall i :: 0 <= i < |origins| ==> WordBase(origins[i].base))
    && (forall i :: 0 <= i < |origins| && origins[i].base.Generated? ==> origins[i].base.order < order)
    && (forall i :: 0 <= i < |origins| && origins[i].Companion? ==> Own(origins[i].base) in origins)
  }

  /** A statement's name, chosen or generated, and its companion's name are both new. */
  lemma NewNames(objects: seq<Entry>, origins: seq<NameOrigin>, order: nat, b: BaseName)
    requires Named(objects, origins, order)
    requires WordBase(b) && (b.Generated? ==> b.order == order) && (b.Chosen? ==> FindEntry(objects, b.name).None?)
    ensures forall i :: 0 <= i < |objects| ==> objects[i].objectName != BaseText(b)
    ensures forall i :: 0 <= i < |objects| ==> objects[i].objectName != MirrorName(BaseText(b))
  {
    forall i | 0 <= i < |objects| ensures objects[i].objectName != BaseText(b) {
      if objects[i].objectName == BaseText(b) {
        OriginTextInjective(origins[i], Own(b));
      }
    }
    forall i | 0 <= i < |objects| ensures objects[i].objectName != MirrorName(BaseText(b)) {
      if objects[i].objectName == MirrorName(BaseText(b)) {
        OriginTextInjective(origins[i], Companion(b));
      }
    }
  }

  /**
   * Appending a statement's entry, and its companion's, keeps every name
   * distinct: the bookkeeping never appends a name twice.
   */
  lemma PushNames(objects: seq<Entry>, origins: seq<NameOrigin>, order: nat, b: BaseName, more: seq<Entry>)
    requires Named(objects, origins, order) && DistinctNames(objects)
    requires WordBase(b) && (b.Generated? ==> b.order == order) && (b.Chosen? ==> FindEntry(objects, b.name).None?)
    requires |more| == 1 || |more| == 2
    requires more[0].objectName == BaseText(b)
    requires |more| == 2 ==> more[1].objectName == MirrorName(BaseText(b))
    ensures var origins' := origins + [Own(b)] + (if |more| == 2 then [Companion(b)] else []);
      Named(objects + more, origins', order + 1) && DistinctNames(objects + more)
  {
    var origins' := origins + [Own(b)] + (if |more| == 2 then [Companion(b)] else []);
    PushDistinct(objects, origins, order, b, more);
    PushOrigins(objects, origins, order, b, more, origins');
  }

  lemma PushDistinct(objects: seq<Entry>, origins: seq<NameOrigin>, order: nat, b: BaseName, more: seq<Entry>)
    requires Named(objects, origins, order) && DistinctNames(objects)
    requires WordBase(b) && (b.Generated? ==> b.order == order) && (b.Chosen? ==> FindEntry(objects, b.name).None?)
    requires |more| == 1 || |more| == 2
    requires more[0].objectName == BaseText(b)
    requires |more| == 2 ==> more[1].objectName == MirrorName(BaseText(b))
    ensures DistinctNames(objects + more)
  {
    NewNames(objects, origins, order, b);
    OwnIsNoCompanion(b, b);
    var objects' := objects + more;
    forall i, j | 0 <= i < j < |objects'| ensures objects'[i].objectName != objects'[j].objectName {
      if j < |objects| {
        assert objects'[i] == objects[i] && objects'[j] == objects[j];
      } else if i < |objects| {
        assert objects'[i] == objects[i] && objects'[j] == more[j - |objects|];
      }
    }
  }

  lemma PushOrigins(objects: seq<Entry>, origins: seq<NameOrigin>, order: nat, b: BaseName, more: seq<Entry>,
                    origins': seq<NameOrigin>)
    requires Named(objects, origins, order)
    requires WordBase(b) && (b.Generated? ==> b.order == order)
    requires |more| == 1 || |more| == 2
    requires more[0].objectName == BaseText(b)
    requires |more| == 2 ==> more[1].objectName == MirrorName(BaseText(b))
    requires origins' == origins + [Own(b)] + (if |more| == 2 then [Companion(b)] else [])
    ensures Named(objects + more, origins', order + 1)
  {
    PushOwners(origins, b, |more| == 2, origins');
    PushTexts(objects, origins, b, more, origins');
    PushBases(origins, order, b, |more| == 2, origins');
  }

  /** The pushed origins are words, and their fallback ranks stay below the next `order`. */
  lemma PushBases(origins: seq<NameOrigin>, order: nat, b: BaseName, mirrored: bool, origins': seq<NameOrigin>)
    requires forall i :: 0 <= i < |origins| ==> WordBase(origins[i].base)
    requires forall i :: 0 <= i < |origins| && origins[i].base.Generated? ==> origins[i].base.order < order
    requires WordBase(b) && (b.Generated? ==> b.order == order)
    requires origins' == origins + [Own(b)] + (if mirrored then [Companion(b)] else [])
    ensures forall i :: 0 <= i < |origins'| ==> WordBase(origins'[i].base)
    ensures forall i :: 0 <= i < |origins'| && origins'[i].base.Generated? ==> origins'[i].base.order < order + 1
  {
    forall i | 0 <= i < |origins'| ensures WordBase(origins'[i].base) && (origins'[i].base.Generated? ==> origins'[i].base.order < order + 1) {
      if i < |origins| {
        assert origins'[i] == origins[i];
      }
    }
  }

  /** Every companion origin still has its own origin after a push. */
  lemma PushOwners(origins: seq<NameOrigin>, b: BaseName, mirrored: bool, origins': seq<NameOrigin>)
    requires forall i :: 0 <= i < |origins| && origins[i].Companion? ==> Own(origins[i].base) in origins
    requires origins' == origins + [Own(b)] + (if mirrored then [Companion(b)] else [])
    ensures forall i :: 0 <= i < |origins'| && origins'[i].Companion? ==> Own(origins'[i].base) in origins'
  {
    forall i | 0 <= i < |origins'| && origins'[i].Companion?
      ensures Own(origins'[i].base) in origins'
    {
      if i < |origins| {
        var j :| 0 <= j < |origins| && origins[j] == Own(origins[i].base);
        assert origins'[j] == origins[j];
      } else {
        assert origins'[|origins|] == Own(b);
      }
    }
  }

  /** Every pushed entry's name is the text of its pushed origin. */
  lemma PushTexts(objects: seq<Entry>, origins: seq<NameOrigin>, b: BaseName, more: seq<Entry>, origins': seq<NameOrigin>)
    requires |origins| == |objects|
    requires forall i :: 0 <= i < |objects| ==> objects[i].objectName == OriginText(origins[i])
    requires |more| == 1 || |more| == 2
    requires more[0].objectName == BaseText(b)
    requires |more| == 2 ==> more[1].objectName == MirrorName(BaseText(b))
    requires origins' == origins + [Own(b)] + (if |more| == 2 then [Companion(b)] else [])
    ensures |origins'| == |objects + more|
    ensures forall i :: 0 <= i < |objects + more| ==> (objects + more)[i].objectName == OriginText(origins'[i])
  {
    var objects' := objects + more;
    forall i | 0 <= i < |objects'| ensures objects'[i].objectName == OriginText(origins'[i]) {
      if i < |objects| {
        assert objects'[i] == objects[i] && origins'[i] == origins[i];
      }
    }
  }

  // ----- the grammar, as functions of the token sequence -----

  /** A rule's result and the index of the first token after it. */
  datatype Parsed<T> = Parsed(value: T, next: nat)

  predicate At(toks: seq<Tok>, i: nat, k: SceneToken)
  {
    i < |toks| && toks[i].kind == k
  }

  predicate IsValueToken(k: SceneToken)
  {
    k == NumberToken || k == StringToken || k == AnyText
  }

  /** The action of `parameterExpression`: `JSON.parse` for a Number, the text between the quotes otherwise. */
  function TokenValue(tok: Tok): (r: Result<Value, Halt>)
    requires IsValueToken(tok.kind)
    ensures r.Err? <==> tok.kind == NumberToken && JsonNumber(tok.image).None?
    ensures r.Err? ==> r.error == JsonThrow(tok.image)
    ensures tok.kind != NumberToken ==> r == Ok(Str(Inner(tok.image)))
  {
    if tok.kind == NumberToken then
      match JsonNumber(tok.image)
      case Some(x) => Ok(Num(x))
      case None => Err(JsonThrow(tok.image))
    else Ok(Str(Inner(tok.image)))
  }

  /** `parameterExpression`: one Number, String or Any token and its value. */
  function Expression(toks: seq<Tok>, i: nat): (r: Result<Parsed<(Value, Tok)>, Halt>)
    ensures r.Err? ==> !r.error.Threw?
    ensures r.Ok? <==> i < |toks| && IsValueToken(toks[i].kind) && TokenValue(toks[i]).Ok?
    ensures r.Ok? ==> r.value == Parsed((TokenValue(toks[i]).value, toks[i]), i + 1)
    ensures r.Err? && !(i < |toks| && IsValueToken(toks[i].kind)) ==> r.error == Syntax(NoViableAlternative(i))
  {
    if i < |toks| && IsValueToken(toks[i].kind) then
      match TokenValue(toks[i])
      case Ok(v) => Ok(Parsed((v, toks[i]), i + 1))
      case Err(h) => Err(h)
    else Err(Syntax(NoViableAlternative(i)))
  }

  /** `parameterClause`: an optional `name :` before the value; `order` is filled in by the caller. */
  function ParsedParameter(toks: seq<Tok>, i: nat): (r: Result<Parsed<Arg>, Halt>)
    ensures r.Err? ==> !r.error.Threw?
    ensures r.Ok? ==> i < r.value.next <= |toks| && r.value.value.order == 0
    ensures r.Ok? ==> (r.value.value.name.Some? <==> toks[i].kind == Identifier)
    ensures r.Ok? && r.value.value.name.Some? ==> r.value.value.name.value == toks[i]
  {
    if At(toks, i, Identifier) then
      if At(toks, i + 1, Colon) then
        match Expression(toks, i + 2)
        case Ok(p) => Ok(Parsed(Arg(Some(toks[i]), p.value.0, p.value.1, 0), p.next))
        case Err(h) => Err(h)
      else Err(Syntax(MismatchedToken(i + 1)))
    else
      match Expression(toks, i)
      case Ok(p) => Ok(Parsed(Arg(None, p.value.0, p.value.1, 0), p.next))
      case Err(h) => Err(h)
  }

  /** The number of positional (unnamed) arguments in `args`. */
  function Positionals(args: seq<Arg>): (n: nat)
    ensures n <= |args|
  {
    if args == [] then 0 else Positionals(args[..|args| - 1]) + (if args[|args| - 1].name.None? then 1 else 0)
  }

  /** A positional argument gets the next rank `order`; a named one keeps 0. */
  function Ranked(a: Arg, order: nat): Arg
  {
    if a.name.None? then a.(order := order) else a
  }

  /** Every positional argument's rank is one more than the number of positional arguments before it. */
  predicate Numbered(args: seq<Arg>)
  {
    forall k :: 0 <= k < |args| ==> args[k].order == (if args[k].name.None? then Positionals(args[..k]) + 1 else 0)
  }

  /** The repetitions of `, parameterClause` in `MANY_SEP`. */
  function MoreArguments(toks: seq<Tok>, i: nat, order: nat, acc: seq<Arg>): (r: Result<Parsed<seq<Arg>>, Halt>)
    requires i <= |toks|
    ensures r.Err? ==> !r.error.Threw?
    ensures r.Ok? ==> i <= r.value.next <= |toks| && !At(toks, r.value.next, Comma)
    decreases |toks| - i
  {
    if At(toks, i, Comma) then
      match ParsedParameter(toks, i + 1)
      case Ok(p) =>
        var order' := if p.value.name.None? then order + 1 else order;
        MoreArguments(toks, p.next, order', acc + [Ranked(p.value, order)])
      case Err(h) => Err(h)
    else Ok(Parsed(acc, i))
  }

  /** The tokens that can start a `parameterClause`. */
  predicate StartsParameter(k: SceneToken)
  {
    k == Identifier || IsValueToken(k)
  }

  /** `MANY_SEP(parameterClause, Comma)`, with positional arguments ranked from 1. */
  function ParsedItems(toks: seq<Tok>, i: nat): (r: Result<Parsed<seq<Arg>>, Halt>)
    requires i <= |toks|
    ensures r.Err? ==> !r.error.Threw?
    ensures r.Ok? ==> i <= r.value.next <= |toks|
  {
    if i < |toks| && StartsParameter(toks[i].kind) then
      match ParsedParameter(toks, i)
      case Ok(p) => MoreArguments(toks, p.next, if p.value.name.None? then 2 else 1, [Ranked(p.value, 1)])
      case Err(h) => Err(h)
    else Ok(Parsed([], i))
  }

  /** `( MANY_SEP(parameterClause, Comma) )`. */
  function Arguments(toks: seq<Tok>, i: nat): (r: Result<Parsed<seq<Arg>>, Halt>)
    ensures r.Err? ==> !r.error.Threw?
    ensures r.Ok? ==> i < r.value.next <= |toks|
  {
    if !At(toks, i, LeftParentheses) then Err(Syntax(MismatchedToken(i)))
    else
      match ParsedItems(toks, i + 1)
      case Ok(p) =>
        if At(toks, p.next, RightParentheses) then Ok(Parsed(p.value, p.next + 1))
        else Err(Syntax(MismatchedToken(p.next)))
      case Err(h) => Err(h)
  }

  /** Appending a ranked argument keeps the ranks consistent. */
  lemma RankedStep(acc: seq<Arg>, a: Arg, order: nat)
    requires Numbered(acc) && order == Positionals(acc) + 1 && a.order == 0
    ensures Numbered(acc + [Ranked(a, order)])
    ensures Positionals(acc + [Ranked(a, order)]) + 1 == if a.name.None? then order + 1 else order
  {
    var acc' := acc + [Ranked(a, order)];
    assert acc'[..|acc'| - 1] == acc;
    forall k | 0 <= k < |acc'|
      ensures acc'[k].order == (if acc'[k].name.None? then Positionals(acc'[..k]) + 1 else 0)
    {
      if k < |acc| {
        assert acc'[..k] == acc[..k];
      }
    }
  }

  lemma {:induction false} MoreArgumentsNumbered(toks: seq<Tok>, i: nat, order: nat, acc: seq<Arg>)
    requires i <= |toks| && Numbered(acc) && order == Positionals(acc) + 1
    ensures MoreArguments(toks, i, order, acc).Ok? ==> Numbered(MoreArguments(toks, i, order, acc).value.value)
    decreases |toks| - i
  {
    if At(toks, i, Comma) {
      match ParsedParameter(toks, i + 1)
      case Ok(p) =>
        var order' := if p.value.name.None? then order + 1 else order;
        var acc' := acc + [Ranked(p.value, order)];
        RankedStep(acc, p.value, order);
        assert MoreArguments(toks, i, order, acc) == MoreArguments(toks, p.next, order', acc');
        MoreArgumentsNumbered(toks, p.next, order', acc');
      case Err(_) =>
    }
  }

  /**
   * The k-th positional argument of a statement gets rank k: the rank
   * counts positional arguments only, named ones keep rank 0.
   */
  lemma ArgumentsNumbered(toks: seq<Tok>, i: nat)
    requires Arguments(toks, i).Ok?
    ensures Numbered(Arguments(toks, i).value.value)
  {
    if i + 1 < |toks| && StartsParameter(toks[i + 1].kind) {
      var p := ParsedParameter(toks, i + 1).value;
      assert ParsedItems(toks, i + 1) == MoreArguments(toks, p.next, if p.value.name.None? then 2 else 1, [Ranked(p.value, 1)]);
      RankedStep([], p.value, 1);
      MoreArgumentsNumbered(toks, p.next, if p.value.name.None? then 2 else 1, [Ranked(p.value, 1)]);
    }
  }

  // ----- the statement grammar -----

  /** `objectClause` (`Type(...)`) or `cloneClause` (`!name(...)`), up to its closing parenthesis. */
  /** Where the argument list starting at `j` ends, or how it fails. */
  function ArgumentsEnd(toks: seq<Tok>, j: nat): (r: Result<nat, Halt>)
    ensures r.Ok? <==> Arguments(toks, j).Ok?
    ensures r.Ok? ==> j < r.value <= |toks| && r.value == Arguments(toks, j).value.next
  {
    match Arguments(toks, j)
    case Ok(p) => Ok(p.next)
    case Err(h) => Err(h)
  }

  /** The head of a clause: a type name, or `!` and the name of the object to clone. */
  function ClauseStart(toks: seq<Tok>, i: nat): (r: Result<nat, Halt>)
    ensures r.Ok? ==> i < r.value <= |toks|
    ensures r.Ok? <==> At(toks, i, Identifier) || (At(toks, i, ExclamationPoint) && At(toks, i + 1, Identifier))
  {
    if At(toks, i, Identifier) then Ok(i + 1)
    else if !At(toks, i, ExclamationPoint) then Err(Syntax(NoViableAlternative(i)))
    else if At(toks, i + 1, Identifier) then Ok(i + 2)
    else Err(Syntax(MismatchedToken(i + 1)))
  }

  function ClauseSyntax(toks: seq<Tok>, i: nat): (r: Result<nat, Halt>)
    ensures r.Ok? ==> i < r.value <= |toks|
  {
    match ClauseStart(toks, i)
    case Ok(j) => ArgumentsEnd(toks, j)
    case Err(h) => Err(h)
  }

  /** A clause whose head stopped the parse stops it there. */
  lemma ClauseStopped(m: Mode, toks: seq<Tok>, i: nat, halt: Option<Halt>, p: nat)
    requires halt.Some? && Follows(m, ClauseStart(toks, i), halt, p)
    ensures Follows(m, ClauseSyntax(toks, i), halt, p)
  {
  }

  /** A clause whose head was read ends where its arguments end. */
  lemma ClauseArguments(m: Mode, toks: seq<Tok>, i: nat, j: nat, halt: Option<Halt>, p: nat)
    requires ClauseStart(toks, i) == Ok(j) && Follows(m, ArgumentsEnd(toks, j), halt, p)
    ensures Follows(m, ClauseSyntax(toks, i), halt, p)
  {
  }

  /** The optional `AS name`. */
  function NameSyntax(toks: seq<Tok>, i: nat): (r: Result<nat, Halt>)
    requires i <= |toks|
    ensures r.Ok? ==> i <= r.value <= |toks|
  {
    if !At(toks, i, As) then Ok(i)
    else if At(toks, i + 1, Identifier) then Ok(i + 2)
    else Err(Syntax(MismatchedToken(i + 1)))
  }

  /** The optional `CHILD TO name`. */
  function ChildSyntax(toks: seq<Tok>, i: nat): (r: Result<nat, Halt>)
    requires i <= |toks|
    ensures r.Ok? ==> i <= r.value <= |toks|
  {
    if !At(toks, i, Child) then Ok(i)
    else if !At(toks, i + 1, To) then Err(Syntax(MismatchedToken(i + 1)))
    else if At(toks, i + 2, Identifier) then Ok(i + 3)
    else Err(Syntax(MismatchedToken(i + 2)))
  }

  /** One `Identifier ( Any )` of a `SET` list, starting at an identifier. */
  function ModifierSyntax(toks: seq<Tok>, i: nat): (r: Result<nat, Halt>)
    requires At(toks, i, Identifier)
    ensures r.Ok? ==> r.value == i + 4 <= |toks|
  {
    if !At(toks, i + 1, LeftParentheses) then Err(Syntax(MismatchedToken(i + 1)))
    else if !At(toks, i + 2, AnyText) then Err(Syntax(MismatchedToken(i + 2)))
    else if !At(toks, i + 3, RightParentheses) then Err(Syntax(MismatchedToken(i + 3)))
    else Ok(i + 4)
  }

  /** The repetitions of a `SET` list after its first modifier: as long as an identifier follows. */
  function ModifiersSyntax(toks: seq<Tok>, i: nat): (r: Result<nat, Halt>)
    requires i <= |toks|
    ensures r.Ok? ==> i <= r.value <= |toks| && !At(toks, r.value, Identifier)
    decreases |toks| - i
  {
    if !At(toks, i, Identifier) then Ok(i)
    else
      match ModifierSyntax(toks, i)
      case Ok(j) => ModifiersSyntax(toks, j)
      case Err(h) => Err(h)
  }

  /** The optional `SET` with at least one modifier. */
  function SetSyntax(toks: seq<Tok>, i: nat): (r: Result<nat, Halt>)
    requires i <= |toks|
    ensures r.Ok? ==> i <= r.value <= |toks|
  {
    if !At(toks, i, SetKeyword) then Ok(i)
    else if !At(toks, i + 1, Identifier) then Err(Syntax(EarlyExit(i + 1)))
    else ModifiersSyntax(toks, i + 1)
  }

  /** A modifier list that ends four tokens on holds exactly one modifier, and no identifier follows it. */
  lemma ListOfOne(toks: seq<Tok>, i: nat)
    requires i <= |toks| && At(toks, i, Identifier) && ModifiersSyntax(toks, i) == Ok(i + 4)
    ensures ModifierSyntax(toks, i) == Ok(i + 4) && !At(toks, i + 4, Identifier)
  {
    match ModifierSyntax(toks, i)
    case Ok(j) =>
      assert j == i + 4;
    case Err(h) =>
  }

  /** What follows a clause: its optional name, its optional parent, its optional modifiers. */
  function TailSyntax(toks: seq<Tok>, j: nat): (r: Result<nat, Halt>)
    requires j <= |toks|
    ensures r.Ok? ==> j <= r.value <= |toks|
  {
    match NameSyntax(toks, j)
    case Err(h) => Err(h)
    case Ok(k) =>
      match ChildSyntax(toks, k)
      case Err(h) => Err(h)
      case Ok(l) => SetSyntax(toks, l)
  }

  /** `singleObjectAndModifiers`. */
  function StatementSyntax(toks: seq<Tok>, i: nat): (r: Result<nat, Halt>)
    ensures r.Ok? ==> i < r.value <= |toks|
  {
    match ClauseSyntax(toks, i)
    case Err(h) => Err(h)
    case Ok(j) => TailSyntax(toks, j)
  }

  /** Another statement follows only when a comma is followed by an identifier or `!`. */
  predicate StartsStatement(toks: seq<Tok>, i: nat)
  {
    At(toks, i, Comma) && (At(toks, i + 1, Identifier) || At(toks, i + 1, ExclamationPoint))
  }

  /** The `MANY` of `objectStatement`: `, statement` repeated. */
  function MoreStatements(toks: seq<Tok>, i: nat): (r: Result<nat, Halt>)
    requires i <= |toks|
    ensures r.Ok? ==> i <= r.value <= |toks| && !StartsStatement(toks, r.value)
    decreases |toks| - i
  {
    if !StartsStatement(toks, i) then Ok(i)
    else
      match StatementSyntax(toks, i + 1)
      case Ok(j) => MoreStatements(toks, j)
      case Err(h) => Err(h)
  }

  /** How one turn of `MoreStatements` relates to the statement it reads. */
  lemma MoreStep(m: Mode, toks: seq<Tok>, i: nat, halt: Option<Halt>, p: nat)
    requires StartsStatement(toks, i) && i < |toks|
    requires Follows(m, StatementSyntax(toks, i + 1), halt, p)
    ensures halt.None? ==> p <= |toks| && MoreStatements(toks, i) == MoreStatements(toks, p)
    ensures halt.Some? ==> Follows(m, MoreStatements(toks, i), halt, p)
  {
  }

  /**
   * `objectStatement` followed by the check that all input was read: the
   * statements, an optional trailing comma, then the end of the tokens.
   * `None` when the tokens form a program.
   */
  function Grammar(toks: seq<Tok>): (r: Option<Halt>)
  {
    match StatementsEnd(toks)
    case Err(h) => Some(h)
    case Ok(k) => EndOfInput(toks, k)
  }

  /** After the statements: an optional trailing comma, then nothing may be left. */
  function EndOfInput(toks: seq<Tok>, k: nat): (r: Option<Halt>)
  {
    var l := if At(toks, k, Comma) then k + 1 else k;
    if l < |toks| then Some(Syntax(NotAllInputParsed(l))) else None
  }

  /** Where the comma-separated statements end: the position of a trailing comma, if any. */
  function StatementsEnd(toks: seq<Tok>): (r: Result<nat, Halt>)
    ensures r.Ok? ==> 0 < r.value <= |toks|
  {
    match StatementSyntax(toks, 0)
    case Err(h) => Err(h)
    case Ok(j) => MoreStatements(toks, j)
  }

  /** The statements of the program end with a trailing comma. */
  predicate TrailingCommaAt(toks: seq<Tok>, k: nat)
  {
    StatementsEnd(toks) == Ok(k) && At(toks, k, Comma)
  }

  /** The entries pushed for an object named `name`: its own, then its Mirror companion's, if any. */
  function Pushed(name: string, obj: SceneObject, companion: SceneObject?): seq<Entry>
  {
    [Entry(name, obj)] + (if companion == null then [] else [Entry(MirrorName(name), companion)])
  }

  /**
   * The problems of a parsed statement with an object, in the order they
   * are raised: an undefined parent, then a name already taken.
   */
  function StatementEvents(objects: seq<Entry>, st: Statement): (es: seq<Event>)
    ensures |es| <= 2 && forall e :: e in es ==> e.token.Some?
  {
    ParentEvents(objects, st.parent) + NameEvents(objects, st.name)
  }

  /** `Parent object "…" is undefined.` when no entry has the `CHILD TO` name. */
  function ParentEvents(objects: seq<Entry>, parent: Option<Tok>): (es: seq<Event>)
    ensures |es| <= 1 && forall e :: e in es ==> e.token == parent
    ensures es != [] <==> parent.Some? && FindEntry(objects, parent.value.image).None?
  {
    if parent.Some? && FindEntry(objects, parent.value.image).None?
    then [Event(Text(ParentUndefined(parent.value.image)), parent)] else []
  }

  /** `Name "…" is already taken.` when an entry already has the `AS` name. */
  function NameEvents(objects: seq<Entry>, name: Option<Tok>): (es: seq<Event>)
    ensures |es| <= 1 && forall e :: e in es ==> e.token == name
    ensures es != [] <==> name.Some? && FindEntry(objects, name.value.image).Some?
  {
    if name.Some? && FindEntry(objects, name.value.image).Some?
    then [Event(Text(NameTaken(name.value.image)), name)] else []
  }

  /**
   * The argument list `spec` parsed, bound onto an object of class `kind`
   * whose data were `props0` and `points0`: it leaves the object with
   * `props` and `points`, its problems thrown or recorded; a list that
   * does not parse leaves the data as they were.
   */
  predicate Bound(m: Mode, spec: Result<Parsed<seq<Arg>>, Halt>, kind: Kind, props0: map<string, Value>, points0: seq<Point>,
                  args: seq<Arg>, props: map<string, Value>, points: seq<Point>,
                  halt: Option<Halt>, before: seq<SemanticError>, after: seq<SemanticError>)
  {
    match spec
    case Err(h) => halt == Some(h) && after == before && props == props0 && points == points0
    case Ok(p) =>
      var r := Bind(SchemaOf(kind), props0, p.value);
      && args == p.value && props == r.props && points == r.points.GetOr(points0)
      && Applied(m, FromProblems(r.problems), halt, before, after)
  }

  // ----- the parser -----

  /**
   * A rule's outcome agrees with its grammar function: it completes where
   * the grammar accepts, stops with the grammar's error, or an action
   * threw first (execute mode only).
   */
  predicate Follows(m: Mode, spec: Result<nat, Halt>, halt: Option<Halt>, pos: nat)
  {
    match halt
    case None => spec == Ok(pos)
    case Some(Threw(_)) => m == Execute
    case Some(h) => spec == Err(h)
  }

  /** A placeholder token for the out-parameters of a rule that stopped. */
  const NoToken: Tok := Token(Identifier, "", 0)

  /** Like `Follows`, for a whole program: `None` when it completes. */
  predicate Ends(m: Mode, g: Option<Halt>, halt: Option<Halt>)
  {
    match halt
    case None => g.None?
    case Some(Threw(_)) => m == Execute
    case Some(h) => g == Some(h)
  }

  /**
   * `ObjectParser`: the token cursor of the parsing library, the
   * appended `objects`, the recorded `semanticErrors` and the `mode`.
   * `Repr` holds every object reachable from the entries; `origins` says
   * how each entry's name came about.
   */
  /**
   * What the action of one `name(content)` of a `SET` list did to the
   * object, whose state before was `b`: nothing when the name is no modifier or the object's class does
   * not support it, otherwise that modifier's effect on the text between the
   * parentheses, `applied` being what its parse returned.
   */
  predicate ModifierRan(obj: SceneObject, key: Tok, content: Tok, applied: Option<Result<ModResult, ModifierFailure>>, b: Snapshot)
    reads obj, obj.mirroredObject
  {
    match LookupModifier(key.image)
    case None => applied.None? && obj.Snap() == b
    case Some(m) =>
      if ModifierName(m) in UnsupportedModifiers(obj.kind) then applied.None? && obj.Snap() == b
      else applied.Some? && ModifierEffect(m, obj, ModifierTokens(m, Inner(content.image)), applied.value, b)
  }

  class ObjectParser {
    var tokens: seq<Tok>
    var pos: nat
    var mode: Mode
    var objects: seq<Entry>
    var semanticErrors: seq<SemanticError>
    ghost var origins: seq<NameOrigin>
    ghost var Repr: set<SceneObject>

    /** The input's identifiers are made of word characters, as the lexer guarantees. */
    ghost predicate WordTokens()
      reads this`tokens
    {
      forall k :: 0 <= k < |tokens| && tokens[k].kind == Identifier ==> AllWordChars(tokens[k].image)
    }

    /**
     * Every entry's object is in `Repr`; objects in `Repr` have their
     * class's fields, and a cloneable one's companion is in `Repr` too.
     */
    ghost predicate Stored()
      reads this`objects, this`Repr, Repr`props, Repr`isCloneable, Repr`mirroredObject
    {
      && (forall e :: e in objects ==> e.obj in Repr)
      && (forall o :: o in Repr ==> o.Valid() && (o.isCloneable ==> o.mirroredObject == null || o.mirroredObject in Repr))
    }

    /** Between statements: the cursor is in range, and the entries are stored and well named. */
    ghost predicate Ready(order: nat)
      reads this, Repr
    {
      pos <= |tokens| && WordTokens() && Stored() && ModeOk() && Names(order)
    }

    /** Execute mode never records: it throws. */
    predicate ModeOk()
      reads this`mode, this`semanticErrors
    {
      mode == Execute ==> semanticErrors == []
    }

    /** Entry names are distinct and every fallback so far used a rank below `order`. */
    ghost predicate Names(order: nat)
      reads this`objects, this`origins
    {
      Named(objects, origins, order) && DistinctNames(objects)
    }

    /**
     * An object built by the current statement and not yet appended:
     * cloneable, and its companion (if any) is stored or is a new
     * non-cloneable object.
     */
    ghost predicate Pending(o: SceneObject)
      reads this`Repr, o, o.mirroredObject
    {
      && o.Valid() && o !in Repr && o.isCloneable
      && (o.mirroredObject == null || o.mirroredObject in Repr || (o.mirroredObject.Valid() && !o.mirroredObject.isCloneable))
    }

    constructor()
      ensures objects == [] && semanticErrors == [] && mode == Execute && tokens == [] && pos == 0
    {
      tokens, pos, mode := [], 0, Execute;
      objects, semanticErrors := [], [];
      origins, Repr := [], {};
    }

    /** `reset()`, then the mode and input `interpret` sets. */
    method Reset(m: Mode, toks: seq<Tok>)
      requires forall k :: 0 <= k < |toks| && toks[k].kind == Identifier ==> AllWordChars(toks[k].image)
      modifies this
      ensures tokens == toks && pos == 0 && mode == m && objects == [] && semanticErrors == [] && Repr == {}
      ensures WordTokens() && Stored() && ModeOk() && Names(1)
    {
      tokens, pos, mode := toks, 0, m;
      objects, semanticErrors := [], [];
      origins, Repr := [], {};
    }

    /** `CONSUME(k)`: the next token if it has kind `k`, else a mismatch at the cursor. */
    method Consume(k: SceneToken) returns (tok: Tok, halt: Option<Halt>)
      requires pos <= |tokens|
      modifies this`pos
      ensures At(tokens, old(pos), k) ==> halt.None? && tok == tokens[old(pos)] && pos == old(pos) + 1
      ensures !At(tokens, old(pos), k) ==> halt == Some(Syntax(MismatchedToken(old(pos)))) && pos == old(pos)
    {
      if pos < |tokens| && tokens[pos].kind == k {
        tok, halt := tokens[pos], None;
        pos := pos + 1;
      } else {
        tok, halt := NoToken, Some(Syntax(MismatchedToken(pos)));
      }
    }

    /** `throwOrAddError(message, token)`. */
    method ThrowOrAdd(message: Message, token: Tok) returns (halt: Option<Halt>)
      requires ModeOk()
      modifies this`semanticErrors
      ensures ModeOk() && Applied(mode, [Event(message, Some(token))], halt, old(semanticErrors), semanticErrors)
    {
      if mode == Execute {
        halt := Some(Threw(message));
      } else {
        halt := None;
        semanticErrors := semanticErrors + [SemanticError(message, token)];
      }
    }

    /**
     * The binder's problems through `throwOrAddError`: the first one is
     * thrown in execute mode, each one with a token is recorded in lint
     * mode.
     */
    method ThrowProblems(problems: seq<Problem>) returns (halt: Option<Halt>)
      requires ModeOk()
      modifies this`semanticErrors
      ensures ModeOk() && Applied(mode, FromProblems(problems), halt, old(semanticErrors), semanticErrors)
    {
      halt := None;
      if mode == Execute {
        if problems != [] {
          halt := Some(Threw(Text(problems[0].message)));
        }
        return;
      }
      var i := 0;
      while i < |problems|
        invariant 0 <= i <= |problems|
        invariant semanticErrors == old(semanticErrors) + Reported(FromProblems(problems[..i]))
      {
        ghost var es := FromProblems(problems[..i]);
        assert FromProblems(problems[..i + 1]) == es + [Event(Text(problems[i].message), problems[i].token)];
        ReportedAppend(es, Event(Text(problems[i].message), problems[i].token));
        if problems[i].token.Some? {
          semanticErrors := semanticErrors + [SemanticError(Text(problems[i].message), problems[i].token.value)];
        }
        i := i + 1;
      }
      assert problems[..i] == problems;
    }

    /** `parameterExpression`: a Number, String or Any token and its value. */
    method ParameterExpression() returns (v: Value, tok: Tok, halt: Option<Halt>)
      requires pos <= |tokens|
      modifies this`pos
      ensures pos <= |tokens|
      ensures match Expression(tokens, old(pos))
        case Ok(p) => halt.None? && (v, tok) == p.value && pos == p.next
        case Err(h) => halt == Some(h)
    {
      v, tok := Undefined, NoToken;
      if pos < |tokens| && IsValueToken(tokens[pos].kind) {
        tok := tokens[pos];
        pos := pos + 1;
        var r := TokenValue(tok);
        if r.Ok? {
          v, halt := r.value, None;
        } else {
          halt := Some(r.error);
        }
      } else {
        halt := Some(Syntax(NoViableAlternative(pos)));
      }
    }

    /** `parameterClause`: `name :` when an identifier comes first, then the value. */
    method ParameterClause() returns (arg: Arg, halt: Option<Halt>)
      requires pos <= |tokens|
      modifies this`pos
      ensures pos <= |tokens|
      ensures match ParsedParameter(tokens, old(pos))
        case Ok(p) => halt.None? && arg == p.value && pos == p.next
        case Err(h) => halt == Some(h)
    {
      var name: Option<Tok> := None;
      arg := Arg(None, Undefined, NoToken, 0);
      if pos < |tokens| && tokens[pos].kind == Identifier {
        var n := tokens[pos];
        pos := pos + 1;
        var _, h := Consume(Colon);
        if h.Some? {
          return arg, h;
        }
        name := Some(n);
      }
      var v, tok;
      v, tok, halt := ParameterExpression();
      if halt.None? {
        arg := Arg(name, v, tok, 0);
      }
    }

    /** `MANY_SEP(parameterClause, Comma)`, ranking positional arguments from 1. */
    method ArgumentItems() returns (args: seq<Arg>, halt: Option<Halt>)
      requires pos <= |tokens|
      modifies this`pos
      ensures pos <= |tokens|
      ensures match ParsedItems(tokens, old(pos))
        case Ok(p) => halt.None? && args == p.value && pos == p.next
        case Err(h) => halt == Some(h)
    {
      args, halt := [], None;
      if pos < |tokens| && StartsParameter(tokens[pos].kind) {
        var a;
        a, halt := ParameterClause();
        if halt.Some? {
          return;
        }
        args, halt := MoreItems(if a.name.None? then 2 else 1, [Ranked(a, 1)]);
      }
    }

    /** The repetitions of `, parameterClause`; `order` is the rank the next positional argument gets. */
    method MoreItems(order0: nat, args0: seq<Arg>) returns (args: seq<Arg>, halt: Option<Halt>)
      requires pos <= |tokens|
      modifies this`pos
      ensures pos <= |tokens|
      ensures match MoreArguments(tokens, old(pos), order0, args0)
        case Ok(p) => halt.None? && args == p.value && pos == p.next
        case Err(h) => halt == Some(h)
    {
      args, halt := args0, None;
      var order := order0;
      while pos < |tokens| && tokens[pos].kind == Comma
        invariant pos <= |tokens| && halt.None?
        invariant MoreArguments(tokens, pos, order, args) == MoreArguments(tokens, old(pos), order0, args0)
        decreases |tokens| - pos
      {
        pos := pos + 1;
        var a;
        a, halt := ParameterClause();
        if halt.Some? {
          return;
        }
        args := args + [Ranked(a, order)];
        order := if a.name.None? then order + 1 else order;
      }
    }

    /** The parenthesised argument list of a clause. */
    method ArgumentList() returns (args: seq<Arg>, halt: Option<Halt>)
      requires pos <= |tokens|
      modifies this`pos
      ensures pos <= |tokens|
      ensures match Arguments(tokens, old(pos))
        case Ok(p) => halt.None? && args == p.value && pos == p.next
        case Err(h) => halt == Some(h)
    {
      var open, close;
      open, halt := Consume(LeftParentheses);
      if halt.Some? {
        return [], halt;
      }
      args, halt := ArgumentItems();
      if halt.None? {
        close, halt := Consume(RightParentheses);
      }
    }

    /**
     * The arguments of a clause, then `assignParametersToObject` when the
     * clause produced an object: its fields are bound as the binder says
     * and each problem goes through `throwOrAddError`.
     */
    method ArgumentsAndBind(obj: SceneObject?) returns (args: seq<Arg>, halt: Option<Halt>)
      requires pos <= |tokens| && ModeOk()
      requires obj != null ==> Pending(obj)
      modifies this`pos, this`semanticErrors, obj
      ensures pos <= |tokens| && ModeOk()
      ensures obj != null ==> Pending(obj) && obj.Attributes() == old(obj.Attributes())
      ensures old(semanticErrors) <= semanticErrors
      ensures Follows(mode, ArgumentsEnd(tokens, old(pos)), halt, pos)
      ensures Arguments(tokens, old(pos)).Ok? ==> args == Arguments(tokens, old(pos)).value.value
      ensures obj == null ==> semanticErrors == old(semanticErrors) && (Arguments(tokens, old(pos)).Ok? ==> halt.None?)
      ensures obj != null ==>
        Bound(mode, Arguments(tokens, old(pos)), obj.kind, old(obj.props), old(obj.points), args, obj.props, obj.points,
              halt, old(semanticErrors), semanticErrors)
    {
      if obj == null {
        args, halt := ArgumentList();
      } else {
        args, halt := ArgumentsOnto(obj);
      }
    }

    /** The arguments of a clause bound onto the object it produced. */
    method ArgumentsOnto(obj: SceneObject) returns (args: seq<Arg>, halt: Option<Halt>)
      requires pos <= |tokens| && ModeOk() && Pending(obj)
      modifies this`pos, this`semanticErrors, obj
      ensures pos <= |tokens| && ModeOk()
      ensures Pending(obj) && obj.Attributes() == old(obj.Attributes())
      ensures old(semanticErrors) <= semanticErrors
      ensures Follows(mode, ArgumentsEnd(tokens, old(pos)), halt, pos)
      ensures Arguments(tokens, old(pos)).Ok? ==> args == Arguments(tokens, old(pos)).value.value
      ensures Bound(mode, Arguments(tokens, old(pos)), obj.kind, old(obj.props), old(obj.points), args, obj.props, obj.points,
                    halt, old(semanticErrors), semanticErrors)
    {
      ghost var parsed := Arguments(tokens, pos);
      args, halt := ArgumentList();
      if halt.Some? {
        assert parsed.Err? && halt == Some(parsed.error);
        return;
      }
      assert parsed.Ok? && args == parsed.value.value && pos == parsed.value.next;
      halt := BindArgs(obj, args);
    }

    /** `assignParameters` on a pending object, then its problems thrown or recorded. */
    method BindArgs(obj: SceneObject, args: seq<Arg>) returns (halt: Option<Halt>)
      requires ModeOk() && Pending(obj)
      modifies this`semanticErrors, obj
      ensures ModeOk() && Pending(obj) && obj.Attributes() == old(obj.Attributes())
      ensures var r := Bind(SchemaOf(obj.kind), old(obj.props), args);
        && obj.props == r.props && obj.points == r.points.GetOr(old(obj.points))
        && Applied(mode, FromProblems(r.problems), halt, old(semanticErrors), semanticErrors)
    {
      var problems := AssignPending(obj, args);
      halt := ThrowProblems(problems);
    }

    /** `assignParameters` keeps an object pending: only its own parameters change. */
    method AssignPending(obj: SceneObject, args: seq<Arg>) returns (problems: seq<Problem>)
      requires Pending(obj)
      modifies obj
      ensures Pending(obj) && obj.Attributes() == old(obj.Attributes())
      ensures var r := Bind(SchemaOf(obj.kind), old(obj.props), args);
        obj.props == r.props && problems == r.problems && obj.points == r.points.GetOr(old(obj.points))
    {
      assert obj.mirroredObject != obj;
      problems := AssignParameters(obj, args);
    }

    /** `objectClause`: a type looked up case-insensitively and built with its defaults, then its arguments. */
    method ObjectClause() returns (c: Clause, halt: Option<Halt>)
      requires At(tokens, pos, Identifier) && ModeOk()
      modifies this`pos, this`semanticErrors
      ensures pos <= |tokens| && ModeOk() && old(semanticErrors) <= semanticErrors
      ensures Follows(mode, ClauseSyntax(tokens, old(pos)), halt, pos)
      ensures c.objectName == tokens[old(pos)].image
      ensures c.obj != null ==> fresh(c.obj) && c.obj.Valid() && c.obj.isCloneable && c.obj.mirroredObject == null
      ensures c.obj != null ==> Written(c.objectName)
      ensures var name := tokens[old(pos)].image;
        match LookupObjectKind(name)
        case None =>
          c.obj == null && Refused(mode, Text(TypeNotFound(name)), tokens[old(pos)], halt, old(semanticErrors), semanticErrors)
        case Some(k) =>
          && c.obj != null && c.obj.kind == k && c.obj.Attributes() == Attrs("", null, None, null, true, InitialFill(k))
          && Bound(mode, Arguments(tokens, old(pos) + 1), k, Defaults(k), [], c.args, c.obj.props, c.obj.points,
                   halt, old(semanticErrors), semanticErrors)
    {
      var nameTok := tokens[pos];
      assert Written(nameTok.image) by { assert tokens[pos] == nameTok; }
      pos := pos + 1;
      c := Clause(nameTok.image, null, []);
      var kind := LookupObjectKind(nameTok.image);
      var obj: SceneObject? := null;
      if kind.None? {
        halt := ThrowOrAdd(Text(TypeNotFound(nameTok.image)), nameTok);
        if halt.Some? {
          return;
        }
      } else {
        obj := new SceneObject(kind.value);
      }
      var args;
      args, halt := ArgumentsAndBind(obj);
      c := Clause(nameTok.image, obj, args);
    }

    /**
     * The head of `cloneClause`: `!name` finds the first entry with that
     * name, which must be cloneable; the clone is a new object of the same
     * class carrying all of its fields.
     */
    method CloneSource() returns (nameTok: Tok, source: SceneObject?, obj: SceneObject?, halt: Option<Halt>)
      requires At(tokens, pos, ExclamationPoint) && ModeOk() && Stored()
      modifies this`pos, this`semanticErrors
      ensures pos <= |tokens| && ModeOk() && old(semanticErrors) <= semanticErrors
      ensures obj != null ==> fresh(obj) && Pending(obj) && halt.None?
      ensures obj != null ==> obj.mirroredObject == null || obj.mirroredObject in Repr
      ensures obj != null ==> Written(nameTok.image)
      ensures halt.None? ==> ClauseStart(tokens, old(pos)) == Ok(pos)
      ensures halt.Some? ==> Follows(mode, ClauseStart(tokens, old(pos)), halt, pos)
      ensures !At(tokens, old(pos) + 1, Identifier) ==>
        source == null && obj == null && halt == Some(Syntax(MismatchedToken(old(pos) + 1))) && semanticErrors == old(semanticErrors)
      ensures At(tokens, old(pos) + 1, Identifier) ==>
        && nameTok == tokens[old(pos) + 1]
        && (halt.Some? ==> mode == Execute && halt.value.Threw?)
        && (source == null <==> FindEntry(objects, nameTok.image).None?)
      ensures source != null ==> source == objects[FindEntry(objects, nameTok.image).value].obj
      ensures At(tokens, old(pos) + 1, Identifier) && source == null ==>
        obj == null && Refused(mode, Text(CloneMissing(nameTok.image)), nameTok, halt, old(semanticErrors), semanticErrors)
      ensures source != null && !source.isCloneable ==>
        obj == null && Refused(mode, Text(CloneMirrored(nameTok.image)), nameTok, halt, old(semanticErrors), semanticErrors)
      ensures source != null && source.isCloneable ==>
        && obj != null && obj.kind == source.kind && obj.Attributes() == source.Attributes()
        && obj.props == source.props && obj.points == source.points
        && semanticErrors == old(semanticErrors)
    {
      pos := pos + 1;
      source, obj := null, null;
      nameTok, halt := Consume(Identifier);
      if halt.Some? {
        return;
      }
      assert tokens[old(pos) + 1] == nameTok;
      source, obj, halt := CloneOf(nameTok);
    }

    /** The entry a clone copies: missing, a Mirror companion, or copied with all its fields. */
    method CloneOf(nameTok: Tok) returns (source: SceneObject?, obj: SceneObject?, halt: Option<Halt>)
      requires ModeOk() && Stored()
      modifies this`semanticErrors
      ensures ModeOk() && old(semanticErrors) <= semanticErrors
      ensures halt.Some? ==> mode == Execute && halt.value.Threw?
      ensures source == null <==> FindEntry(objects, nameTok.image).None?
      ensures source != null ==> source == objects[FindEntry(objects, nameTok.image).value].obj
      ensures obj != null ==> fresh(obj) && Pending(obj) && halt.None?
      ensures obj != null ==> obj.mirroredObject == null || obj.mirroredObject in Repr
      ensures source == null ==>
        obj == null && Refused(mode, Text(CloneMissing(nameTok.image)), nameTok, halt, old(semanticErrors), semanticErrors)
      ensures source != null && !source.isCloneable ==>
        obj == null && Refused(mode, Text(CloneMirrored(nameTok.image)), nameTok, halt, old(semanticErrors), semanticErrors)
      ensures source != null && source.isCloneable ==>
        && obj != null && obj.kind == source.kind && obj.Attributes() == source.Attributes()
        && obj.props == source.props && obj.points == source.points
        && semanticErrors == old(semanticErrors)
    {
      source, obj, halt := null, null, None;
      var found := FindEntry(objects, nameTok.image);
      if found.None? {
        halt := ThrowOrAdd(Text(CloneMissing(nameTok.image)), nameTok);
        return;
      }
      source := objects[found.value].obj;
      if !source.isCloneable {
        halt := ThrowOrAdd(Text(CloneMirrored(nameTok.image)), nameTok);
      } else {
        assert objects[found.value] in objects;
        obj := source.Copy();
      }
    }

    /** `cloneClause`: the clone's own arguments are bound on top of the copied fields. */
    method CloneClause() returns (c: Clause, ghost source: SceneObject?, halt: Option<Halt>)
      requires At(tokens, pos, ExclamationPoint) && ModeOk() && Stored()
      modifies this`pos, this`semanticErrors
      ensures pos <= |tokens| && ModeOk() && old(semanticErrors) <= semanticErrors
      ensures Follows(mode, ClauseSyntax(tokens, old(pos)), halt, pos)
      ensures c.obj != null ==> fresh(c.obj) && Pending(c.obj) && Written(c.objectName)
      ensures c.obj != null ==> c.obj.mirroredObject == null || c.obj.mirroredObject in Repr
      ensures !At(tokens, old(pos) + 1, Identifier) ==> source == null && c.obj == null
      ensures At(tokens, old(pos) + 1, Identifier) ==>
        && c.objectName == tokens[old(pos) + 1].image
        && (source == null <==> FindEntry(objects, c.objectName).None?)
      ensures source != null ==> source == objects[FindEntry(objects, c.objectName).value].obj
      ensures c.obj != null <==> source != null && source.isCloneable
      ensures c.obj != null ==>
        && c.obj.kind == source.kind && c.obj.Attributes() == source.Attributes()
        && Bound(mode, Arguments(tokens, old(pos) + 2), source.kind, source.props, source.points,
                 c.args, c.obj.props, c.obj.points, halt, old(semanticErrors), semanticErrors)
    {
      var nameTok, obj;
      nameTok, source, obj, halt := CloneSource();
      c := Clause(nameTok.image, obj, []);
      if halt.Some? {
        ClauseStopped(mode, tokens, old(pos), halt, pos);
        return;
      }
      ghost var start := pos;
      assert start == old(pos) + 2;
      var args;
      args, halt := CloneArguments(obj, source);
      ClauseArguments(mode, tokens, old(pos), start, halt, pos);
      c := Clause(nameTok.image, obj, args);
    }

    /** The arguments of a clone, bound on top of the fields copied from `source`. */
    method CloneArguments(obj: SceneObject?, ghost source: SceneObject?) returns (args: seq<Arg>, halt: Option<Halt>)
      requires pos <= |tokens| && ModeOk()
      requires obj != null ==> Pending(obj) && source != null && source != obj
      requires obj != null ==> obj.kind == source.kind && obj.props == source.props && obj.points == source.points
      requires obj != null ==> obj.Attributes() == source.Attributes()
      modifies this`pos, this`semanticErrors, obj
      ensures pos <= |tokens| && ModeOk() && old(semanticErrors) <= semanticErrors
      ensures Follows(mode, ArgumentsEnd(tokens, old(pos)), halt, pos)
      ensures obj != null ==> Pending(obj) && obj.Attributes() == source.Attributes()
      ensures obj != null ==>
        Bound(mode, Arguments(tokens, old(pos)), source.kind, source.props, source.points, args, obj.props, obj.points,
              halt, old(semanticErrors), semanticErrors)
    {
      args, halt := ArgumentsAndBind(obj);
    }

    /**
     * What a `SET` list does with one `name(content)` on the clause's
     * object: the modifier, looked up ignoring case, parses the content
     * between the braces, unless the object's class does not support it;
     * what it throws is thrown or recorded at its name. `applied` is what
     * the modifier's parse returned, when it ran.
     */
    method ModifierAction(obj: SceneObject, key: Tok, content: Tok) returns (applied: Option<Result<ModResult, ModifierFailure>>, halt: Option<Halt>)
      requires ModeOk() && Pending(obj)
      modifies this`semanticErrors, obj
      ensures ModeOk() && Pending(obj) && obj.name == old(obj.name) && obj.parent == old(obj.parent)
      ensures obj.mirroredObject == old(obj.mirroredObject) || fresh(obj.mirroredObject)
      ensures halt.Some? ==> mode == Execute && halt.value.Threw?
      ensures ModifierRan(obj, key, content, applied, old(obj.Snap()))
      ensures match LookupModifier(key.image)
        case None =>
          Refused(mode, Text(ModifierUndefined(key.image)), key, halt, old(semanticErrors), semanticErrors)
        case Some(m) =>
          if ModifierName(m) in UnsupportedModifiers(obj.kind) then
            Refused(mode, Text(ModifierUnsupported(ModifierName(m), KindName(obj.kind))), key, halt, old(semanticErrors), semanticErrors)
          else
            && applied.Some?
            && match applied.value
               case Ok(_) => halt.None? && semanticErrors == old(semanticErrors)
               case Err(f) => Refused(mode, FailureMessage(f), key, halt, old(semanticErrors), semanticErrors)
    {
      applied, halt := None, None;
      var found := LookupModifier(key.image);
      if found.None? {
        halt := ThrowOrAdd(Text(ModifierUndefined(key.image)), key);
      } else if ModifierName(found.value) in UnsupportedModifiers(obj.kind) {
        halt := ThrowOrAdd(Text(ModifierUnsupported(ModifierName(found.value), KindName(obj.kind))), key);
      } else {
        var r := RunModifier(found.value, obj, content);
        applied := Some(r);
        halt := ReportModifier(r, key);
      }
    }

    /** A supported modifier parses the content between the quotes; the object stays one still being built. */
    method RunModifier(m: ModifierKind, obj: SceneObject, content: Tok) returns (r: Result<ModResult, ModifierFailure>)
      requires Pending(obj)
      modifies obj
      ensures Pending(obj) && obj.name == old(obj.name) && obj.parent == old(obj.parent)
      ensures obj.mirroredObject == old(obj.mirroredObject) || fresh(obj.mirroredObject)
      ensures ModifierEffect(m, obj, ModifierTokens(m, Inner(content.image)), r, old(obj.Snap()))
    {
      r := ApplyModifier(m, obj, Inner(content.image));
    }

    /** A modifier's failure is thrown or recorded at its name; its success reports nothing. */
    method ReportModifier(r: Result<ModResult, ModifierFailure>, key: Tok) returns (halt: Option<Halt>)
      requires ModeOk()
      modifies this`semanticErrors
      ensures ModeOk() && (halt.Some? ==> mode == Execute && halt.value.Threw?)
      ensures match r
        case Ok(_) => halt.None? && semanticErrors == old(semanticErrors)
        case Err(f) => Refused(mode, FailureMessage(f), key, halt, old(semanticErrors), semanticErrors)
    {
      halt := None;
      if r.Err? {
        halt := ThrowOrAdd(FailureMessage(r.error), key);
      }
    }

    /** One `name(content)` of a `SET` list: its four tokens, then its action when the clause has an object. */
    method ModifierClause(obj: SceneObject?) returns (applied: Option<Result<ModResult, ModifierFailure>>, halt: Option<Halt>)
      requires At(tokens, pos, Identifier) && ModeOk()
      requires obj != null ==> Pending(obj)
      modifies this`pos, this`semanticErrors, obj
      ensures pos <= |tokens| && ModeOk() && old(semanticErrors) <= semanticErrors
      ensures Follows(mode, ModifierSyntax(tokens, old(pos)), halt, pos)
      ensures obj != null ==> Pending(obj) && obj.name == old(obj.name) && obj.parent == old(obj.parent)
      ensures obj != null ==> obj.mirroredObject == old(obj.mirroredObject) || fresh(obj.mirroredObject)
      ensures obj == null || ModifierSyntax(tokens, old(pos)).Err? ==> applied.None? && semanticErrors == old(semanticErrors)
      ensures obj != null && ModifierSyntax(tokens, old(pos)).Err? ==> obj.Snap() == old(obj.Snap())
      ensures obj != null && ModifierSyntax(tokens, old(pos)).Ok? ==> ModifierRan(obj, tokens[old(pos)], tokens[old(pos) + 2], applied, old(obj.Snap()))
    {
      applied := None;
      var key := tokens[pos];
      pos := pos + 1;
      var t, content;
      t, halt := Consume(LeftParentheses);
      if halt.Some? {
        return;
      }
      content, halt := Consume(AnyText);
      if halt.Some? {
        return;
      }
      t, halt := Consume(RightParentheses);
      if halt.Some? || obj == null {
        return;
      }
      applied, halt := ModifierAction(obj, key, content);
    }

    /** The repetitions of a `SET` list: as long as an identifier follows, one more modifier. */
    method SetItems(obj: SceneObject?) returns (halt: Option<Halt>)
      requires pos <= |tokens| && ModeOk()
      requires obj != null ==> Pending(obj)
      modifies this`pos, this`semanticErrors, obj
      ensures pos <= |tokens| && ModeOk() && old(semanticErrors) <= semanticErrors
      ensures Follows(mode, ModifiersSyntax(tokens, old(pos)), halt, pos)
      ensures obj != null ==> Pending(obj) && obj.name == old(obj.name) && obj.parent == old(obj.parent)
      ensures obj != null ==> obj.mirroredObject == old(obj.mirroredObject) || fresh(obj.mirroredObject)
      ensures obj == null ==> semanticErrors == old(semanticErrors)
      ensures obj != null && !At(tokens, old(pos), Identifier) ==> unchanged(obj)
    {
      halt := None;
      while At(tokens, pos, Identifier)
        invariant old(pos) <= pos <= |tokens| && ModeOk() && old(semanticErrors) <= semanticErrors && halt.None?
        invariant ModifiersSyntax(tokens, pos) == ModifiersSyntax(tokens, old(pos))
        invariant obj != null ==> Pending(obj) && obj.name == old(obj.name) && obj.parent == old(obj.parent)
        invariant obj != null ==> obj.mirroredObject == old(obj.mirroredObject) || fresh(obj.mirroredObject)
        invariant obj == null ==> semanticErrors == old(semanticErrors)
        invariant obj != null && pos == old(pos) ==> unchanged(obj)
        decreases |tokens| - pos
      {
        var applied;
        applied, halt := ModifierClause(obj);
        if halt.Some? {
          return;
        }
      }
    }

    /** The optional `SET` and its list, which must hold at least one modifier. */
    method SetClause(obj: SceneObject?) returns (applied: Option<Result<ModResult, ModifierFailure>>, halt: Option<Halt>)
      requires pos <= |tokens| && ModeOk()
      requires obj != null ==> Pending(obj)
      modifies this`pos, this`semanticErrors, obj
      ensures pos <= |tokens| && ModeOk() && old(semanticErrors) <= semanticErrors
      ensures Follows(mode, SetSyntax(tokens, old(pos)), halt, pos)
      ensures obj != null ==> Pending(obj) && obj.name == old(obj.name) && obj.parent == old(obj.parent)
      ensures obj != null ==> obj.mirroredObject == old(obj.mirroredObject) || fresh(obj.mirroredObject)
      ensures obj == null ==> semanticErrors == old(semanticErrors)
      ensures !At(tokens, old(pos), SetKeyword) ==> halt.None? && pos == old(pos) && (obj != null ==> unchanged(obj))
      ensures obj != null && At(tokens, old(pos), SetKeyword) && SetSyntax(tokens, old(pos)) == Ok(old(pos) + 5) ==>
        ModifierRan(obj, tokens[old(pos) + 1], tokens[old(pos) + 3], applied, old(obj.Snap()))
    {
      applied, halt := None, None;
      if !At(tokens, pos, SetKeyword) {
        return;
      }
      pos := pos + 1;
      if !At(tokens, pos, Identifier) {
        halt := Some(Syntax(EarlyExit(pos)));
        return;
      }
      applied, halt := ModifierList(obj);
    }

    /** A `SET` list after its keyword: one modifier, then as many as identifiers follow. */
    method ModifierList(obj: SceneObject?) returns (applied: Option<Result<ModResult, ModifierFailure>>, halt: Option<Halt>)
      requires pos <= |tokens| && ModeOk() && At(tokens, pos, Identifier)
      requires obj != null ==> Pending(obj)
      modifies this`pos, this`semanticErrors, obj
      ensures pos <= |tokens| && ModeOk() && old(semanticErrors) <= semanticErrors
      ensures Follows(mode, ModifiersSyntax(tokens, old(pos)), halt, pos)
      ensures obj != null ==> Pending(obj) && obj.name == old(obj.name) && obj.parent == old(obj.parent)
      ensures obj != null ==> obj.mirroredObject == old(obj.mirroredObject) || fresh(obj.mirroredObject)
      ensures obj == null ==> semanticErrors == old(semanticErrors)
      ensures obj != null && ModifiersSyntax(tokens, old(pos)) == Ok(old(pos) + 4) ==>
        ModifierRan(obj, tokens[old(pos)], tokens[old(pos) + 2], applied, old(obj.Snap()))
    {
      if obj != null && ModifiersSyntax(tokens, pos) == Ok(pos + 4) {
        ListOfOne(tokens, pos);
      }
      applied, halt := ModifierClause(obj);
      if halt.Some? {
        return;
      }
      label Listed:
      halt := SetItems(obj);
      assert obj != null && ModifiersSyntax(tokens, old(pos)) == Ok(old(pos) + 4) ==> unchanged@Listed(obj);
    }

    /** `name` is the image of an identifier of the program. */
    ghost predicate Written(name: string)
      reads this`tokens
    {
      exists k :: 0 <= k < |tokens| && tokens[k].kind == Identifier && tokens[k].image == name
    }

    /** An optional clause's token, when present, is an identifier of the program. */
    ghost predicate Picked(t: Option<Tok>)
      reads this`tokens
    {
      t.Some? ==> t.value in tokens && t.value.kind == Identifier
    }

    /** The optional `AS name` and `CHILD TO name` after a clause. */
    method NameAndChild() returns (name: Option<Tok>, parent: Option<Tok>, halt: Option<Halt>)
      requires pos <= |tokens|
      modifies this`pos
      ensures pos <= |tokens| && Picked(name) && Picked(parent)
      ensures match NameSyntax(tokens, old(pos))
        case Err(h) => halt == Some(h)
        case Ok(k) =>
          && (name.Some? <==> k != old(pos))
          && match ChildSyntax(tokens, k)
             case Err(h) => halt == Some(h)
             case Ok(l) => halt.None? && pos == l && (parent.Some? <==> l != k)
    {
      name, parent := None, None;
      var t;
      if At(tokens, pos, As) {
        pos := pos + 1;
        t, halt := Consume(Identifier);
        if halt.Some? {
          return;
        }
        name := Some(t);
      }
      halt := None;
      if At(tokens, pos, Child) {
        pos := pos + 1;
        t, halt := Consume(To);
        if halt.Some? {
          return;
        }
        t, halt := Consume(Identifier);
        if halt.Some? {
          return;
        }
        parent := Some(t);
      }
    }

    /**
     * A clause: a new object of a named type, or a clone of a named object.
     * `source` is the entry a clone copies.
     */
    method AnyClause() returns (c: Clause, ghost source: SceneObject?, halt: Option<Halt>)
      requires pos <= |tokens| && ModeOk() && Stored()
      modifies this`pos, this`semanticErrors
      ensures pos <= |tokens| && ModeOk() && old(semanticErrors) <= semanticErrors
      ensures Follows(mode, ClauseSyntax(tokens, old(pos)), halt, pos)
      ensures c.obj != null ==> fresh(c.obj) && Pending(c.obj) && Written(c.objectName)
      ensures c.obj != null ==> c.obj.mirroredObject == null || c.obj.mirroredObject in Repr
      ensures Made(old(pos), c, source)
      ensures At(tokens, old(pos), Identifier) ==>
        var name := tokens[old(pos)].image;
        match LookupObjectKind(name)
        case None =>
          Refused(mode, Text(TypeNotFound(name)), tokens[old(pos)], halt, old(semanticErrors), semanticErrors)
        case Some(k) =>
          && c.obj.Attributes() == Attrs("", null, None, null, true, InitialFill(k))
          && Bound(mode, Arguments(tokens, old(pos) + 1), k, Defaults(k), [], c.args, c.obj.props, c.obj.points,
                   halt, old(semanticErrors), semanticErrors)
      ensures At(tokens, old(pos), ExclamationPoint) ==> (c.obj != null <==> source != null && source.isCloneable)
      ensures At(tokens, old(pos), ExclamationPoint) && c.obj != null ==>
        && c.obj.Attributes() == source.Attributes()
        && Bound(mode, Arguments(tokens, old(pos) + 2), source.kind, source.props, source.points,
                 c.args, c.obj.props, c.obj.points, halt, old(semanticErrors), semanticErrors)
    {
      source := null;
      if At(tokens, pos, Identifier) {
        c, halt := ObjectClause();
      } else if At(tokens, pos, ExclamationPoint) {
        c, source, halt := CloneClause();
      } else {
        c, halt := Clause("", null, []), Some(Syntax(NoViableAlternative(pos)));
      }
    }

    /**
     * Which object a clause at `p` made. A type name gives a new object
     * of that type, or none when no type has the name. A clone `!name`
     * copies `source`, the first entry with the name, and gives an object
     * of its type only when that entry exists (and, as `AnyClause`
     * states, is cloneable). Anything else gives none.
     */
    ghost predicate Made(p: nat, c: Clause, source: SceneObject?)
      reads this`tokens, this`objects
    {
      if At(tokens, p, Identifier) then
        && c.objectName == tokens[p].image
        && (c.obj == null <==> LookupObjectKind(c.objectName).None?)
        && (c.obj != null ==> c.obj.kind == LookupObjectKind(c.objectName).value)
      else if At(tokens, p, ExclamationPoint) then
        && (!At(tokens, p + 1, Identifier) ==> source == null && c.obj == null)
        && (At(tokens, p + 1, Identifier) ==>
              c.objectName == tokens[p + 1].image && (source == null <==> FindEntry(objects, c.objectName).None?))
        && (source != null ==> source == objects[FindEntry(objects, c.objectName).value].obj)
        && (c.obj != null ==> source != null && c.obj.kind == source.kind)
      else
        c.obj == null
    }

    /** What follows a clause, with the clause's object as the modifiers' target. */
    method StatementTail(obj: SceneObject?) returns (name: Option<Tok>, parent: Option<Tok>, halt: Option<Halt>)
      requires pos <= |tokens| && ModeOk()
      requires obj != null ==> Pending(obj)
      modifies this`pos, this`semanticErrors, obj
      ensures pos <= |tokens| && ModeOk() && old(semanticErrors) <= semanticErrors
      ensures Follows(mode, TailSyntax(tokens, old(pos)), halt, pos)
      ensures obj != null ==> Pending(obj)
      ensures obj != null ==> obj.mirroredObject == old(obj.mirroredObject) || fresh(obj.mirroredObject)
      ensures Picked(name) && Picked(parent)
    {
      name, parent, halt := NameAndChild();
      if halt.Some? {
        return;
      }
      var applied;
      applied, halt := SetClause(obj);
    }

    /**
     * `singleObjectAndModifiers`: a clause, its optional name and parent,
     * then its modifiers. `source` is the entry a clone copies.
     */
    method SingleStatement() returns (st: Statement, ghost source: SceneObject?, halt: Option<Halt>)
      requires pos <= |tokens| && ModeOk() && Stored()
      modifies this`pos, this`semanticErrors
      ensures pos <= |tokens| && ModeOk() && old(semanticErrors) <= semanticErrors
      ensures Follows(mode, StatementSyntax(tokens, old(pos)), halt, pos)
      ensures Made(old(pos), st.clause, source)
      ensures st.clause.obj != null ==> fresh(st.clause.obj) && Pending(st.clause.obj) && Written(st.clause.objectName)
      ensures st.clause.obj != null ==>
        var m := st.clause.obj.mirroredObject;
        m == null || m in Repr || fresh(m)
      ensures Picked(st.name) && Picked(st.parent)
    {
      var c;
      c, source, halt := ClauseHead();
      st := Statement(c, None, None);
      if halt.Some? {
        return;
      }
      st, halt := ClauseTail(c, old(pos), source);
    }

    /** The clause that heads a statement, with what the statement relies on from `AnyClause`. */
    method ClauseHead() returns (c: Clause, ghost source: SceneObject?, halt: Option<Halt>)
      requires pos <= |tokens| && ModeOk() && Stored()
      modifies this`pos, this`semanticErrors
      ensures pos <= |tokens| && ModeOk() && old(semanticErrors) <= semanticErrors
      ensures Follows(mode, ClauseSyntax(tokens, old(pos)), halt, pos)
      ensures c.obj != null ==> fresh(c.obj) && Pending(c.obj) && Written(c.objectName)
      ensures c.obj != null ==> c.obj.mirroredObject == null || c.obj.mirroredObject in Repr
      ensures Made(old(pos), c, source)
    {
      c, source, halt := AnyClause();
    }

    /** The statement a clause heads: its optional name and parent, then its modifiers. */
    method ClauseTail(c: Clause, ghost p: nat, ghost source: SceneObject?) returns (st: Statement, halt: Option<Halt>)
      requires pos <= |tokens| && ModeOk() && Made(p, c, source)
      requires c.obj != null ==> Pending(c.obj)
      modifies this`pos, this`semanticErrors, c.obj
      ensures pos <= |tokens| && ModeOk() && old(semanticErrors) <= semanticErrors
      ensures Follows(mode, TailSyntax(tokens, old(pos)), halt, pos)
      ensures st.clause == c && Made(p, c, source)
      ensures c.obj != null ==> Pending(c.obj)
      ensures c.obj != null ==> c.obj.mirroredObject == old(c.obj.mirroredObject) || fresh(c.obj.mirroredObject)
      ensures Picked(st.name) && Picked(st.parent)
    {
      var name, parent;
      name, parent, halt := StatementTail(c.obj);
      st := Statement(c, name, parent);
    }

    /** The `CHILD TO` part of `processSingleStatement`: the parent is the first entry with that name. */
    method AttachParent(obj: SceneObject, parent: Option<Tok>) returns (halt: Option<Halt>)
      requires ModeOk() && Pending(obj)
      modifies this`semanticErrors, obj`parent
      ensures ModeOk() && Pending(obj)
      ensures Applied(mode, ParentEvents(objects, parent), halt, old(semanticErrors), semanticErrors)
      ensures parent.Some? && FindEntry(objects, parent.value.image).Some? ==>
        obj.parent == objects[FindEntry(objects, parent.value.image).value].obj
      ensures !(parent.Some? && FindEntry(objects, parent.value.image).Some?) ==> obj.parent == old(obj.parent)
    {
      halt := None;
      if parent.Some? {
        var found := FindEntry(objects, parent.value.image);
        if found.None? {
          halt := ThrowOrAdd(Text(ParentUndefined(parent.value.image)), parent.value);
        } else {
          obj.parent := objects[found.value].obj;
        }
      }
    }

    /**
     * The object appended under `BaseText(b)`, then its Mirror companion,
     * renamed, under the companion name; the names stay distinct.
     */
    method Append(obj: SceneObject, b: BaseName, order: nat)
      requires Stored() && Names(order) && Pending(obj)
      requires WordBase(b) && (b.Generated? ==> b.order == order) && (b.Chosen? ==> FindEntry(objects, b.name).None?)
      modifies this`objects, this`origins, this`Repr, obj, obj.mirroredObject
      ensures Stored() && Names(order + 1)
      ensures obj.parent == old(obj.parent) && obj.mirroredObject == old(obj.mirroredObject)
      ensures var companion := obj.mirroredObject;
        && objects == old(objects) + [Entry(BaseText(b), obj)] + (if companion == null then [] else [Entry(MirrorName(BaseText(b)), companion)])
        && obj.name == BaseText(b) && (companion != null ==> companion.name == MirrorName(BaseText(b)))
        && Repr == old(Repr) + {obj} + (if companion == null then {} else {companion})
    {
      var name := BaseText(b);
      Rename(obj, name);
      Push(obj, b, order);
    }

    /** `object.name = ...`, and the companion's `${name}-mirrored`. */
    method Rename(obj: SceneObject, name: string)
      requires Stored() && Pending(obj)
      modifies obj, obj.mirroredObject
      ensures Stored() && Pending(obj)
      ensures obj.name == name && (obj.mirroredObject != null ==> obj.mirroredObject.name == MirrorName(name))
      ensures obj.parent == old(obj.parent) && obj.mirroredObject == old(obj.mirroredObject)
    {
      obj.name := name;
      var companion := obj.mirroredObject;
      if companion != null {
        companion.name := MirrorName(name);
      }
    }

    /** The entries pushed for an object already renamed, and its companion's. */
    method Push(obj: SceneObject, b: BaseName, order: nat)
      requires Stored() && Names(order) && Pending(obj)
      requires WordBase(b) && (b.Generated? ==> b.order == order) && (b.Chosen? ==> FindEntry(objects, b.name).None?)
      requires obj.name == BaseText(b) && (obj.mirroredObject != null ==> obj.mirroredObject.name == MirrorName(BaseText(b)))
      modifies this`objects, this`origins, this`Repr
      ensures Stored() && Names(order + 1)
      ensures var companion := obj.mirroredObject;
        && objects == old(objects) + [Entry(BaseText(b), obj)] + (if companion == null then [] else [Entry(MirrorName(BaseText(b)), companion)])
        && Repr == old(Repr) + {obj} + (if companion == null then {} else {companion})
    {
      var name := BaseText(b);
      var companion := obj.mirroredObject;
      var more := [Entry(name, obj)] + (if companion == null then [] else [Entry(MirrorName(name), companion)]);
      PushNames(objects, origins, order, b, more);
      origins := origins + [Own(b)] + (if |more| == 2 then [Companion(b)] else []);
      objects := objects + more;
      Repr := Repr + {obj} + (if companion == null then {} else {companion});
    }

    /**
     * The naming part of `processSingleStatement`: the `AS` name when no
     * entry has it yet, else (after the problem is thrown or recorded) the
     * fallback from the written type or clone name and `order`.
     */
    method NameAndAppend(obj: SceneObject, name: Option<Tok>, written: string, order: nat) returns (halt: Option<Halt>)
      requires ModeOk() && Stored() && Names(order) && WordTokens()
      requires Pending(obj) && Written(written) && Picked(name)
      modifies this`objects, this`origins, this`Repr, this`semanticErrors, obj, obj.mirroredObject
      ensures ModeOk() && Stored() && Names(order + 1)
      ensures Applied(mode, NameEvents(old(objects), name), halt, old(semanticErrors), semanticErrors)
      ensures obj.parent == old(obj.parent) && obj.mirroredObject == old(obj.mirroredObject)
      ensures halt.Some? ==> objects == old(objects) && Repr == old(Repr)
      ensures halt.None? ==>
        var companion := old(obj.mirroredObject);
        var text := BaseText(StatementBase(old(objects), name, written, order));
        && objects == old(objects) + [Entry(text, obj)] + (if companion == null then [] else [Entry(MirrorName(text), companion)])
        && obj.name == text && (companion != null ==> companion.name == MirrorName(text))
        && Repr == old(Repr) + {obj} + (if companion == null then {} else {companion})
    {
      halt := None;
      var b := StatementBase(objects, name, written, order);
      if name.Some? && FindEntry(objects, name.value.image).Some? {
        halt := ThrowOrAdd(Text(NameTaken(name.value.image)), name.value);
        if halt.Some? {
          return;
        }
      }
      assert WordBase(b) by {
        if b.Chosen? {
          assert name.value in tokens;
        } else {
          var k :| 0 <= k < |tokens| && tokens[k].kind == Identifier && tokens[k].image == written;
        }
      }
      Append(obj, b, order);
    }

    /**
     * `processSingleStatement` for a statement with an object: its parent,
     * then its name and entries. Execute mode stops at the first problem,
     * before anything is appended; lint mode records each problem and
     * appends anyway.
     */
    method ProcessStatement(st: Statement, order: nat) returns (halt: Option<Halt>)
      requires st.clause.obj != null
      requires ModeOk() && Stored() && Names(order) && WordTokens()
      requires Pending(st.clause.obj) && Written(st.clause.objectName) && Picked(st.name)
      modifies this`objects, this`origins, this`Repr, this`semanticErrors, st.clause.obj, st.clause.obj.mirroredObject
      ensures ModeOk() && Stored() && Names(order + 1)
      ensures Applied(mode, StatementEvents(old(objects), st), halt, old(semanticErrors), semanticErrors)
      ensures st.clause.obj.mirroredObject == old(st.clause.obj.mirroredObject)
      ensures st.parent.Some? && FindEntry(old(objects), st.parent.value.image).Some? ==>
        st.clause.obj.parent == old(objects)[FindEntry(old(objects), st.parent.value.image).value].obj
      ensures halt.Some? ==> objects == old(objects) && Repr == old(Repr)
      ensures halt.None? ==>
        var obj := st.clause.obj;
        var companion := old(obj.mirroredObject);
        var name := BaseText(StatementBase(old(objects), st.name, st.clause.objectName, order));
        && objects == old(objects) + [Entry(name, obj)] + (if companion == null then [] else [Entry(MirrorName(name), companion)])
        && obj.name == name && (companion != null ==> companion.name == MirrorName(name))
        && Repr == old(Repr) + {obj} + (if companion == null then {} else {companion})
    {
      halt := AttachParent(st.clause.obj, st.parent);
      if halt.Some? {
        return;
      }
      ghost var middle := semanticErrors;
      halt := NameAndAppend(st.clause.obj, st.name, st.clause.objectName, order);
      AppliedThen(mode, ParentEvents(old(objects), st.parent), NameEvents(old(objects), st.name), halt, old(semanticErrors), middle, semanticErrors);
    }

    /**
     * A statement as `objectStatement` handles it: parsed, then processed
     * if it has an object. `order`, the number in fallback names, counts
     * only the statements that made an object.
     */
    method NextStatement(order: nat) returns (order': nat, st: Statement, halt: Option<Halt>)
      requires Ready(order)
      modifies this`pos, this`objects, this`origins, this`Repr, this`semanticErrors, Repr
      ensures Ready(order') && order <= order'
      ensures Follows(mode, StatementSyntax(tokens, old(pos)), halt, pos)
      ensures halt.None? ==> StatementSyntax(tokens, old(pos)) == Ok(pos)
      ensures mode == Lint ==> old(semanticErrors) <= semanticErrors
      ensures fresh(Repr - old(Repr))
      ensures halt.None? ==> order' == order + (if st.clause.obj != null then 1 else 0)
      ensures halt.Some? || st.clause.obj == null ==> objects == old(objects)
      ensures halt.None? && st.clause.obj != null ==>
        objects == old(objects) + Pushed(BaseText(StatementBase(old(objects), st.name, st.clause.objectName, order)),
                                         st.clause.obj, st.clause.obj.mirroredObject)
    {
      var parsed;
      st, parsed := ParseStatement(order);
      order', halt := Settle(st, parsed, order);
    }

    /** The objects a statement adds to `Repr` when it is processed: the object its clause made and that object's Mirror companion. */
    ghost function Added(c: Clause): set<object>
      reads c.obj
    {
      if c.obj == null then {}
      else {c.obj} + if c.obj.mirroredObject == null then {} else {c.obj.mirroredObject}
    }

    /** What follows the parse of a statement: `Processed` if it made an object and did not stop. */
    method Settle(st: Statement, parsed: Option<Halt>, order: nat) returns (order': nat, halt: Option<Halt>)
      requires Ready(order)
      requires st.clause.obj != null ==> Pending(st.clause.obj) && Written(st.clause.objectName) && Picked(st.name)
      modifies this`objects, this`origins, this`Repr, this`semanticErrors, st.clause.obj
      modifies if st.clause.obj != null then st.clause.obj.mirroredObject else null
      ensures Ready(order')
      ensures parsed.Some? ==> halt == parsed
      ensures parsed.None? ==> halt.None? || (halt.value.Threw? && mode == Execute)
      ensures mode == Lint ==> old(semanticErrors) <= semanticErrors
      ensures parsed.Some? || st.clause.obj == null ==> order' == order && objects == old(objects) && Repr == old(Repr)
      ensures parsed.None? && st.clause.obj != null ==>
        && order' == order + 1
        && st.clause.obj.mirroredObject == old(st.clause.obj.mirroredObject)
      ensures Repr <= old(Repr) + old(Added(st.clause))
      ensures halt.None? && st.clause.obj != null ==>
        objects == old(objects) + Pushed(BaseText(StatementBase(old(objects), st.name, st.clause.objectName, order)),
                                         st.clause.obj, st.clause.obj.mirroredObject)
      ensures halt.Some? && parsed.None? && st.clause.obj != null ==> objects == old(objects)
    {
      halt := parsed;
      if parsed.Some? || st.clause.obj == null {
        order' := order;
      } else {
        halt := Processed(st, order);
        order' := order + 1;
      }
    }

    /** `SingleStatement` between statements: the parse changes no entry. */
    method ParseStatement(ghost order: nat) returns (st: Statement, halt: Option<Halt>)
      requires Ready(order)
      modifies this`pos, this`semanticErrors
      ensures Ready(order) && objects == old(objects) && Repr == old(Repr)
      ensures Follows(mode, StatementSyntax(tokens, old(pos)), halt, pos)
      ensures mode == Lint ==> old(semanticErrors) <= semanticErrors
      ensures st.clause.obj != null ==> fresh(st.clause.obj) && Pending(st.clause.obj) && Written(st.clause.objectName)
      ensures st.clause.obj != null ==>
        var m := st.clause.obj.mirroredObject;
        m == null || m in Repr || fresh(m)
      ensures fresh(Added(st.clause) - Repr)
      ensures Picked(st.name) && Picked(st.parent)
    {
      ghost var source;
      st, source, halt := SingleStatement();
    }

    /** `ProcessStatement` as the statement loop uses it: entries appended, problems reported. */
    method Processed(st: Statement, order: nat) returns (halt: Option<Halt>)
      requires st.clause.obj != null
      requires ModeOk() && Stored() && Names(order) && WordTokens()
      requires Pending(st.clause.obj) && Written(st.clause.objectName) && Picked(st.name)
      modifies this`objects, this`origins, this`Repr, this`semanticErrors, st.clause.obj, st.clause.obj.mirroredObject
      ensures ModeOk() && Stored() && Names(order + 1)
      ensures mode == Lint ==> halt.None? && semanticErrors == old(semanticErrors) + Reported(StatementEvents(old(objects), st))
      ensures halt.Some? ==> halt.value.Threw? && objects == old(objects)
      ensures st.clause.obj.mirroredObject == old(st.clause.obj.mirroredObject)
      ensures halt.None? ==>
        objects == old(objects) + Pushed(BaseText(StatementBase(old(objects), st.name, st.clause.objectName, order)),
                                         st.clause.obj, st.clause.obj.mirroredObject)
      ensures Repr <= old(Repr) + {st.clause.obj, old(st.clause.obj.mirroredObject)}
    {
      halt := ProcessStatement(st, order);
      if mode == Lint {
        assert semanticErrors == old(semanticErrors) + Reported(StatementEvents(old(objects), st));
      }
    }

    /** One turn of the `MANY` of `objectStatement`: the comma, then a statement. */
    method CommaStatement(order: nat) returns (order': nat, halt: Option<Halt>)
      requires Ready(order) && StartsStatement(tokens, pos)
      modifies this`pos, this`objects, this`origins, this`Repr, this`semanticErrors, Repr
      ensures Ready(order') && (halt.None? ==> old(pos) < pos)
      ensures halt.None? ==> MoreStatements(tokens, old(pos)) == MoreStatements(tokens, pos)
      ensures halt.Some? ==> Follows(mode, MoreStatements(tokens, old(pos)), halt, pos)
      ensures mode == Lint ==> old(semanticErrors) <= semanticErrors
      ensures fresh(Repr - old(Repr))
    {
      ghost var comma := pos;
      SkipComma(order);
      var st;
      order', st, halt := NextStatement(order);
      MoreStep(mode, tokens, comma, halt, pos);
    }

    /** `CONSUME(Comma)` between statements. */
    method SkipComma(ghost order: nat)
      requires Ready(order) && StartsStatement(tokens, pos)
      modifies this`pos
      ensures Ready(order) && pos == old(pos) + 1
    {
      pos := pos + 1;
    }

    /** The `MANY(Comma statement)` of `objectStatement`: more statements as long as a comma starts one. */
    method RestStatements(order: nat) returns (next: nat, halt: Option<Halt>)
      requires Ready(order)
      modifies this`pos, this`objects, this`origins, this`Repr, this`semanticErrors, Repr
      ensures Ready(next)
      ensures Follows(mode, MoreStatements(tokens, old(pos)), halt, pos)
      ensures halt.None? ==> MoreStatements(tokens, old(pos)) == Ok(pos)
      ensures mode == Lint ==> old(semanticErrors) <= semanticErrors
    {
      next := order;
      halt := None;
      while StartsStatement(tokens, pos)
        invariant Ready(next) && halt.None?
        invariant MoreStatements(tokens, pos) == MoreStatements(tokens, old(pos))
        invariant mode == Lint ==> old(semanticErrors) <= semanticErrors
        invariant fresh(Repr - old(Repr))
        decreases |tokens| - pos
      {
        next, halt := CommaStatement(next);
        if halt.Some? {
          return;
        }
      }
    }

    /** The comma-separated statements of `objectStatement`. */
    method Statements() returns (halt: Option<Halt>)
      requires pos == 0 && objects == [] && Repr == {} && WordTokens() && ModeOk() && Names(1)
      modifies this`pos, this`objects, this`origins, this`Repr, this`semanticErrors
      ensures pos <= |tokens| && Stored() && ModeOk() && DistinctNames(objects)
      ensures Follows(mode, StatementsEnd(tokens), halt, pos)
      ensures halt.None? ==> StatementsEnd(tokens) == Ok(pos)
      ensures StatementSyntax(tokens, 0).Err? ==> objects == []
    {
      var order;
      var st;
      order, st, halt := NextStatement(1);
      if halt.Some? {
        return;
      }
      order, halt := RestStatements(order);
    }

    /**
     * The end of `objectStatement`, then the parser's check that all input
     * was read: a trailing comma is thrown or recorded as a problem, and
     * the first token left over is a syntax error.
     */
    method Finish() returns (halt: Option<Halt>)
      requires pos <= |tokens| && ModeOk()
      modifies this`pos, this`semanticErrors
      ensures ModeOk()
      ensures Ends(mode, EndOfInput(tokens, old(pos)), halt)
      ensures mode == Lint ==> halt == EndOfInput(tokens, old(pos))
      ensures At(tokens, old(pos), Comma) ==>
        Refused(mode, Text(TrailingComma), tokens[old(pos)], halt, old(semanticErrors), semanticErrors)
      ensures !At(tokens, old(pos), Comma) ==> semanticErrors == old(semanticErrors)
    {
      if At(tokens, pos, Comma) {
        var comma := tokens[pos];
        pos := pos + 1;
        halt := ThrowOrAdd(Text(TrailingComma), comma);
        if halt.Some? {
          return;
        }
      }
      halt := None;
      if pos < |tokens| {
        halt := Some(Syntax(NotAllInputParsed(pos)));
      }
    }

    /** `objectStatement` and the check that all input was read. */
    method ObjectStatement() returns (halt: Option<Halt>)
      requires pos == 0 && objects == [] && Repr == {} && WordTokens() && ModeOk() && Names(1)
      modifies this`pos, this`objects, this`origins, this`Repr, this`semanticErrors
      ensures Stored() && ModeOk() && DistinctNames(objects)
      ensures Ends(mode, Grammar(tokens), halt)
      ensures mode == Lint ==> halt == Grammar(tokens)
      ensures mode == Lint && StatementsEnd(tokens).Ok? && At(tokens, StatementsEnd(tokens).value, Comma) ==>
        semanticErrors != [] && semanticErrors[|semanticErrors| - 1] == SemanticError(Text(TrailingComma), tokens[StatementsEnd(tokens).value])
      ensures mode == Execute && halt.None? ==> !(StatementsEnd(tokens).Ok? && At(tokens, StatementsEnd(tokens).value, Comma))
      ensures StatementSyntax(tokens, 0).Err? ==> objects == []
    {
      halt := Statements();
      if halt.Some? {
        GrammarStopped(mode, tokens, halt, pos);
        return;
      }
      ghost var end, middle := pos, semanticErrors;
      halt := Finish();
      GrammarFinished(mode, tokens, end, halt, middle, semanticErrors);
    }
  }

  /** Statements that stopped the parse stop the program there. */
  lemma GrammarStopped(m: Mode, toks: seq<Tok>, halt: Option<Halt>, p: nat)
    requires halt.Some? && Follows(m, StatementsEnd(toks), halt, p)
    ensures Ends(m, Grammar(toks), halt) && (m == Lint ==> halt == Grammar(toks) && StatementsEnd(toks).Err?)
  {
  }

  /**
   * Statements that ended at `p` leave the program to the end-of-input
   * check there, which refuses a trailing comma.
   */
  lemma GrammarFinished(m: Mode, toks: seq<Tok>, p: nat, halt: Option<Halt>, before: seq<SemanticError>, after: seq<SemanticError>)
    requires StatementsEnd(toks) == Ok(p)
    requires Ends(m, EndOfInput(toks, p), halt) && (m == Lint ==> halt == EndOfInput(toks, p))
    requires At(toks, p, Comma) ==> Refused(m, Text(TrailingComma), toks[p], halt, before, after)
    ensures Ends(m, Grammar(toks), halt) && (m == Lint ==> halt == Grammar(toks))
    ensures m == Lint && At(toks, p, Comma) ==> after != [] && after[|after| - 1] == SemanticError(Text(TrailingComma), toks[p])
    ensures m == Execute && halt.None? ==> !At(toks, p, Comma)
  {
  }

  /** Two rounds of `throwOrAddError`, the first of which did not throw, act as one. */
  lemma AppliedThen(m: Mode, es1: seq<Event>, es2: seq<Event>, h: Option<Halt>,
                    a: seq<SemanticError>, b: seq<SemanticError>, c: seq<SemanticError>)
    requires Applied(m, es1, None, a, b) && Applied(m, es2, h, b, c)
    ensures Applied(m, es1 + es2, h, a, c)
  {
    if m == Execute {
      assert es1 == [];
      assert es1 + es2 == es2;
    } else {
      ReportedConcat(es1, es2);
    }
  }

  /** Reporting two runs of events reports each in turn. */
  lemma {:induction false} ReportedConcat(es1: seq<Event>, es2: seq<Event>)
    ensures Reported(es1 + es2) == Reported(es1) + Reported(es2)
    decreases |es2|
  {
    if es2 == [] {
      assert es1 + es2 == es1;
    } else {
      var init := es2[..|es2| - 1];
      var last := es2[|es2| - 1];
      assert es2 == init + [last];
      assert es1 + es2 == (es1 + init) + [last];
      ReportedConcat(es1, init);
      ReportedAppend(es1 + init, last);
      ReportedAppend(init, last);
    }
  }

  /** Recording one more event appends its report. */
  lemma ReportedAppend(es: seq<Event>, e: Event)
    ensures Reported(es + [e]) == Reported(es) + (if e.token.Some? then [SemanticError(e.message, e.token.value)] else [])
  {
    if es != [] {
      assert (es + [e])[1..] == es[1..] + [e];
      ReportedAppend(es[1..], e);
    }
  }
}
