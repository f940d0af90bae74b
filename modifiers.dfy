/**
 * The five modifiers (src/services/classes/modifers/): each is a one-rule
 * grammar over the text between `SET Name('` and `')`, parsed without
 * error recovery, whose action changes the target object.
 *
 * `parse` (modifer.ts) unwraps one pair of single quotes, lexes the text
 * (dropping the lexer's errors), runs the rule and then throws the first
 * parser error.  A recognition error before the action leaves the target
 * unchanged; a rule that succeeds but leaves tokens over still ran its
 * action, and the "not all input parsed" error is thrown afterwards.  An
 * error thrown by an action itself propagates with its own message.
 */
module Modifiers {
  import opened Wrappers
  import opened Chars
  import opened Values
  import opened Kinds
  import opened Lexing
  import opened ModifierLexer
  import opened Scene

  /**
   * A recognition error of a modifier grammar, at a token index (the
   * token count for the end of input).  The library's message text for
   * it is not modelled.
   */
  datatype SyntaxError =
    | MismatchedToken(at: nat)
    | NoViableAlternative(at: nat)
    | EarlyExit(at: nat)
    | NotAllInputParsed(at: nat)

  /**
   * How `parse` fails: an action's own error, or
   * `Sad sad panda, parsing errors detected!\n` followed by the first
   * recognition error's message.
   */
  datatype ModifierFailure = Thrown(message: string) | ParsingErrors(first: SyntaxError)

  /** What a rule returns on success. */
  datatype ModResult =
    | ColorStatement(value: Token<ModToken>)
    | FlipStatement(direction: string)
    | LayerStatement(layer: LayerRef)
    | NoResult

  /** The prefix of every parse-error message a modifier throws. */
  const PandaPrefix: string := "Sad sad panda, parsing errors detected!\n"
  const ColorMissing: string := "Color isn't on this object, Please look for other object"
  const InvalidDirection: string := "Invalid direction for Flip modifier. Use 'horizontal' or 'vertical'."
  const InvalidAxis: string := "Invalid axis for Mirror modifier. Use 'horizontal' or 'vertical'."

  function FillUnsupported(typeName: string): string
  {
    "The '" + typeName + "' object does not support the 'Fill' modifier."
  }

  /**
   * The parse of a rule up to its action: either the rule cannot reach
   * its action, or it reaches it with `arg`, possibly leaving tokens over.
   */
  datatype Plan<A> = Refuse(failure: ModifierFailure) | Act(arg: A, leftover: Option<SyntaxError>)

  /** The outcome once the action has run without throwing. */
  function Finish(result: ModResult, leftover: Option<SyntaxError>): Result<ModResult, ModifierFailure>
  {
    if leftover.Some? then Err(ParsingErrors(leftover.value)) else Ok(result)
  }

  /** The error for tokens left after a rule that consumed `next` of them. */
  function Leftover<T>(toks: seq<Token<T>>, next: nat): Option<SyntaxError>
  {
    if next < |toks| then Some(NotAllInputParsed(next)) else None
  }

  /** `content` with one pair of surrounding single quotes removed, when it has both. */
  function Unquote(content: string): (r: string)
  {
    if |content| > 0 && content[0] == '\'' && content[|content| - 1] == '\'' then
      (if |content| >= 2 then content[1..|content| - 1] else [])
    else content
  }

  // ----- rules up to their actions -----

  /** Color: exactly one colour token (word, RGB, HSA, RGBPercent, GRAYSCALE or HEX). */
  function ColorPlan(toks: seq<Token<ModToken>>): Plan<Token<ModToken>>
  {
    if |toks| > 0 && ColorKindOf(toks[0].kind).Some? then Act(toks[0], Leftover(toks, 1))
    else Refuse(ParsingErrors(NoViableAlternative(0)))
  }

  /** Flip: one Direction token, lower-cased. */
  function FlipPlan(toks: seq<Token<ModToken>>): Plan<string>
  {
    if |toks| > 0 && toks[0].kind == Direction then Act(LowerStr(toks[0].image), Leftover(toks, 1))
    else Refuse(ParsingErrors(MismatchedToken(0)))
  }

  /** Layer: one `\w+` word. */
  function LayerPlan(toks: seq<Token<ModToken>>): Plan<string>
  {
    if |toks| > 0 && toks[0].kind == WordRun then Act(toks[0].image, Leftover(toks, 1))
    else Refuse(ParsingErrors(MismatchedToken(0)))
  }

  /** The `key: value` pairs a Mirror or Fill rule read, where it stopped, and the error that stopped it. */
  datatype KeyValues = KeyValues(pairs: seq<(string, string)>, next: nat, error: Option<SyntaxError>)

  /**
   * The `param` rule at token `i`: Identifier, Colon, then a Number (its
   * text) or a string of kind `str` (without its quotes).
   */
  function Param(toks: seq<Token<ModToken>>, i: nat, str: ModToken): (r: Result<((string, string), nat), SyntaxError>)
    ensures r.Ok? ==> r.value.1 == i + 3 <= |toks|
  {
    if i < |toks| && toks[i].kind == Ident then
      if i + 1 < |toks| && toks[i + 1].kind == Colon then
        if i + 2 < |toks| && toks[i + 2].kind == Number then Ok(((toks[i].image, toks[i + 2].image), i + 3))
        else if i + 2 < |toks| && toks[i + 2].kind == str then Ok(((toks[i].image, Inner(toks[i + 2].image)), i + 3))
        else Err(NoViableAlternative(i + 2))
      else Err(MismatchedToken(i + 1))
    else Err(MismatchedToken(i))
  }

  /** The separator loop: while a comma follows, consume it and one more `param`. */
  function MoreParams(toks: seq<Token<ModToken>>, i: nat, str: ModToken, acc: seq<(string, string)>): (r: KeyValues)
    ensures |r.pairs| >= |acc| && r.pairs[..|acc|] == acc
    ensures r.error.None? ==> i <= r.next <= |toks| || (i > |toks| && r.next == i)
    decreases |toks| - i
  {
    if i < |toks| && toks[i].kind == Comma then
      match Param(toks, i + 1, str)
      case Ok((kv, j)) => MoreParams(toks, j, str, acc + [kv])
      case Err(e) => KeyValues(acc, i + 1, Some(e))
    else KeyValues(acc, i, None)
  }

  /**
   * `MANY_SEP` (or, with `atLeastOne`, `AT_LEAST_ONE_SEP`) of `param`
   * separated by commas: the first `param` is entered only when an
   * Identifier comes first.
   */
  function ParamList(toks: seq<Token<ModToken>>, str: ModToken, atLeastOne: bool): (r: KeyValues)
    ensures r.error.None? ==> r.next <= |toks|
  {
    if |toks| > 0 && toks[0].kind == Ident then
      match Param(toks, 0, str)
      case Ok((kv, j)) => MoreParams(toks, j, str, [kv])
      case Err(e) => KeyValues([], 0, Some(e))
    else if atLeastOne then KeyValues([], 0, Some(EarlyExit(0)))
    else KeyValues([], 0, None)
  }

  /** Mirror's accumulated `params`: `x` and `y` (null until given) and the axis. */
  datatype MirrorArgs = MirrorArgs(x: Option<Value>, y: Option<Value>, axis: Direction)

  const MirrorStart: MirrorArgs := MirrorArgs(None, None, Vertical)

  /**
   * Mirror's per-`param` statements applied in order: `x` and `y` are read
   * with `parseFloat`, `axis` must be `horizontal` or `vertical`, any other
   * key is ignored.
   */
  function MirrorFold(pairs: seq<(string, string)>, acc: MirrorArgs): Result<MirrorArgs, string>
  {
    if pairs == [] then Ok(acc)
    else
      match MirrorStep(pairs[0], acc)
      case Ok(a) => MirrorFold(pairs[1..], a)
      case Err(e) => Err(e)
  }

  /** One `param` statement of Mirror. */
  function MirrorStep(pair: (string, string), acc: MirrorArgs): Result<MirrorArgs, string>
  {
    var (key, value) := pair;
    if key == "x" then Ok(acc.(x := Some(ParseFloat(value))))
    else if key == "y" then Ok(acc.(y := Some(ParseFloat(value))))
    else if key == "axis" then
      if value == "horizontal" then Ok(acc.(axis := Horizontal))
      else if value == "vertical" then Ok(acc.(axis := Vertical))
      else Err(InvalidAxis)
    else Ok(acc)
  }

  /**
   * Mirror: at least one `param` (strings are letters only).  An invalid
   * axis throws at its `param`, which comes before any later syntax error.
   */
  function MirrorPlan(toks: seq<Token<ModToken>>): Plan<MirrorArgs>
  {
    var kv := ParamList(toks, LetterString, true);
    match MirrorFold(kv.pairs, MirrorStart)
    case Err(msg) => Refuse(Thrown(msg))
    case Ok(args) =>
      if kv.error.Some? then Refuse(ParsingErrors(kv.error.value)) else Act(args, Leftover(toks, kv.next))
  }

  /** The point Mirror reflects about: the given `x` and `y` when both are given, else the target's own `x`, `y`. */
  function MirrorOrigin(args: MirrorArgs, props: map<string, Value>): (o: Origin)
    requires "x" in props && "y" in props
  {
    if args.x.Some? && args.y.Some? then Origin(args.x.value, args.y.value) else Origin(props["x"], props["y"])
  }

  /** Fill's accumulated `params`, each null until given. */
  datatype FillArgs = FillArgs(color: Option<string>, opacity: Option<Value>, bleed: Option<Value>, bleedDir: Option<string>)

  const FillStart: FillArgs := FillArgs(None, None, None, None)

  /** Fill's `switch(key)` applied in order; the last value given for a key wins. */
  function FillFold(pairs: seq<(string, string)>, acc: FillArgs): FillArgs
  {
    if pairs == [] then acc
    else
      FillFold(pairs[1..], FillStep(pairs[0], acc))
  }

  /** One case of Fill's `switch(key)`. */
  function FillStep(pair: (string, string), acc: FillArgs): FillArgs
  {
    var (key, value) := pair;
    if key == "color" then acc.(color := Some(value))
    else if key == "opacity" then acc.(opacity := Some(ParseFloat(value)))
    else if key == "bleed" then acc.(bleed := Some(ParseFloat(value)))
    else if key == "bleedDir" then acc.(bleedDir := Some(value))
    else acc
  }

  /** Fill: zero or more `param`s (strings are anything but a double quote). */
  function FillPlan(toks: seq<Token<ModToken>>): Plan<FillArgs>
  {
    var kv := ParamList(toks, QuotedString, false);
    if kv.error.Some? then Refuse(ParsingErrors(kv.error.value))
    else Act(FillFold(kv.pairs, FillStart), Leftover(toks, kv.next))
  }

  /** `{ ...fill, ...fillProps }`: the supplied entries replace the old ones, the rest are kept. */
  function MergeFill(fill: FillSlot, args: FillArgs): (r: FillSlot)
  {
    FillSlot(if args.color.Some? then args.color else fill.color,
             args.opacity.GetOr(fill.opacity),
             args.bleed.GetOr(fill.bleed),
             args.bleedDir.GetOr(fill.bleedDir))
  }

  /** The token order of each modifier's lexer. */
  function OrderOf(m: ModifierKind): seq<ModToken>
  {
    match m
    case ColorModifier => ColorOrder
    case FlipModifier => FlipOrder
    case MirrorModifier => MirrorOrder
    case FillModifier => FillOrder
    case LayerModifier => LayerOrder
  }

  /** The tokens `parse(content)` hands to the rule. */
  function ModifierTokens(m: ModifierKind, content: string): seq<Token<ModToken>>
  {
    LexModifier(OrderOf(m), Unquote(content))
  }

  // ----- actions on the target -----

  /** `new Color(target).parse(...)` on the lexed tokens. */
  method ApplyColor(target: SceneObject, toks: seq<Token<ModToken>>) returns (r: Result<ModResult, ModifierFailure>)
    requires target.Valid()
    modifies target
    ensures target.Valid() && target.points == old(target.points) && target.Attributes() == old(target.Attributes())
    ensures match ColorPlan(toks)
      case Refuse(f) => r == Err(f) && target.props == old(target.props)
      case Act(tok, leftover) =>
        if HasColorField(target.kind) then
          target.props == old(target.props)["color" := ColorTok(ColorKindOf(tok.kind).value, tok.image)]
          && r == Finish(ColorStatement(tok), leftover)
        else r == Err(Thrown(ColorMissing)) && target.props == old(target.props)
  {
    match ColorPlan(toks)
    case Refuse(f) =>
      r := Err(f);
    case Act(tok, leftover) =>
      if "color" in target.props {
        target.props := target.props["color" := ColorTok(ColorKindOf(tok.kind).value, tok.image)];
        r := Finish(ColorStatement(tok), leftover);
      } else {
        r := Err(Thrown(ColorMissing));
      }
  }

  /** `new Flip(target).parse(...)`: the target's `flip` with the lower-cased direction. */
  method ApplyFlip(target: SceneObject, toks: seq<Token<ModToken>>) returns (r: Result<ModResult, ModifierFailure>)
    requires target.Valid()
    modifies target
    ensures target.Valid() && target.Attributes() == old(target.Attributes())
    ensures match FlipPlan(toks)
      case Refuse(f) => r == Err(f) && target.props == old(target.props) && target.points == old(target.points)
      case Act(d, leftover) =>
        if d == "horizontal" || d == "vertical" then
          var dir := if d == "horizontal" then Horizontal else Vertical;
          HasCoordinates(target.kind, old(target.props))
          && target.props == FlipProps(target.kind, old(target.props), dir)
          && target.points == FlipPoints(target.kind, old(target.points), dir)
          && r == Finish(FlipStatement(d), leftover)
        else r == Err(Thrown(InvalidDirection)) && target.props == old(target.props) && target.points == old(target.points)
  {
    match FlipPlan(toks)
    case Refuse(f) =>
      r := Err(f);
    case Act(d, leftover) =>
      if d == "horizontal" || d == "vertical" {
        target.Flip(if d == "horizontal" then Horizontal else Vertical);
        r := Finish(FlipStatement(d), leftover);
      } else {
        r := Err(Thrown(InvalidDirection));
      }
  }

  /** `new Layer(target).parse(...)`: `layer := {name: word}`. */
  method ApplyLayer(target: SceneObject, toks: seq<Token<ModToken>>) returns (r: Result<ModResult, ModifierFailure>)
    requires target.Valid()
    modifies target
    ensures target.Valid() && target.props == old(target.props) && target.points == old(target.points)
    ensures match LayerPlan(toks)
      case Refuse(f) => r == Err(f) && target.Attributes() == old(target.Attributes())
      case Act(word, leftover) =>
        target.Attributes() == old(target.Attributes()).(layer := Some(LayerRef(word)))
        && r == Finish(LayerStatement(LayerRef(word)), leftover)
  {
    match LayerPlan(toks)
    case Refuse(f) =>
      r := Err(f);
    case Act(word, leftover) =>
      target.layer := Some(LayerRef(word));
      r := Finish(LayerStatement(LayerRef(word)), leftover);
  }

  /**
   * `new Mirror(target).parse(...)`: the target's `mirroredObject` becomes
   * a reflected clone, marked not cloneable.
   */
  method ApplyMirror(target: SceneObject, toks: seq<Token<ModToken>>) returns (r: Result<ModResult, ModifierFailure>)
    requires target.Valid()
    modifies target`mirroredObject
    ensures target.Valid() && target.props == old(target.props) && target.points == old(target.points)
    ensures match MirrorPlan(toks)
      case Refuse(f) => r == Err(f) && target.Attributes() == old(target.Attributes())
      case Act(args, leftover) =>
        var m := target.mirroredObject;
        target.Attributes() == old(target.Attributes()).(mirroredObject := m)
        && m != null && fresh(m) && m.Valid() && m.kind == target.kind
        && HasCoordinates(target.kind, target.props)
        && m.props == ReflectProps(target.kind, target.props, MirrorOrigin(args, target.props), args.axis)
        && m.points == ReflectPoints(target.kind, target.points, MirrorOrigin(args, target.props), args.axis)
        && m.Attributes() == old(target.Attributes()).(isCloneable := false)
        && r == Finish(NoResult, leftover)
  {
    r := CarryOutMirror(target, MirrorPlan(toks));
  }

  /** What Mirror does once its `param`s are parsed. */
  method CarryOutMirror(target: SceneObject, plan: Plan<MirrorArgs>) returns (r: Result<ModResult, ModifierFailure>)
    requires target.Valid()
    modifies target`mirroredObject
    ensures target.Valid() && target.props == old(target.props) && target.points == old(target.points)
    ensures match plan
      case Refuse(f) => r == Err(f) && target.Attributes() == old(target.Attributes())
      case Act(args, leftover) =>
        var m := target.mirroredObject;
        target.Attributes() == old(target.Attributes()).(mirroredObject := m)
        && m != null && fresh(m) && m.Valid() && m.kind == target.kind
        && HasCoordinates(target.kind, target.props)
        && m.props == ReflectProps(target.kind, target.props, MirrorOrigin(args, target.props), args.axis)
        && m.points == ReflectPoints(target.kind, target.points, MirrorOrigin(args, target.props), args.axis)
        && m.Attributes() == old(target.Attributes()).(isCloneable := false)
        && r == Finish(NoResult, leftover)
  {
    match plan
    case Refuse(f) =>
      r := Err(f);
    case Act(args, leftover) =>
      AttachReflection(target, MirrorOrigin(args, target.props), args.axis);
      r := Finish(NoResult, leftover);
  }

  /** Mirror's action: a reflected clone, not cloneable, becomes the target's `mirroredObject`. */
  method AttachReflection(target: SceneObject, o: Origin, axis: Direction)
    requires target.Valid()
    modifies target`mirroredObject
    ensures target.Valid()
    ensures var m := target.mirroredObject;
      target.Attributes() == old(target.Attributes()).(mirroredObject := m)
      && m != null && fresh(m) && m.Valid() && m.kind == target.kind
      && HasCoordinates(target.kind, target.props)
      && m.props == ReflectProps(target.kind, target.props, o, axis)
      && m.points == ReflectPoints(target.kind, target.points, o, axis)
      && m.Attributes() == old(target.Attributes()).(isCloneable := false)
  {
    var clone := target.CloneAndReflect(o, axis);
    clone.isCloneable := false;
    target.mirroredObject := clone;
  }

  /** `new Fill(target).parse(...)`: the supplied entries replace those of a non-null `fill`. */
  method ApplyFill(target: SceneObject, toks: seq<Token<ModToken>>) returns (r: Result<ModResult, ModifierFailure>)
    requires target.Valid()
    modifies target
    ensures target.Valid() && target.props == old(target.props) && target.points == old(target.points)
    ensures match FillPlan(toks)
      case Refuse(f) => r == Err(f) && target.Attributes() == old(target.Attributes())
      case Act(args, leftover) =>
        if old(target.fill).Some? then
          target.Attributes() == old(target.Attributes()).(fill := Some(MergeFill(old(target.fill).value, args)))
          && r == Finish(NoResult, leftover)
        else r == Err(Thrown(FillUnsupported(KindName(target.kind)))) && target.Attributes() == old(target.Attributes())
  {
    match FillPlan(toks)
    case Refuse(f) =>
      r := Err(f);
    case Act(args, leftover) =>
      if target.fill.Some? {
        target.fill := Some(MergeFill(target.fill.value, args));
        r := Finish(NoResult, leftover);
      } else {
        r := Err(Thrown(FillUnsupported(KindName(target.kind))));
      }
  }

  /**
   * What running modifier `m` on `toks` did to `target`, whose state before
   * was `b`: the outcome `r` and the target's data fields, points and
   * attributes now, as each modifier's rule and action say.
   */
  predicate ModifierEffect(m: ModifierKind, target: SceneObject, toks: seq<Token<ModToken>>, r: Result<ModResult, ModifierFailure>, b: Snapshot)
    reads target, target.mirroredObject
  {
    match m
    case ColorModifier =>
      && target.points == b.points && target.Attributes() == b.attrs
      && (match ColorPlan(toks)
         case Refuse(f) => r == Err(f) && target.props == b.props
         case Act(tok, leftover) =>
           if HasColorField(target.kind) then
             target.props == b.props["color" := ColorTok(ColorKindOf(tok.kind).value, tok.image)]
             && r == Finish(ColorStatement(tok), leftover)
           else r == Err(Thrown(ColorMissing)) && target.props == b.props)
    case FlipModifier =>
      && target.Attributes() == b.attrs
      && (match FlipPlan(toks)
         case Refuse(f) => r == Err(f) && target.props == b.props && target.points == b.points
         case Act(d, leftover) =>
           if d == "horizontal" || d == "vertical" then
             var dir := if d == "horizontal" then Horizontal else Vertical;
             HasCoordinates(target.kind, b.props)
             && target.props == FlipProps(target.kind, b.props, dir)
             && target.points == FlipPoints(target.kind, b.points, dir)
             && r == Finish(FlipStatement(d), leftover)
           else r == Err(Thrown(InvalidDirection)) && target.props == b.props && target.points == b.points)
    case LayerModifier =>
      && target.props == b.props && target.points == b.points
      && (match LayerPlan(toks)
         case Refuse(f) => r == Err(f) && target.Attributes() == b.attrs
         case Act(word, leftover) =>
           target.Attributes() == b.attrs.(layer := Some(LayerRef(word)))
           && r == Finish(LayerStatement(LayerRef(word)), leftover))
    case MirrorModifier =>
      && target.props == b.props && target.points == b.points
      && (match MirrorPlan(toks)
         case Refuse(f) => r == Err(f) && target.Attributes() == b.attrs
         case Act(args, leftover) =>
           var c := target.mirroredObject;
           target.Attributes() == b.attrs.(mirroredObject := c)
           && c != null && c.Valid() && c.kind == target.kind
           && HasCoordinates(target.kind, target.props)
           && c.props == ReflectProps(target.kind, target.props, MirrorOrigin(args, target.props), args.axis)
           && c.points == ReflectPoints(target.kind, target.points, MirrorOrigin(args, target.props), args.axis)
           && c.Attributes() == b.attrs.(isCloneable := false)
           && r == Finish(NoResult, leftover))
    case FillModifier =>
      && target.props == b.props && target.points == b.points
      && (match FillPlan(toks)
         case Refuse(f) => r == Err(f) && target.Attributes() == b.attrs
         case Act(args, leftover) =>
           if b.attrs.fill.Some? then
             target.Attributes() == b.attrs.(fill := Some(MergeFill(b.attrs.fill.value, args)))
             && r == Finish(NoResult, leftover)
           else r == Err(Thrown(FillUnsupported(KindName(target.kind)))) && target.Attributes() == b.attrs)
  }

  /** `new M(target).parse(content)` for the registered modifier `m`. */
  method ApplyModifier(m: ModifierKind, target: SceneObject, content: string) returns (r: Result<ModResult, ModifierFailure>)
    requires target.Valid()
    modifies target
    ensures target.Valid() && target.name == old(target.name) && target.parent == old(target.parent)
    ensures target.isCloneable == old(target.isCloneable)
    ensures m != MirrorModifier ==> target.mirroredObject == old(target.mirroredObject)
    ensures target.mirroredObject != old(target.mirroredObject) ==>
      var c := target.mirroredObject;
      c != null && fresh(c) && c.Valid() && c.kind == target.kind && c.mirroredObject == old(target.mirroredObject)
      && !c.isCloneable
    ensures ModifierEffect(m, target, ModifierTokens(m, content), r, old(target.Snap()))
  {
    var toks := ModifierTokens(m, content);
    match m
    case ColorModifier => r := ApplyColor(target, toks);
    case FlipModifier => r := ApplyFlip(target, toks);
    case LayerModifier => r := ApplyLayer(target, toks);
    case MirrorModifier => r := ApplyMirror(target, toks);
    case FillModifier => r := ApplyFill(target, toks);
  }

  // ----- what the rules promise -----

  /** `parse` strips exactly one pair of surrounding quotes, and leaves text without a leading quote alone. */
  lemma UnquoteSpec(s: string)
    ensures Unquote("'" + s + "'") == s
    ensures (|s| == 0 || s[0] != '\'') ==> Unquote(s) == s
  {
    var q := "'" + s + "'";
    assert q[1..|q| - 1] == s;
  }

  /** Color takes exactly one colour token: it reaches its action cleanly iff there is one token and it is a colour. */
  lemma ColorTakesOneToken(toks: seq<Token<ModToken>>)
    ensures ColorPlan(toks).Act? <==> |toks| > 0 && ColorKindOf(toks[0].kind).Some?
    ensures (ColorPlan(toks).Act? && ColorPlan(toks).leftover.None?) <==> |toks| == 1 && ColorKindOf(toks[0].kind).Some?
  {
  }

  /** `Color('red!')` still sets the colour to the word `red`: the lexer drops the `!` and the rule sees one token. */
  lemma ColorIgnoresStrayCharacter()
    ensures ModifierTokens(ColorModifier, "red!") == [Token(ColorWord, "red", 0)]
    ensures ColorPlan(ModifierTokens(ColorModifier, "red!")) == Act(Token(ColorWord, "red", 0), None)
  {
    RedBangTokens("red!");
  }

  /** `Color('blue')`: the content between the parentheses lexes as the one colour word `blue`. */
  lemma ColorBlue(c: string)
    requires c == "'blue'"
    ensures ColorPlan(ModifierTokens(ColorModifier, Inner(c))) == Act(Token(ColorWord, "blue", 0), None)
  {
    var t := Inner(c);
    assert t == "blue";
    assert Unquote(t) == t;
    RunToEnd(t, 0, IsLetter);
    assert ModPatternLength(ColorWord, t, 0) == 4;
    OneTokenToEnd(ColorOrder, ModPatternLength, Skipped, t, ColorWord);
  }

  /** `Layer('myLayer')`: the content lexes as the one word `myLayer`. */
  lemma LayerMyLayer(c: string)
    requires c == "'myLayer'"
    ensures LayerPlan(ModifierTokens(LayerModifier, Inner(c))) == Act("myLayer", None)
  {
    var t := Inner(c);
    assert t == "myLayer";
    assert Unquote(t) == t;
    RunToEnd(t, 0, IsWordChar);
    assert ModPatternLength(WordRun, t, 0) == 7;
    OneTokenToEnd(LayerOrder, ModPatternLength, Skipped, t, WordRun);
  }

  /** `SET Color('blue')` on a type with a `color` field replaces `color` with the word `blue`. */
  lemma ColorBlueEffect(target: SceneObject, r: Result<ModResult, ModifierFailure>, b: Snapshot)
    requires HasColorField(target.kind)
    requires ModifierEffect(ColorModifier, target, ModifierTokens(ColorModifier, Inner("'blue'")), r, b)
    ensures target.props == b.props["color" := ColorTok(Values.Word, "blue")]
    ensures target.points == b.points && target.Attributes() == b.attrs
    ensures r == Ok(ColorStatement(Token(ColorWord, "blue", 0)))
  {
    ColorBlue("'blue'");
  }

  /** `SET Layer('myLayer')` names the target's layer `myLayer` and changes nothing else. */
  lemma LayerMyLayerEffect(target: SceneObject, r: Result<ModResult, ModifierFailure>, b: Snapshot)
    requires ModifierEffect(LayerModifier, target, ModifierTokens(LayerModifier, Inner("'myLayer'")), r, b)
    ensures target.layer == Some(LayerRef("myLayer"))
    ensures target.props == b.props && target.points == b.points && target.Attributes() == b.attrs.(layer := Some(LayerRef("myLayer")))
    ensures r == Ok(LayerStatement(LayerRef("myLayer")))
  {
    LayerMyLayer("'myLayer'");
  }

  lemma RedBangTokens(t: string)
    requires t == "red!"
    ensures ModifierTokens(ColorModifier, t) == [Token(ColorWord, "red", 0)]
  {
    assert Unquote(t) == t;
    RedMatches(t);
    BangIsDropped(t);
    assert t[0..3] == "red";
  }

  lemma RedMatches(t: string)
    requires t == "red!"
    ensures FirstMatch(ColorOrder, ModPatternLength, t, 0) == Some((ColorWord, 3))
  {
    assert Run(t, 3, IsLetter) == 0;
    assert Run(t, 0, IsLetter) == 3;
    assert ModPatternLength(ColorWord, t, 0) == 3;
  }

  lemma BangIsDropped(t: string)
    requires t == "red!"
    ensures Scan(ColorOrder, ModPatternLength, Skipped, t, 3) == Lexed([], [LexError(3, 1)])
  {
    ColorNoMatchAt(t, 3);
    assert Resync(ColorOrder, ModPatternLength, t, 4) == 4;
  }

  /** A Direction token's text, lower-cased, is exactly `horizontal` or `vertical`, so Flip's own error is never thrown. */
  lemma DirectionTokenText(t: string, tok: Token<ModToken>)
    requires TokenAt(FlipOrder, ModPatternLength, t, tok) && tok.kind == Direction
    ensures LowerStr(tok.image) == "horizontal" || LowerStr(tok.image) == "vertical"
  {
    var n := |tok.image|;
    var i := tok.offset;
    assert n == Bounded(ModPatternLength, Direction, t, i);
    var h := LiteralIgnoreCase(t, i, "horizontal");
    var v := LiteralIgnoreCase(t, i, "vertical");
    assert n == (if h > 0 then h else v);
    LowerStrOfLower("horizontal");
    LowerStrOfLower("vertical");
    if h > 0 {
      assert EqualsIgnoreCase(tok.image, "horizontal");
    } else {
      assert EqualsIgnoreCase(tok.image, "vertical");
    }
  }

  /** Every Flip rule that reaches its action on lexed text calls `flip`. */
  lemma FlipNeverInvalid(content: string)
    ensures var p := FlipPlan(ModifierTokens(FlipModifier, content));
      p.Act? ==> p.arg == "horizontal" || p.arg == "vertical"
  {
    var toks := ModifierTokens(FlipModifier, content);
    if |toks| > 0 && toks[0].kind == Direction {
      DirectionTokenText(Unquote(content), toks[0]);
    }
  }

  /** Mirror needs at least one `param`: no tokens is an early-exit error, and the target is left alone. */
  lemma MirrorNeedsAParam()
    ensures MirrorPlan([]) == Refuse(ParsingErrors(EarlyExit(0)))
  {
  }

  /** Fill with no parameters keeps the fill as it was. */
  lemma FillWithoutParams(fill: FillSlot)
    ensures FillPlan([]) == Act(FillStart, None)
    ensures MergeFill(fill, FillStart) == fill
  {
  }

  /** The axis is vertical unless an `axis` pair says otherwise, and pairs with other keys change nothing. */
  lemma {:induction false} MirrorAxisDefault(pairs: seq<(string, string)>, acc: MirrorArgs)
    requires forall i :: 0 <= i < |pairs| ==> pairs[i].0 != "axis"
    ensures MirrorFold(pairs, acc).Ok? && MirrorFold(pairs, acc).value.axis == acc.axis
    decreases |pairs|
  {
    if pairs != [] {
      var a := MirrorStep(pairs[0], acc);
      assert a.Ok? && a.value.axis == acc.axis;
      MirrorAxisDefault(pairs[1..], a.value);
    }
  }

  /** An `axis` pair whose value is neither direction makes Mirror throw, whatever else is given. */
  lemma {:induction false} MirrorBadAxisThrows(pairs: seq<(string, string)>, acc: MirrorArgs, i: nat)
    requires i < |pairs| && pairs[i].0 == "axis" && pairs[i].1 != "horizontal" && pairs[i].1 != "vertical"
    ensures MirrorFold(pairs, acc) == Err(InvalidAxis)
    decreases i
  {
    var a := MirrorStep(pairs[0], acc);
    if i > 0 && a.Ok? {
      assert pairs[1..][i - 1] == pairs[i];
      MirrorBadAxisThrows(pairs[1..], a.value, i - 1);
    }
  }

  /**
   * The origin is the explicit one exactly when both `x` and `y` were
   * given; otherwise it is the target's own position, even when one of
   * them was given.
   */
  lemma MirrorOriginChoice(args: MirrorArgs, props: map<string, Value>)
    requires "x" in props && "y" in props
    ensures MirrorOrigin(args, props) == Origin(args.x.value, args.y.value) <== args.x.Some? && args.y.Some?
    ensures !(args.x.Some? && args.y.Some?) ==> MirrorOrigin(args, props) == Origin(props["x"], props["y"])
  {
  }

  /** Whether some pair has key `k`. */
  predicate HasKey(pairs: seq<(string, string)>, k: string)
  {
    exists i :: 0 <= i < |pairs| && pairs[i].0 == k
  }

  /** The fill entry for a key is the last value supplied for it, or the old value when none is. */
  lemma FillFoldLastWins(pairs: seq<(string, string)>, acc: FillArgs)
    ensures var r := FillFold(pairs, acc);
      (r.color == if HasKey(pairs, "color") then Some(pairs[LastKey(pairs, "color")].1) else acc.color)
      && (r.bleedDir == if HasKey(pairs, "bleedDir") then Some(pairs[LastKey(pairs, "bleedDir")].1) else acc.bleedDir)
      && (r.opacity == if HasKey(pairs, "opacity") then Some(ParseFloat(pairs[LastKey(pairs, "opacity")].1)) else acc.opacity)
      && (r.bleed == if HasKey(pairs, "bleed") then Some(ParseFloat(pairs[LastKey(pairs, "bleed")].1)) else acc.bleed)
  {
    FillColorLastWins(pairs, acc);
    FillBleedDirLastWins(pairs, acc);
    FillOpacityLastWins(pairs, acc);
    FillBleedLastWins(pairs, acc);
  }

  lemma {:induction false} FillColorLastWins(pairs: seq<(string, string)>, acc: FillArgs)
    ensures FillFold(pairs, acc).color == if HasKey(pairs, "color") then Some(pairs[LastKey(pairs, "color")].1) else acc.color
    decreases |pairs|
  {
    if pairs != [] {
      FillColorLastWins(pairs[1..], FillStep(pairs[0], acc));
      LastKeyOfCons(pairs, "color");
    }
  }

  lemma {:induction false} FillBleedDirLastWins(pairs: seq<(string, string)>, acc: FillArgs)
    ensures FillFold(pairs, acc).bleedDir == if HasKey(pairs, "bleedDir") then Some(pairs[LastKey(pairs, "bleedDir")].1) else acc.bleedDir
    decreases |pairs|
  {
    if pairs != [] {
      FillBleedDirLastWins(pairs[1..], FillStep(pairs[0], acc));
      LastKeyOfCons(pairs, "bleedDir");
    }
  }

  lemma {:induction false} FillOpacityLastWins(pairs: seq<(string, string)>, acc: FillArgs)
    ensures FillFold(pairs, acc).opacity
         == if HasKey(pairs, "opacity") then Some(ParseFloat(pairs[LastKey(pairs, "opacity")].1)) else acc.opacity
    decreases |pairs|
  {
    if pairs != [] {
      FillOpacityLastWins(pairs[1..], FillStep(pairs[0], acc));
      LastKeyOfCons(pairs, "opacity");
    }
  }

  lemma {:induction false} FillBleedLastWins(pairs: seq<(string, string)>, acc: FillArgs)
    ensures FillFold(pairs, acc).bleed
         == if HasKey(pairs, "bleed") then Some(ParseFloat(pairs[LastKey(pairs, "bleed")].1)) else acc.bleed
    decreases |pairs|
  {
    if pairs != [] {
      FillBleedLastWins(pairs[1..], FillStep(pairs[0], acc));
      LastKeyOfCons(pairs, "bleed");
    }
  }

  /** The index of the last pair with key `k`, when there is one. */
  function LastKey(pairs: seq<(string, string)>, k: string): (i: nat)
    requires HasKey(pairs, k)
    ensures i < |pairs| && pairs[i].0 == k
    ensures forall j :: i < j < |pairs| ==> pairs[j].0 != k
  {
    if pairs[|pairs| - 1].0 == k then |pairs| - 1
    else
      var front := pairs[..|pairs| - 1];
      assert HasKey(front, k) by {
        var i :| 0 <= i < |pairs| && pairs[i].0 == k;
        assert i < |pairs| - 1 && front[i] == pairs[i];
      }
      LastKey(front, k)
  }

  /** The last pair with key `k` is found in the tail when the tail has one, and is the head otherwise. */
  lemma LastKeyOfCons(pairs: seq<(string, string)>, k: string)
    requires |pairs| > 0
    ensures HasKey(pairs, k) <==> pairs[0].0 == k || HasKey(pairs[1..], k)
    ensures HasKey(pairs[1..], k) ==> pairs[LastKey(pairs, k)] == pairs[1..][LastKey(pairs[1..], k)]
    ensures pairs[0].0 == k && !HasKey(pairs[1..], k) ==> LastKey(pairs, k) == 0
  {
    if HasKey(pairs, k) {
      var i :| 0 <= i < |pairs| && pairs[i].0 == k;
      if i > 0 { assert pairs[1..][i - 1] == pairs[i]; }
    }
    if pairs[0].0 == k { assert HasKey(pairs, k); }
    if HasKey(pairs[1..], k) {
      var j :| 0 <= j < |pairs[1..]| && pairs[1..][j].0 == k;
      assert pairs[j + 1] == pairs[1..][j];
      var a := LastKey(pairs, k);
      var b := LastKey(pairs[1..], k);
      assert pairs[b + 1] == pairs[1..][b];
      assert a >= b + 1;
      assert pairs[1..][a - 1] == pairs[a];
      assert a - 1 <= b;
    }
  }

  /** Fill changes exactly the entries it was given: each entry is the supplied one, or the old one when none was supplied. */
  lemma MergeFillKeeps(fill: FillSlot, args: FillArgs)
    ensures var r := MergeFill(fill, args);
      (args.color.None? ==> r.color == fill.color) && (args.color.Some? ==> r.color == args.color)
      && (args.opacity.None? ==> r.opacity == fill.opacity) && (args.opacity.Some? ==> r.opacity == args.opacity.value)
      && (args.bleed.None? ==> r.bleed == fill.bleed) && (args.bleed.Some? ==> r.bleed == args.bleed.value)
      && (args.bleedDir.None? ==> r.bleedDir == fill.bleedDir) && (args.bleedDir.Some? ==> r.bleedDir == args.bleedDir.value)
  {
  }

  /** A well-formed parameter list that stops before the end leaves tokens over, which is reported after the action. */
  lemma ParamListLeftover(toks: seq<Token<ModToken>>, str: ModToken, atLeastOne: bool)
    ensures var kv := ParamList(toks, str, atLeastOne);
      kv.error.None? ==> (Leftover(toks, kv.next).None? <==> kv.next == |toks|)
  {
  }
}
