/**
 * `interpret(inputText, mode)` (src/services/instructions/interpreter.ts):
 * one shared parser is reset, given the mode and the lexer's tokens, and
 * run over the whole program; what it returns or throws depends on the
 * mode.
 */
module Interpretation {
  import opened Wrappers
  import opened Lexing
  import opened SceneLexer
  import opened Modifiers
  import opened Binder
  import opened Interpreter

  /**
   * What `interpret` makes of a finished parse: the parse stopped with
   * `halt`, the lexer reported `lexErrors`, the parser holds `objects`
   * and `errors`.
   */
  function Outcome(m: Mode, lexErrors: seq<LexError>, halt: Option<Halt>, objects: seq<Entry>,
                   errors: seq<SemanticError>): (r: Result<Interpreted, Failure>)
    ensures r.Ok? <==> (halt.None? || halt.value.Syntax?) && (m == Execute ==> lexErrors == [] && halt.None?)
    ensures r.Ok? ==> r.value.objects == objects && r.value.lexErrors == lexErrors && r.value.semanticErrors == errors
    ensures r.Ok? ==> r.value.parseErrors == (if halt.None? then [] else [halt.value.error])
    ensures halt.Some? && halt.value.Threw? ==> r == Err(Raised(halt.value.message))
    ensures halt.Some? && halt.value.JsonThrow? ==> r == Err(JsonFailure(halt.value.image))
    ensures m == Execute && lexErrors != [] && (halt.None? || halt.value.Syntax?) ==> r == Err(LexFailure(lexErrors[0]))
    ensures m == Execute && lexErrors == [] && halt.Some? && halt.value.Syntax? ==> r == Err(ParseFailure(halt.value.error))
  {
    if halt.Some? && halt.value.Threw? then Err(Raised(halt.value.message))
    else if halt.Some? && halt.value.JsonThrow? then Err(JsonFailure(halt.value.image))
    else if m == Execute && lexErrors != [] then Err(LexFailure(lexErrors[0]))
    else if m == Execute && halt.Some? then Err(ParseFailure(halt.value.error))
    else Ok(Interpreted(objects, lexErrors, if halt.None? then [] else [halt.value.error], errors))
  }

  /**
   * `interpret`: every call starts from an empty parser, so the result
   * depends on the text and the mode alone.  The parse follows the
   * grammar (lint mode stops exactly where the grammar does), and
   * `Outcome` decides what is returned or thrown.
   */
  method Interpret(parser: ObjectParser, inputText: string, m: Mode) returns (r: Result<Interpreted, Failure>, ghost halt: Option<Halt>)
    modifies parser
    ensures parser.tokens == LexScene(inputText).tokens && parser.mode == m
    ensures Ends(m, Grammar(parser.tokens), halt) && (m == Lint ==> halt == Grammar(parser.tokens))
    ensures r == Outcome(m, LexScene(inputText).errors, halt, parser.objects, parser.semanticErrors)
    ensures r.Ok? ==> DistinctNames(r.value.objects)
    ensures m == Execute && r.Ok? ==> r.value.semanticErrors == []
  {
    var lexResult := LexScene(inputText);
    LexedIdentifiersAreWords(inputText);
    parser.Reset(m, lexResult.tokens);
    var h := parser.ObjectStatement();
    halt := h;
    if h.Some? && h.value.Threw? {
      r := Err(Raised(h.value.message));
    } else if h.Some? && h.value.JsonThrow? {
      r := Err(JsonFailure(h.value.image));
    } else if m == Execute && lexResult.errors != [] {
      r := Err(LexFailure(lexResult.errors[0]));
    } else if m == Execute && h.Some? {
      r := Err(ParseFailure(h.value.error));
    } else if h.Some? {
      r := Ok(Interpreted(parser.objects, lexResult.errors, [h.value.error], parser.semanticErrors));
    } else {
      r := Ok(Interpreted(parser.objects, lexResult.errors, [], parser.semanticErrors));
    }
  }

  /** Lint mode throws only when `JSON.parse` does, and reports at most the first parse error. */
  lemma LintReports(lexErrors: seq<LexError>, halt: Option<Halt>, objects: seq<Entry>, errors: seq<SemanticError>)
    requires halt.None? || !halt.value.Threw?
    ensures var r := Outcome(Lint, lexErrors, halt, objects, errors);
      && (r.Err? <==> halt.Some? && halt.value.JsonThrow?)
      && (r.Ok? ==> |r.value.parseErrors| <= 1)
  {
  }

  /** A program whose only flaw is a final trailing comma parses to the end. */
  lemma TrailingCommaLast(toks: seq<Tok>, k: nat)
    requires TrailingCommaAt(toks, k) && k + 1 == |toks|
    ensures Grammar(toks).None?
  {
  }
}
