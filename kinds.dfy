/**
 * The nine scene object types and five modifiers the interpreter knows
 * (src/services/instructions/base-variables.ts), with the per-type facts
 * the interpreter, the modifiers and the autocomplete engine read off the
 * classes under src/services/classes/vectors/: constructor name, static
 * descriptions, own fields in declaration order, the parameter whitelist,
 * field defaults, fill support, unsupported modifiers and the Spline's
 * variadic point groups.
 */
module Kinds {
  import opened Wrappers
  import opened Chars
  import opened Values

  datatype Kind = Rectangle | Line | LayerObject | Custom | Brush | Field | Spline | Circle | Triangle

  datatype ModifierKind = LayerModifier | ColorModifier | FlipModifier | MirrorModifier | FillModifier

  /** Registry order of `vectorObjects`. */
  const ObjectKinds: seq<Kind> := [Rectangle, Line, LayerObject, Custom, Brush, Field, Spline, Circle, Triangle]

  /** Registry order of `modifers`. */
  const ModifierKinds: seq<ModifierKind> := [LayerModifier, ColorModifier, FlipModifier, MirrorModifier, FillModifier]

  /** The registry key, which is also the class's `constructor.name`. */
  function KindName(k: Kind): string
  {
    match k
    case Rectangle => "Rectangle"
    case Line => "Line"
    case LayerObject => "Layer"
    case Custom => "Custom"
    case Brush => "Brush"
    case Field => "Field"
    case Spline => "Spline"
    case Circle => "Circle"
    case Triangle => "Triangle"
  }

  function ModifierName(m: ModifierKind): string
  {
    match m
    case LayerModifier => "Layer"
    case ColorModifier => "Color"
    case FlipModifier => "Flip"
    case MirrorModifier => "Mirror"
    case FillModifier => "Fill"
  }

  function ObjectKeys(): (r: seq<string>)
    ensures |r| == |ObjectKinds| && forall i :: 0 <= i < |r| ==> r[i] == KindName(ObjectKinds[i])
  {
    seq(|ObjectKinds|, i requires 0 <= i < |ObjectKinds| => KindName(ObjectKinds[i]))
  }

  function ModifierKeys(): (r: seq<string>)
    ensures |r| == |ModifierKinds| && forall i :: 0 <= i < |r| ==> r[i] == ModifierName(ModifierKinds[i])
  {
    seq(|ModifierKinds|, i requires 0 <= i < |ModifierKinds| => ModifierName(ModifierKinds[i]))
  }

  /** The first entry of `kinds` whose name matches `name` ignoring case. */
  function FindFirst<K>(kinds: seq<K>, nameOf: K -> string, name: string): (r: Option<K>)
    ensures r.Some? ==> r.value in kinds && EqualsIgnoreCase(nameOf(r.value), name)
    ensures r.None? ==> forall k :: k in kinds ==> !EqualsIgnoreCase(nameOf(k), name)
  {
    if kinds == [] then None
    else if EqualsIgnoreCase(nameOf(kinds[0]), name) then Some(kinds[0])
    else FindFirst(kinds[1..], nameOf, name)
  }

  /** `Object.keys(vectorObjects).find(k => k.toLowerCase() === name.toLowerCase())`. */
  function LookupObjectKind(name: string): Option<Kind>
  {
    FindFirst(ObjectKinds, KindName, name)
  }

  /** The same search over `modifers`. */
  function LookupModifier(name: string): Option<ModifierKind>
  {
    FindFirst(ModifierKinds, ModifierName, name)
  }

  /** Object type names are found ignoring case, and only the nine registered names are. */
  lemma LookupObjectKindSpec(name: string, k: Kind)
    ensures LookupObjectKind(name) == Some(k) <==> EqualsIgnoreCase(KindName(k), name)
  {
    if EqualsIgnoreCase(KindName(k), name) {
      var r := LookupObjectKind(name);
      assert r.Some? by { assert k in ObjectKinds; }
      KindNamesDistinct(r.value, k);
    }
  }

  /** Modifier names are found ignoring case, and only the five registered names are. */
  lemma LookupModifierSpec(name: string, m: ModifierKind)
    ensures LookupModifier(name) == Some(m) <==> EqualsIgnoreCase(ModifierName(m), name)
  {
    if EqualsIgnoreCase(ModifierName(m), name) {
      var r := LookupModifier(name);
      assert r.Some? by { assert m in ModifierKinds; }
      ModifierNamesDistinct(r.value, m);
    }
  }

  lemma KindNamesDistinct(a: Kind, b: Kind)
    requires LowerStr(KindName(a)) == LowerStr(KindName(b))
    ensures a == b
  {
    var la, lb := LowerStr(KindName(a)), LowerStr(KindName(b));
    assert la[0] == lb[0] && |la| == |lb|;
    if |la| > 1 { assert la[1] == lb[1]; }
  }

  lemma ModifierNamesDistinct(a: ModifierKind, b: ModifierKind)
    requires LowerStr(ModifierName(a)) == LowerStr(ModifierName(b))
    ensures a == b
  {
    var la, lb := LowerStr(ModifierName(a)), LowerStr(ModifierName(b));
    assert la[0] == lb[0] && |la| == |lb|;
    if |la| > 1 { assert la[1] == lb[1]; }
  }

  /** `static description` of each object class (inherited from VectorObject where a class has none). */
  function KindDescription(k: Kind): string
  {
    match k
    case Rectangle => "Draws a rectangle on the canvas."
    case Circle => "Draws a circle on the canvas."
    case Triangle => "Draws a triangle on the canvas."
    case Spline => "Draws a curved line through a series of two or more points."
    case _ => "This is the base class for all vector objects."
  }

  /** `static parameter_descriptions` of each object class, inherited where a class has none. */
  function ParamDescriptions(k: Kind): map<string, string>
  {
    match k
    case Rectangle => map[
      "x" := "The x-coordinate of the rectangle's top-left corner.",
      "y" := "The y-coordinate of the rectangle's top-left corner.",
      "width" := "The width of the rectangle.",
      "height" := "The height of the rectangle.",
      "color" := "The stroke color of the rectangle."]
    case Circle => map[
      "x" := "The x-coordinate of the circle's center.",
      "y" := "The y-coordinate of the circle's center.",
      "radius" := "The radius of the circle.",
      "color" := "The stroke color of the circle."]
    case Triangle => map[
      "x1" := "The x-coordinate of the first vertex.",
      "y1" := "The y-coordinate of the first vertex.",
      "x2" := "The x-coordinate of the second vertex.",
      "y2" := "The y-coordinate of the second vertex.",
      "x3" := "The x-coordinate of the third vertex.",
      "y3" := "The y-coordinate of the third vertex.",
      "color" := "The stroke color of the triangle."]
    case _ => map[
      "x" := "The x-coordinate of the object.",
      "y" := "The y-coordinate of the object.",
      "name" := "The name of the object.",
      "parent" := "The parent object."]
  }

  function ModifierDescription(m: ModifierKind): string
  {
    match m
    case FillModifier => "Fills a closed shape with color and an optional bleed effect."
    case FlipModifier => "Flips an object 'horizontally' or 'vertically' around its own center."
    case MirrorModifier => "Mirrors an object across a given origin point and axis. If x and y are not provided, it mirrors across the object's own center."
    case ColorModifier => "Sets the color of an object. It accepts a color name, HEX, RGB, or HSL value."
    case LayerModifier => "This is the base class for all modifiers."
  }

  /** Each modifier's `parameter_descriptions` as (key, text) pairs in declaration order; only Fill has any. */
  function ModifierParamDescriptions(m: ModifierKind): seq<(string, string)>
  {
    if m == FillModifier then [
      ("color", "The fill color (e.g., 'red', '#FF0000')."),
      ("opacity", "The opacity of the fill (0-255)."),
      ("bleed", "The strength of the bleed effect (0-0.5)."),
      ("bleedDir", "The direction of the bleed ('in' or 'out').")]
    else []
  }

  /** An own instance field and the `typeof` of its value on a fresh instance. */
  datatype FieldDecl = FieldDecl(key: string, jsType: string)

  /** The fields every VectorObject defines, in declaration order. */
  const BaseFields: seq<FieldDecl> := [
    FieldDecl("x", "number"), FieldDecl("y", "number"), FieldDecl("parent", "undefined"),
    FieldDecl("name", "string"), FieldDecl("layer", "undefined"), FieldDecl("mirroredObject", "object"),
    FieldDecl("isCloneable", "boolean"), FieldDecl("fill", "object"),
    FieldDecl("_unsupportedModifiers", "object"), FieldDecl("_onlyIncludeParamters", "object"),
    FieldDecl("useDraw", "boolean"), FieldDecl("appliedFeatures", "object"), FieldDecl("useBrushes", "boolean")]

  /** The fields a subclass adds after the base ones (redeclared base fields keep their place). */
  function OwnFields(k: Kind): seq<FieldDecl>
  {
    match k
    case Rectangle => [FieldDecl("color", "string"), FieldDecl("width", "number"), FieldDecl("height", "number")]
    case Circle => [FieldDecl("color", "string"), FieldDecl("radius", "number")]
    case Line => [FieldDecl("x2", "number"), FieldDecl("y2", "number")]
    case Triangle => [FieldDecl("color", "string"), FieldDecl("x1", "number"), FieldDecl("y1", "number"),
                      FieldDecl("x2", "number"), FieldDecl("y2", "number"), FieldDecl("x3", "number"),
                      FieldDecl("y3", "number")]
    case Spline => [FieldDecl("points", "object"), FieldDecl("color", "string"), FieldDecl("weight", "number"),
                    FieldDecl("curvature", "number")]
    case Custom => [FieldDecl("ANYdraw", "string")]
    case Brush => [FieldDecl("type", "string"), FieldDecl("color", "string"), FieldDecl("size", "number")]
    case Field => [FieldDecl("type", "string")]
    case LayerObject => [FieldDecl("colorMode", "string")]
  }

  /** What `for (const key in this)` visits on a fresh instance. */
  function Fields(k: Kind): seq<FieldDecl>
  {
    BaseFields + OwnFields(k)
  }

  /** `_onlyIncludeParamters` of each class. */
  function Whitelist(k: Kind): seq<string>
  {
    match k
    case Rectangle => ["color", "y", "x", "width", "height"]
    case Circle => ["color", "y", "x", "radius"]
    case Line => ["x", "y", "x2", "y2"]
    case Triangle => ["color", "x1", "y1", "x2", "y2", "x3", "y3"]
    case Spline => ["color", "weight", "curvature"]
    case Custom => ["ANYdraw"]
    case Brush => ["type", "color", "size"]
    case Field => ["type"]
    case LayerObject => ["colorMode"]
  }

  /**
   * The data fields a fresh instance starts with (constructor defaults),
   * keyed by field name.  Triangle and Spline pass (0, 0) to the base
   * constructor, so every kind has `x` and `y`.
   */
  function Defaults(k: Kind): map<string, Value>
  {
    var origin := map["x" := Num(0.0), "y" := Num(0.0)];
    match k
    case Rectangle => origin + map["width" := Num(50.0), "height" := Num(50.0), "color" := Str("")]
    case Circle => origin + map["radius" := Num(25.0), "color" := Str("")]
    case Line => origin + map["x2" := Num(0.0), "y2" := Num(0.0)]
    case Triangle => origin + map["x1" := Num(0.0), "y1" := Num(0.0), "x2" := Num(50.0), "y2" := Num(50.0),
                                  "x3" := Num(0.0), "y3" := Num(50.0), "color" := Str("")]
    case Spline => origin + map["color" := Str("black"), "weight" := Num(1.0), "curvature" := Num(0.5)]
    case Custom => origin + map["ANYdraw" := Str("")]
    case Brush => origin + map["type" := Str(""), "color" := Str("black"), "size" := Num(2.0)]
    case Field => origin + map["type" := Str("")]
    case LayerObject => origin + map["colorMode" := Str("")]
  }

  /** `'color' in ref`: whether the Color modifier can set a colour on this kind. */
  predicate HasColorField(k: Kind)
  {
    "color" in Defaults(k)
  }

  /** Whether a fresh instance has a non-null `fill`. */
  predicate HasFill(k: Kind)
  {
    k == Rectangle || k == Circle || k == Triangle
  }

  /** `_unsupportedModifiers`. */
  function UnsupportedModifiers(k: Kind): seq<string>
  {
    if k == Line || k == Spline then ["Fill"] else []
  }

  datatype VariadicParam = VariadicParam(name: string, ptype: string, description: string, optional: bool)

  datatype VariadicDef = VariadicDef(groupName: string, min: nat, params: seq<VariadicParam>, storeIn: string)

  /** `static variadicParameters`; only Spline declares one. */
  function Variadic(k: Kind): Option<VariadicDef>
  {
    if k == Spline then
      Some(VariadicDef("point", 2, [
        VariadicParam("x", "Number", "The x-coordinate of a point on the spline.", false),
        VariadicParam("y", "Number", "The y-coordinate of a point on the spline.", false),
        VariadicParam("p", "Number", "The pressure at this point (optional).", true)], "points"))
    else None
  }

  /** The kinds the Color modifier can change are exactly those with a colour field. */
  lemma ColorFieldKinds(k: Kind)
    ensures HasColorField(k) <==> k in {Rectangle, Circle, Triangle, Spline, Brush}
  {
  }

  /** Every kind that refuses Fill also starts with no fill, so Fill's own null check is never the one that fires for them. */
  lemma UnsupportedFillHasNoFill(k: Kind)
    ensures "Fill" in UnsupportedModifiers(k) ==> !HasFill(k)
  {
  }
}
