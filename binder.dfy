/**
 * `assignParametersToObject` (src/services/instructions/interpreter.ts):
 * how the arguments of one statement are bound to the fields of the
 * object it built.  Named arguments look their name up in the type's
 * `getParams()` list, positional ones take the entry at their rank, and
 * `<sub><index>` names collect into the numbered groups of a variadic
 * type (Spline's points).  Every refusal has its own message.
 */
module Binder {
  import opened Wrappers
  import opened Chars
  import opened Values
  import opened Kinds
  import opened Params
  import opened Lexing
  import opened SceneLexer
  import opened Scene

  type Tok = Token<SceneToken>

  /**
   * One argument as `parameterClause` returns it: `name` is the token
   * before the `:` (absent for a positional argument), `token` the value's
   * token, and `order` the argument's rank among the positional arguments
   * of its statement, counting from 1 (0 for a named argument).
   */
  datatype Arg = Arg(name: Option<Tok>, value: Value, token: Tok, order: nat)

  /** A semantic error: its text and the token it is reported at, if any. */
  datatype Problem = Problem(message: string, token: Option<Tok>)

  /** A named argument read as `<sub><index>` of a variadic group. */
  datatype VArg = VArg(sub: string, index: nat, value: Value, nameToken: Tok)

  /**
   * The state of the argument loop: the object's data fields,
   * `usedArguments`, the `variadicParams` buffer and `errorInfo`.
   */
  datatype Pass = Pass(props: map<string, Value>, used: set<string>, variadic: seq<VArg>, error: Option<Problem>)

  /** What binding did: the new data fields, the new `points` if the groups were stored, and the problems in order. */
  datatype Outcome = Outcome(props: map<string, Value>, points: Option<seq<Point>>, problems: seq<Problem>)

  /** What binding reads off a type: its class name, its `getParams()` list and its variadic definition. */
  datatype Schema = Schema(typeName: string, table: seq<Param>, variadic: Option<VariadicDef>)

  function SchemaOf(k: Kind): Schema
  {
    Schema(KindName(k), ParamTable(k), Variadic(k))
  }

  /** No two parameters share a name or a field: true of every type's list. */
  predicate WellFormed(s: Schema)
  {
    Distinct(s.table)
  }

  lemma SchemasWellFormed(k: Kind)
    ensures WellFormed(SchemaOf(k))
    ensures forall p :: p in SchemaOf(k).table ==> p.actualName in Defaults(k)
  {
    match k
    case Rectangle => RectangleTable();
    case Circle => CircleTable();
    case Line => LineTable();
    case Triangle => TriangleTable();
    case Spline => SplineTable();
    case Custom => CustomTable();
    case Brush => BrushTable();
    case Field => FieldTable();
    case LayerObject => LayerObjectTable();
  }

  /** The schema of a kind writes only fields that an object of that kind has. */
  lemma SchemaFits(k: Kind, props: map<string, Value>)
    requires props.Keys == Defaults(k).Keys
    ensures WellFormed(SchemaOf(k)) && forall p :: p in SchemaOf(k).table ==> p.actualName in props
  {
    SchemasWellFormed(k);
  }

  /** A list whose names are strictly ascending and whose fields carry those names has no repeats. */
  lemma SameFieldNames(k: Kind, t: seq<Param>)
    requires t == ParamTable(k)
    requires forall i | 0 <= i < |t| :: t[i].actualName == t[i].name
    ensures Distinct(t)
  {
    TableStrictlySorted(k, ParamDescriptions(k));
  }

  lemma RectangleTable()
    ensures Distinct(ParamTable(Rectangle))
    ensures forall p :: p in ParamTable(Rectangle) ==> p.actualName in Defaults(Rectangle)
  {
    var t := ParamTable(Rectangle);
    forall i | 0 <= i < |t| ensures t[i].actualName == t[i].name && t[i].name in Defaults(Rectangle) {
    }
    SameFieldNames(Rectangle, t);
  }

  lemma CircleTable()
    ensures Distinct(ParamTable(Circle))
    ensures forall p :: p in ParamTable(Circle) ==> p.actualName in Defaults(Circle)
  {
    var t := ParamTable(Circle);
    forall i | 0 <= i < |t| ensures t[i].actualName == t[i].name && t[i].name in Defaults(Circle) {
    }
    SameFieldNames(Circle, t);
  }

  lemma LineTable()
    ensures Distinct(ParamTable(Line))
    ensures forall p :: p in ParamTable(Line) ==> p.actualName in Defaults(Line)
  {
    var t := ParamTable(Line);
    forall i | 0 <= i < |t| ensures t[i].actualName == t[i].name && t[i].name in Defaults(Line) {
    }
    SameFieldNames(Line, t);
  }

  lemma TriangleTable()
    ensures Distinct(ParamTable(Triangle))
    ensures forall p :: p in ParamTable(Triangle) ==> p.actualName in Defaults(Triangle)
  {
    var t := ParamTable(Triangle);
    forall i | 0 <= i < |t| ensures t[i].actualName == t[i].name && t[i].name in Defaults(Triangle) {
    }
    SameFieldNames(Triangle, t);
  }

  lemma SplineTable()
    ensures Distinct(ParamTable(Spline))
    ensures forall p :: p in ParamTable(Spline) ==> p.actualName in Defaults(Spline)
  {
    var t := ParamTable(Spline);
    forall i | 0 <= i < |t| ensures t[i].actualName == t[i].name && t[i].name in Defaults(Spline) {
    }
    SameFieldNames(Spline, t);
  }

  lemma CustomTable()
    ensures Distinct(ParamTable(Custom))
    ensures forall p :: p in ParamTable(Custom) ==> p.actualName in Defaults(Custom)
  {
  }

  lemma BrushTable()
    ensures Distinct(ParamTable(Brush))
    ensures forall p :: p in ParamTable(Brush) ==> p.actualName in Defaults(Brush)
  {
    var t := ParamTable(Brush);
    forall i | 0 <= i < |t| ensures t[i].actualName == t[i].name && t[i].name in Defaults(Brush) {
    }
    SameFieldNames(Brush, t);
  }

  lemma FieldTable()
    ensures Distinct(ParamTable(Field))
    ensures forall p :: p in ParamTable(Field) ==> p.actualName in Defaults(Field)
  {
    var t := ParamTable(Field);
    forall i | 0 <= i < |t| ensures t[i].actualName == t[i].name && t[i].name in Defaults(Field) {
    }
    SameFieldNames(Field, t);
  }

  lemma LayerObjectTable()
    ensures Distinct(ParamTable(LayerObject))
    ensures forall p :: p in ParamTable(LayerObject) ==> p.actualName in Defaults(LayerObject)
  {
    var t := ParamTable(LayerObject);
    forall i | 0 <= i < |t| ensures t[i].actualName == t[i].name && t[i].name in Defaults(LayerObject) {
    }
    SameFieldNames(LayerObject, t);
  }

  // ----- messages -----

  function AlreadyAssigned(n: string): string
  {
    "Parameter \"" + n + "\" has already been assigned."
  }

  function NotValid(n: string, typeName: string): string
  {
    "Parameter \"" + n + "\" is not valid for a " + typeName + "."
  }

  function TooMany(typeName: string): string
  {
    "Too many parameters for " + typeName + "."
  }

  /** `index` is the argument's 0-based position among all arguments of the statement. */
  function Conflict(index: nat): string
  {
    "Positional parameter #" + NatToString(index + 1) + " conflicts with an already assigned named parameter."
  }

  function NotSequential(found: nat, expected: nat): string
  {
    "Variadic parameter groups must be sequential. Found index " + NatToString(found)
      + " but expected " + NatToString(expected) + "."
  }

  function TooFewGroups(min: nat, groupName: string, count: nat): string
  {
    "At least " + NatToString(min) + " " + groupName + "(s) are required, but only "
      + NatToString(count) + " were provided."
  }

  function MissingInGroup(sub: string, index: nat, groupName: string): string
  {
    "Parameter \"" + sub + NatToString(index) + "\" is missing. Each " + groupName + " group must be complete."
  }

  // ----- lookups -----

  /** `standardObjectParameters.find(p => p.name === n)`. */
  function FindParam(table: seq<Param>, n: string): (r: Option<Param>)
    ensures r.Some? ==> r.value in table && r.value.name == n
    ensures r.None? <==> forall p :: p in table ==> p.name != n
  {
    if table == [] then None
    else if table[0].name == n then Some(table[0])
    else FindParam(table[1..], n)
  }

  /** No two entries of a parameter list share a name or a field. */
  predicate Distinct(table: seq<Param>)
  {
    forall i, j :: 0 <= i < j < |table| ==> table[i].name != table[j].name && table[i].actualName != table[j].actualName
  }

  /** In a list without repeated names, the search finds the entry carrying the name. */
  lemma {:induction false} FindDistinct(table: seq<Param>, i: nat)
    requires Distinct(table) && i < |table|
    ensures FindParam(table, table[i].name) == Some(table[i])
  {
    if i > 0 {
      assert table[0].name != table[i].name;
      assert Distinct(table[1..]) by {
        forall a, b | 0 <= a < b < |table[1..]|
          ensures table[1..][a].name != table[1..][b].name && table[1..][a].actualName != table[1..][b].actualName
        {
          assert table[1..][a] == table[a + 1] && table[1..][b] == table[b + 1];
        }
      }
      FindDistinct(table[1..], i - 1);
    }
  }

  /** Entries with different names write different fields. */
  lemma DistinctFields(table: seq<Param>, p: Param, q: Param)
    requires Distinct(table) && p in table && q in table && p.name != q.name
    ensures p.actualName != q.actualName
  {
    var i :| 0 <= i < |table| && table[i] == p;
    var j :| 0 <= j < |table| && table[j] == q;
  }

  /**
   * `name.match(/([a-zA-Z_]+)([0-9]+)/)` searched from `i`: the leftmost
   * run of letters and underscores directly followed by digits, as the
   * two captured groups.
   */
  function VariadicSplit(s: string, i: nat): (r: Option<(string, string)>)
    ensures r.Some? ==> |r.value.0| > 0 && forall c :: 0 <= c < |r.value.0| ==> IsIdentStart(r.value.0[c])
    ensures r.Some? ==> |r.value.1| > 0 && AllDigits(r.value.1)
    decreases |s| - i
  {
    if i >= |s| then None
    else
      var a := Run(s, i, IsIdentStart);
      if a > 0 && i + a < |s| && IsDigit(s[i + a]) then
        var d := Run(s, i + a, IsDigit);
        Some((s[i..i + a], s[i + a..i + a + d]))
      else VariadicSplit(s, i + 1)
  }

  /** On an identifier made of letters then digits, the two groups are exactly those parts. */
  lemma VariadicSplitOfIdentifier(letters: string, digits: string)
    requires |letters| > 0 && forall c :: 0 <= c < |letters| ==> IsIdentStart(letters[c])
    requires |digits| > 0 && AllDigits(digits)
    ensures VariadicSplit(letters + digits, 0) == Some((letters, digits))
  {
    var s := letters + digits;
    var n := |letters|;
    forall m | 0 <= m < n ensures IsIdentStart(s[m]) {
      assert s[m] == letters[m];
    }
    assert s[n] == digits[0] && !IsIdentStart(s[n]);
    RunCovers(s, 0, n, IsIdentStart);
    forall m | n <= m < |s| ensures IsDigit(s[m]) {
      assert s[m] == digits[m - n];
    }
    RunCovers(s, n, |s|, IsDigit);
    assert s[0..n] == letters && s[n..n + |digits|] == digits;
  }

  /** A run over a stretch of matching characters that ends at `j` (a non-match or the end) has length `j - i`. */
  lemma {:induction false} RunCovers(s: string, i: nat, j: nat, p: char -> bool)
    requires i <= j <= |s| && (forall m :: i <= m < j ==> p(s[m])) && (j < |s| ==> !p(s[j]))
    ensures Run(s, i, p) == j - i
    decreases j - i
  {
    if i < j { RunCovers(s, i + 1, j, p); }
  }

  /** `variadicDefinition.params.some(p => p.name === sub)`. */
  predicate HasSub(vd: VariadicDef, sub: string)
  {
    exists q :: q in vd.params && q.name == sub
  }

  // ----- the argument loop -----

  /** One iteration of `parameters.forEach` while no error has been recorded. */
  function Step(s: Schema, b: Pass, a: Arg, index: nat): (r: Pass)
    requires b.error.None?
    ensures (forall p :: p in s.table ==> p.actualName in b.props) ==> r.props.Keys == b.props.Keys
  {
    if a.name.Some? then
      var nt := a.name.value;
      var n := nt.image;
      var standard := FindParam(s.table, n);
      if standard.Some? then
        if n in b.used then b.(error := Some(Problem(AlreadyAssigned(n), Some(nt))))
        else b.(used := b.used + {n}, props := b.props[standard.value.actualName := a.value])
      else
        var split := VariadicSplit(n, 0);
        if split.Some? && s.variadic.Some? && HasSub(s.variadic.value, split.value.0) then
          b.(variadic := b.variadic + [VArg(split.value.0, DigitsValue(split.value.1), a.value, nt)])
        else b.(error := Some(Problem(NotValid(n, s.typeName), Some(nt))))
    else if a.order == 0 || a.order > |s.table| then
      b.(error := Some(Problem(TooMany(s.typeName), Some(a.token))))
    else
      var p := s.table[a.order - 1];
      if p.name in b.used then b.(error := Some(Problem(Conflict(index), Some(a.token))))
      else b.(used := b.used + {p.name}, props := b.props[p.actualName := a.value])
  }

  /**
   * The loop over `args`: once an error is recorded the remaining
   * arguments are skipped.  Every name recorded as used is a parameter
   * of the type.
   */
  function FirstPass(s: Schema, props: map<string, Value>, args: seq<Arg>): (r: Pass)
    ensures (forall p :: p in s.table ==> p.actualName in props) ==> r.props.Keys == props.Keys
    ensures forall n :: n in r.used ==> FindParam(s.table, n).Some?
    decreases |args|
  {
    if args == [] then Pass(props, {}, [], None)
    else
      var b := FirstPass(s, props, args[..|args| - 1]);
      if b.error.Some? then b
      else
        var a := args[|args| - 1];
        var r := Step(s, b, a, |args| - 1);
        assert forall n :: n in r.used ==> n in b.used || FindParam(s.table, n).Some? by {
          if a.name.None? && 0 < a.order <= |s.table| {
            assert s.table[a.order - 1] in s.table;
          }
        }
        r
  }

  // ----- variadic groups -----

  /** The group indices used: the keys of `grouped`. */
  function Indices(vs: seq<VArg>): set<nat>
  {
    set v | v in vs :: v.index
  }

  /** The arguments of group `idx`, in the order they were written. */
  function Members(vs: seq<VArg>, idx: nat): (r: seq<VArg>)
    ensures forall v :: v in r ==> v in vs && v.index == idx
    ensures idx in Indices(vs) <==> r != []
  {
    if vs == [] then []
    else
      var rest := Members(vs[1..], idx);
      assert Indices(vs) == {vs[0].index} + Indices(vs[1..]) by {
        assert forall v :: v in vs <==> v == vs[0] || v in vs[1..];
      }
      if vs[0].index == idx then [vs[0]] + rest else rest
  }

  /** The smallest element of a non-empty set. */
  ghost function Least(s: set<nat>): (m: nat)
    requires s != {}
    ensures m in s && forall x :: x in s ==> m <= x
    decreases |s|
  {
    var y :| y in s;
    var rest := s - {y};
    assert forall x :: x in s ==> x == y || x in rest;
    if rest == {} then y
    else
      var m' := Least(rest);
      if y < m' then y else m'
  }

  /** The group indices in ascending order: the keys of `sortedGroups`. */
  function Ascending(s: set<nat>): seq<nat>
    decreases |s|
  {
    if s == {} then []
    else
      assert Least(s) in s;
      var m :| m in s && forall x :: x in s ==> m <= x;
      [m] + Ascending(s - {m})
  }

  /** `Ascending` lists every element once, in increasing order. */
  lemma {:induction false} AscendingSpec(s: set<nat>)
    ensures |Ascending(s)| == |s| && forall x :: x in Ascending(s) <==> x in s
    ensures forall i, j :: 0 <= i < j < |Ascending(s)| ==> Ascending(s)[i] < Ascending(s)[j]
    decreases |s|
  {
    if s != {} {
      AscendingHead(s);
      var m := Ascending(s)[0];
      AscendingSpec(s - {m});
      LeastFirst(s, m, Ascending(s - {m}));
    }
  }

  /** The least element of `s` followed by the rest of `s` in increasing order lists `s` in increasing order. */
  lemma LeastFirst(s: set<nat>, m: nat, rest: seq<nat>)
    requires m in s && forall x :: x in s ==> m <= x
    requires |rest| == |s - {m}| && forall x :: x in rest <==> x in s - {m}
    requires forall i, j :: 0 <= i < j < |rest| ==> rest[i] < rest[j]
    ensures |[m] + rest| == |s| && forall x :: x in [m] + rest <==> x in s
    ensures forall i, j :: 0 <= i < j < |[m] + rest| ==> ([m] + rest)[i] < ([m] + rest)[j]
  {
    var r := [m] + rest;
    forall i | 0 <= i < |rest| ensures m < rest[i] {
      assert rest[i] in s - {m};
    }
    assert forall x :: x in r <==> x == m || x in rest;
    forall i, j | 0 <= i < j < |r| ensures r[i] < r[j] {
      assert r[j] == rest[j - 1];
      if i > 0 { assert r[i] == rest[i - 1]; }
    }
  }

  /** `Ascending` starts with the least element and goes on with the others. */
  lemma AscendingHead(s: set<nat>)
    requires s != {}
    ensures var r := Ascending(s);
      r != [] && r[0] in s && (forall x :: x in s ==> r[0] <= x) && r == [r[0]] + Ascending(s - {r[0]})
  {
  }

  /** The first position of `sorted` (from `i` on) that does not hold its own rank, counting from 1. */
  function FirstGap(sorted: seq<nat>, i: nat): (r: Option<nat>)
    requires i <= |sorted|
    ensures r.Some? ==> i <= r.value < |sorted| && sorted[r.value] != r.value + 1
    ensures r.Some? ==> forall j :: i <= j < r.value ==> sorted[j] == j + 1
    ensures r.None? <==> forall j :: i <= j < |sorted| ==> sorted[j] == j + 1
    decreases |sorted| - i
  {
    if i == |sorted| then None
    else if sorted[i] != i + 1 then Some(i)
    else FirstGap(sorted, i + 1)
  }

  /** `groupParams.find(p => p.variadicName === sub)`. */
  function FirstSub(ms: seq<VArg>, sub: string): (r: Option<VArg>)
    ensures r.Some? ==> r.value in ms && r.value.sub == sub
    ensures r.None? <==> forall v :: v in ms ==> v.sub != sub
  {
    if ms == [] then None
    else if ms[0].sub == sub then Some(ms[0])
    else FirstSub(ms[1..], sub)
  }

  /**
   * `groupData` of one group: each sub-parameter's first value in the
   * group, or the problem for the first required sub-parameter that is
   * missing (sub-parameters are checked in declaration order).
   */
  function GroupData(defs: seq<VariadicParam>, ms: seq<VArg>, idx: nat, groupName: string, token: Option<Tok>)
    : (r: Result<map<string, Value>, Problem>)
    ensures r.Err? ==> r.error.token == token
  {
    if defs == [] then Ok(map[])
    else
      var d := defs[0];
      var found := FirstSub(ms, d.name);
      if found.None? && !d.optional then Err(Problem(MissingInGroup(d.name, idx, groupName), token))
      else
        match GroupData(defs[1..], ms, idx, groupName, token)
        case Err(e) => Err(e)
        case Ok(m) => Ok(if found.Some? then m[d.name := found.value.value] else m)
  }

  /**
   * A group's data is complete exactly when every required sub-parameter
   * was given, and then holds each given sub-parameter's first value.
   */
  lemma {:induction false} GroupDataSpec(defs: seq<VariadicParam>, ms: seq<VArg>, idx: nat, groupName: string, token: Option<Tok>)
    ensures var r := GroupData(defs, ms, idx, groupName, token);
      && (r.Ok? ==> forall d :: d in defs && !d.optional ==> d.name in r.value)
      && (r.Ok? ==> forall key :: key in r.value ==> FirstSub(ms, key).Some? && r.value[key] == FirstSub(ms, key).value.value)
      && (r.Err? <==> exists d :: d in defs && !d.optional && FirstSub(ms, d.name).None?)
  {
    if defs != [] {
      var d := defs[0];
      assert forall e :: e in defs <==> e == d || e in defs[1..];
      GroupDataSpec(defs[1..], ms, idx, groupName, token);
    }
  }

  /** A stored point `{x, y, p?}`. */
  function ToPoint(m: map<string, Value>): Point
  {
    Point(if "x" in m then m["x"] else Undefined, if "y" in m then m["y"] else Undefined,
          if "p" in m then Some(m["p"]) else None)
  }

  /** `parameters[0]?.token`. */
  function FirstToken(args: seq<Arg>): Option<Tok>
  {
    if args == [] then None else Some(args[0].token)
  }

  /**
   * The `sortedGroups.forEach` pass over `groups`: each complete group
   * adds its point, each incomplete one its problem (execution stops at
   * the first problem, lint mode goes on with the next group).
   */
  function Completed(vd: VariadicDef, vs: seq<VArg>, groups: seq<nat>, n: nat, fallback: Option<Tok>): (r: (seq<Point>, seq<Problem>))
    requires n <= |groups|
    ensures |r.0| + |r.1| == n
  {
    if n == 0 then ([], [])
    else
      var prev := Completed(vd, vs, groups, n - 1, fallback);
      match GroupOf(vd, vs, groups[n - 1], fallback)
      case Ok(m) => (prev.0 + [ToPoint(m)], prev.1)
      case Err(e) => (prev.0, prev.1 + [e])
  }

  /** `groupData` of group `idx`, its problem carrying the group's first name token (else `fallback`). */
  function GroupOf(vd: VariadicDef, vs: seq<VArg>, idx: nat, fallback: Option<Tok>): Result<map<string, Value>, Problem>
  {
    var ms := Members(vs, idx);
    GroupData(vd.params, ms, idx, vd.groupName, if ms != [] then Some(ms[0].nameToken) else fallback)
  }

  /**
   * The checks on the collected variadic arguments `vs` of a type with
   * groups `vd`: the order check, the minimum check and the per-group
   * completeness check.  Yields the points to store (when `vd` names a
   * field) and the problems, in the order the source raises them.
   */
  function CheckGroups(vd: VariadicDef, vs: seq<VArg>, fallback: Option<Tok>): (r: (Option<seq<Point>>, seq<Problem>))
    ensures r.0.Some? ==> vd.storeIn != ""
  {
    var sorted := Ascending(Indices(vs));
    var gap := FirstGap(sorted, 0);
    if gap.Some? then
      var found := sorted[gap.value];
      assert found in Indices(vs) by { AscendingSpec(Indices(vs)); }
      var ms := Members(vs, found);
      (None, [Problem(NotSequential(found, gap.value + 1), Some(ms[0].nameToken))])
    else if |sorted| < vd.min then
      (None, [Problem(TooFewGroups(vd.min, vd.groupName, |sorted|), fallback)])
    else
      var c := Completed(vd, vs, sorted, |sorted|, fallback);
      (if vd.storeIn != "" then Some(c.0) else None, c.1)
  }

  /**
   * Everything `assignParametersToObject(object, args)` does to an object
   * of schema `s` whose data fields are `props`: the argument loop, then,
   * for a variadic type, the group checks.
   */
  function Bind(s: Schema, props: map<string, Value>, args: seq<Arg>): (r: Outcome)
    ensures (forall p :: p in s.table ==> p.actualName in props) ==> r.props.Keys == props.Keys
  {
    var b := FirstPass(s, props, args);
    if b.error.Some? then Outcome(b.props, None, [b.error.value])
    else if s.variadic.None? then Outcome(b.props, None, [])
    else
      var g := CheckGroups(s.variadic.value, b.variadic, FirstToken(args));
      Outcome(b.props, g.0, g.1)
  }

  // ----- the method -----

  /**
   * The `parameters.forEach` loop of `assignParametersToObject`: binds the
   * arguments of `args` into `obj` one by one and stops at the first
   * refused argument.
   */
  method BindArguments(obj: SceneObject, s: Schema, args: seq<Arg>)
    returns (used: set<string>, variadic: seq<VArg>, error: Option<Problem>)
    requires WellFormed(s) && forall p :: p in s.table ==> p.actualName in obj.props
    modifies obj
    ensures obj.props.Keys == old(obj.props.Keys)
    ensures obj.Attributes() == old(obj.Attributes()) && obj.points == old(obj.points)
    ensures Pass(obj.props, used, variadic, error) == FirstPass(s, old(obj.props), args)
  {
    ghost var props0 := obj.props;
    used, variadic, error := {}, [], None;
    var i := 0;
    while i < |args| && error.None?
      invariant 0 <= i <= |args|
      invariant obj.props.Keys == props0.Keys && obj.Attributes() == old(obj.Attributes()) && obj.points == old(obj.points)
      invariant Pass(obj.props, used, variadic, error) == FirstPass(s, props0, args[..i])
    {
      var a := args[i];
      assert args[..i + 1][..i] == args[..i] && args[..i + 1][i] == a;
      if a.name.Some? {
        var nt := a.name.value;
        var standard := FindParam(s.table, nt.image);
        if standard.Some? {
          if nt.image in used {
            error := Some(Problem(AlreadyAssigned(nt.image), Some(nt)));
          } else {
            used := used + {nt.image};
            obj.props := obj.props[standard.value.actualName := a.value];
          }
        } else {
          var split := VariadicSplit(nt.image, 0);
          if split.Some? && s.variadic.Some? && HasSub(s.variadic.value, split.value.0) {
            variadic := variadic + [VArg(split.value.0, DigitsValue(split.value.1), a.value, nt)];
          } else {
            error := Some(Problem(NotValid(nt.image, s.typeName), Some(nt)));
          }
        }
      } else if a.order == 0 || a.order > |s.table| {
        error := Some(Problem(TooMany(s.typeName), Some(a.token)));
      } else {
        var target := s.table[a.order - 1];
        if target.name in used {
          error := Some(Problem(Conflict(i), Some(a.token)));
        } else {
          used := used + {target.name};
          obj.props := obj.props[target.actualName := a.value];
        }
      }
      i := i + 1;
    }
    if error.Some? {
      ErrorIsFinal(s, props0, args, i);
    } else {
      assert args[..i] == args;
    }
  }

  /** The order check of `assignParametersToObject`: the first index out of place. */
  method FindGap(sorted: seq<nat>) returns (gap: Option<nat>)
    ensures gap == FirstGap(sorted, 0)
  {
    var j := 0;
    while j < |sorted|
      invariant 0 <= j <= |sorted|
      invariant FirstGap(sorted, 0) == FirstGap(sorted, j)
    {
      if sorted[j] != j + 1 {
        return Some(j);
      }
      j := j + 1;
    }
    return None;
  }

  /** The `sortedGroups.forEach` loop: one `groupData` per group. */
  method CompleteGroups(def: VariadicDef, variadic: seq<VArg>, sorted: seq<nat>, fallback: Option<Tok>)
    returns (points: seq<Point>, problems: seq<Problem>)
    ensures (points, problems) == Completed(def, variadic, sorted, |sorted|, fallback)
  {
    points, problems := [], [];
    var g := 0;
    while g < |sorted|
      invariant 0 <= g <= |sorted|
      invariant points == Completed(def, variadic, sorted, g, fallback).0
      invariant problems == Completed(def, variadic, sorted, g, fallback).1
    {
      var data := GroupOf(def, variadic, sorted[g], fallback);
      if data.Ok? {
        points := points + [ToPoint(data.value)];
      } else {
        problems := problems + [data.error];
      }
      g := g + 1;
    }
  }

  /**
   * The group checks of `assignParametersToObject`: `sortedGroups` and its
   * order check, the minimum check, then the completeness check.
   */
  method GroupArguments(def: VariadicDef, variadic: seq<VArg>, fallback: Option<Tok>)
    returns (stored: Option<seq<Point>>, problems: seq<Problem>)
    ensures (stored, problems) == CheckGroups(def, variadic, fallback)
  {
    var sorted := Ascending(Indices(variadic));
    var gap := FindGap(sorted);
    if gap.Some? {
      AscendingSpec(Indices(variadic));
      assert sorted[gap.value] in Indices(variadic);
      var groupParams := Members(variadic, sorted[gap.value]);
      stored, problems := None, [Problem(NotSequential(sorted[gap.value], gap.value + 1), Some(groupParams[0].nameToken))];
    } else if |sorted| < def.min {
      stored, problems := None, [Problem(TooFewGroups(def.min, def.groupName, |sorted|), fallback)];
    } else {
      var points;
      points, problems := CompleteGroups(def, variadic, sorted, fallback);
      stored := if def.storeIn != "" then Some(points) else None;
    }
  }

  /**
   * `assignParametersToObject(obj, args)`: writes the bound arguments
   * into `obj` in place and returns the problems in the order the source
   * raises them (execution throws the first one).
   */
  method AssignParameters(obj: SceneObject, args: seq<Arg>) returns (problems: seq<Problem>)
    requires obj.Valid()
    modifies obj
    ensures obj.Valid() && obj.Attributes() == old(obj.Attributes())
    ensures var r := Bind(SchemaOf(obj.kind), old(obj.props), args);
      obj.props == r.props && problems == r.problems && obj.points == r.points.GetOr(old(obj.points))
  {
    var s := SchemaOf(obj.kind);
    SchemaFits(obj.kind, obj.props);
    var used, variadic, error := BindArguments(obj, s, args);
    if error.Some? {
      problems := [error.value];
    } else if s.variadic.None? {
      problems := [];
    } else {
      var stored;
      stored, problems := GroupArguments(s.variadic.value, variadic, FirstToken(args));
      if stored.Some? {
        obj.points := stored.value;
      }
    }
  }

  // ----- properties -----

  /** Once an argument is refused, no later argument of the statement is looked at. */
  lemma {:induction false} ErrorIsFinal(s: Schema, props: map<string, Value>, args: seq<Arg>, j: nat)
    requires WellFormed(s) && j <= |args| && FirstPass(s, props, args[..j]).error.Some?
    ensures FirstPass(s, props, args) == FirstPass(s, props, args[..j])
    decreases |args| - j
  {
    if j < |args| {
      var init := args[..|args| - 1];
      assert init[..j] == args[..j];
      ErrorIsFinal(s, props, init, j);
    } else {
      assert args[..j] == args;
    }
  }

  /** Without a final error, no prefix had one either. */
  lemma NoErrorBefore(s: Schema, props: map<string, Value>, args: seq<Arg>, j: nat)
    requires WellFormed(s) && j <= |args| && FirstPass(s, props, args).error.None?
    ensures FirstPass(s, props, args[..j]).error.None?
  {
    if FirstPass(s, props, args[..j]).error.Some? {
      ErrorIsFinal(s, props, args, j);
    }
  }

  /** The field a used parameter name writes. */
  function FieldOf(s: Schema, n: string): string
  {
    match FindParam(s.table, n)
    case Some(p) => p.actualName
    case None => n
  }

  /**
   * A name marked used stays used, and the field it wrote keeps its value,
   * for as long as no error is recorded.
   */
  lemma {:induction false} UsedIsKept(s: Schema, props: map<string, Value>, args: seq<Arg>, j: nat, n: string)
    requires WellFormed(s) && j <= |args| && FirstPass(s, props, args).error.None?
    requires n in FirstPass(s, props, args[..j]).used
    ensures n in FirstPass(s, props, args).used
    ensures FieldOf(s, n) in FirstPass(s, props, args[..j]).props ==>
              FieldOf(s, n) in FirstPass(s, props, args).props
              && FirstPass(s, props, args).props[FieldOf(s, n)] == FirstPass(s, props, args[..j]).props[FieldOf(s, n)]
    decreases |args| - j, 1
  {
    if j == |args| {
      assert args[..j] == args;
    } else {
      UsedIsKeptLast(s, props, args, j, n);
      assert Keeps(s, FirstPass(s, props, args[..j]), FirstPass(s, props, args), n);
    }
  }

  /** The step of `UsedIsKept`: kept up to the last argument, then by the last one. */
  lemma {:induction false} UsedIsKeptLast(s: Schema, props: map<string, Value>, args: seq<Arg>, j: nat, n: string)
    requires WellFormed(s) && j < |args| && FirstPass(s, props, args).error.None?
    requires n in FirstPass(s, props, args[..j]).used
    ensures Keeps(s, FirstPass(s, props, args[..j]), FirstPass(s, props, args), n)
    decreases |args| - j, 0
  {
    var init := args[..|args| - 1];
    assert init[..j] == args[..j];
    LastArgument(s, props, args);
    UsedIsKept(s, props, init, j, n);
    var b := FirstPass(s, props, init);
    StepKeepsUsed(s, b, args[|args| - 1], |args| - 1, n);
    KeepsTrans(s, FirstPass(s, props, args[..j]), b, FirstPass(s, props, args), n);
  }

  /** A statement that binds without error binds its last argument onto what the others bound. */
  lemma LastArgument(s: Schema, props: map<string, Value>, args: seq<Arg>)
    requires args != [] && FirstPass(s, props, args).error.None?
    ensures FirstPass(s, props, args[..|args| - 1]).error.None?
    ensures FirstPass(s, props, args) == Step(s, FirstPass(s, props, args[..|args| - 1]), args[|args| - 1], |args| - 1)
  {
  }

  /** `n` is still used in `after` and its field, if `before` had it, is unchanged. */
  predicate Keeps(s: Schema, before: Pass, after: Pass, n: string)
  {
    && n in after.used
    && (FieldOf(s, n) in before.props ==> FieldOf(s, n) in after.props && after.props[FieldOf(s, n)] == before.props[FieldOf(s, n)])
  }

  lemma KeepsTrans(s: Schema, a: Pass, b: Pass, c: Pass, n: string)
    requires Keeps(s, a, b, n) && Keeps(s, b, c, n)
    ensures Keeps(s, a, c, n)
  {
  }

  /** One step of the first pass keeps a used name used and leaves its field alone. */
  lemma StepKeepsUsed(s: Schema, b: Pass, a: Arg, index: nat, n: string)
    requires WellFormed(s) && b.error.None? && Step(s, b, a, index).error.None?
    requires n in b.used && FindParam(s.table, n).Some?
    ensures Keeps(s, b, Step(s, b, a, index), n)
  {
    var pn := FindParam(s.table, n).value;
    if a.name.Some? {
      var f := FindParam(s.table, a.name.value.image);
      if f.Some? {
        StepNamed(s, b, a, index);
        DistinctFields(s.table, f.value, pn);
      } else {
        StepVariadic(s, b, a, index);
      }
    } else {
      StepPositional(s, b, a, index);
      DistinctFields(s.table, s.table[a.order - 1], pn);
    }
  }

  /** An accepted named argument of a declared parameter marks the name used and sets that parameter's field. */
  lemma StepNamed(s: Schema, b: Pass, a: Arg, index: nat)
    requires b.error.None? && Step(s, b, a, index).error.None?
    requires a.name.Some? && FindParam(s.table, a.name.value.image).Some?
    ensures a.name.value.image !in b.used
    ensures Step(s, b, a, index)
         == b.(used := b.used + {a.name.value.image},
               props := b.props[FindParam(s.table, a.name.value.image).value.actualName := a.value])
  {
  }

  /** An accepted positional argument marks its parameter used and sets that parameter's field. */
  lemma StepPositional(s: Schema, b: Pass, a: Arg, index: nat)
    requires b.error.None? && Step(s, b, a, index).error.None? && a.name.None?
    ensures 0 < a.order <= |s.table| && s.table[a.order - 1].name !in b.used
    ensures Step(s, b, a, index)
         == b.(used := b.used + {s.table[a.order - 1].name}, props := b.props[s.table[a.order - 1].actualName := a.value])
  {
  }

  /** An accepted named argument that is not a declared parameter only joins the group arguments. */
  lemma StepVariadic(s: Schema, b: Pass, a: Arg, index: nat)
    requires b.error.None? && Step(s, b, a, index).error.None?
    requires a.name.Some? && FindParam(s.table, a.name.value.image).None?
    ensures Step(s, b, a, index).props == b.props && Step(s, b, a, index).used == b.used
  {
  }

  /** A named argument that names a declared parameter sets that parameter's field, when the statement binds without error. */
  lemma NamedArgumentBinds(s: Schema, props: map<string, Value>, args: seq<Arg>, i: nat)
    requires WellFormed(s)
    requires i < |args| && args[i].name.Some? && FindParam(s.table, args[i].name.value.image).Some?
    requires FirstPass(s, props, args).error.None?
    ensures var p := FindParam(s.table, args[i].name.value.image).value;
      p.actualName in FirstPass(s, props, args).props
      && FirstPass(s, props, args).props[p.actualName] == args[i].value
  {
    var n := args[i].name.value.image;
    ArgumentStep(s, props, args, i);
    var b := FirstPass(s, props, args[..i]);
    var p := FindParam(s.table, n).value;
    StepNamed(s, b, args[i], i);
    UsedIsKept(s, props, args, i + 1, n);
    assert FieldOf(s, n) == p.actualName;
  }

  /** The first pass over the first `i + 1` arguments of a statement that binds without error. */
  lemma ArgumentStep(s: Schema, props: map<string, Value>, args: seq<Arg>, i: nat)
    requires WellFormed(s) && i < |args| && FirstPass(s, props, args).error.None?
    ensures FirstPass(s, props, args[..i]).error.None? && FirstPass(s, props, args[..i + 1]).error.None?
    ensures FirstPass(s, props, args[..i + 1]) == Step(s, FirstPass(s, props, args[..i]), args[i], i)
  {
    NoErrorBefore(s, props, args, i + 1);
    NoErrorBefore(s, props, args, i);
    assert args[..i + 1][..i] == args[..i] && args[..i + 1][i] == args[i];
  }

  /** The positional argument of rank `o` sets the field of the `o`-th parameter in name order, when the statement binds without error. */
  lemma PositionalArgumentBinds(s: Schema, props: map<string, Value>, args: seq<Arg>, i: nat)
    requires WellFormed(s)
    requires i < |args| && args[i].name.None?
    requires FirstPass(s, props, args).error.None?
    ensures 1 <= args[i].order <= |s.table|
    ensures var p := s.table[args[i].order - 1];
      p.actualName in FirstPass(s, props, args).props
      && FirstPass(s, props, args).props[p.actualName] == args[i].value
  {
    ArgumentStep(s, props, args, i);
    var b := FirstPass(s, props, args[..i]);
    StepPositional(s, b, args[i], i);
    var p := s.table[args[i].order - 1];
    FindDistinct(s.table, args[i].order - 1);
    UsedIsKept(s, props, args, i + 1, p.name);
    assert FieldOf(s, p.name) == p.actualName;
  }

  /** The binding of a statement whose argument `j` is the first one refused, with `problem`. */
  lemma RefusedAt(s: Schema, props: map<string, Value>, args: seq<Arg>, j: nat, problem: Problem)
    requires WellFormed(s) && j < |args| && FirstPass(s, props, args[..j]).error.None?
    requires Step(s, FirstPass(s, props, args[..j]), args[j], j).error == Some(problem)
    ensures Bind(s, props, args) == Outcome(FirstPass(s, props, args[..j]).props, None, [problem])
  {
    var b := FirstPass(s, props, args[..j]);
    PrefixStep(s, props, args, j);
    StepRefusal(s, b, args[j], j);
    ErrorIsFinal(s, props, args, j + 1);
  }

  /** Argument `j` is bound onto what the arguments before it bound, when those bound without error. */
  lemma PrefixStep(s: Schema, props: map<string, Value>, args: seq<Arg>, j: nat)
    requires j < |args| && FirstPass(s, props, args[..j]).error.None?
    ensures FirstPass(s, props, args[..j + 1]) == Step(s, FirstPass(s, props, args[..j]), args[j], j)
  {
    assert args[..j + 1][..j] == args[..j] && args[..j + 1][j] == args[j];
  }

  /** A refused argument changes nothing but the recorded error. */
  lemma StepRefusal(s: Schema, b: Pass, a: Arg, index: nat)
    requires b.error.None? && Step(s, b, a, index).error.Some?
    ensures Step(s, b, a, index) == b.(error := Step(s, b, a, index).error)
  {
  }

  /** A name marked used by argument `i` is still used when argument `j` comes, if nothing was refused in between. */
  lemma UsedBefore(s: Schema, props: map<string, Value>, args: seq<Arg>, i: nat, j: nat)
    requires WellFormed(s) && i < j <= |args| && FirstPass(s, props, args[..j]).error.None?
    ensures FirstPass(s, props, args[..i + 1]).used <= FirstPass(s, props, args[..j]).used
  {
    assert args[..j][..i + 1] == args[..i + 1];
    forall n | n in FirstPass(s, props, args[..i + 1]).used ensures n in FirstPass(s, props, args[..j]).used {
      UsedIsKept(s, props, args[..j], i + 1, n);
    }
  }

  /** Argument `i` was bound without error, given that nothing was refused before `j > i`. */
  lemma BoundBefore(s: Schema, props: map<string, Value>, args: seq<Arg>, i: nat, j: nat)
    requires WellFormed(s) && i < j <= |args| && FirstPass(s, props, args[..j]).error.None?
    ensures FirstPass(s, props, args[..i]).error.None?
    ensures FirstPass(s, props, args[..i + 1]) == Step(s, FirstPass(s, props, args[..i]), args[i], i)
  {
    ArgumentStep(s, props, args[..j], i);
    assert args[..j][..i + 1] == args[..i + 1] && args[..j][..i] == args[..i] && args[..j][i] == args[i];
  }

  /**
   * Naming a parameter a second time is refused with "already assigned" at
   * the second name, and no argument after it is bound.
   */
  lemma DuplicateNameRefused(s: Schema, props: map<string, Value>, args: seq<Arg>, i: nat, j: nat)
    requires WellFormed(s)
    requires i < j < |args| && args[i].name.Some? && args[j].name.Some?
    requires args[i].name.value.image == args[j].name.value.image
    requires FindParam(s.table, args[j].name.value.image).Some?
    requires FirstPass(s, props, args[..j]).error.None?
    ensures Bind(s, props, args)
         == Outcome(FirstPass(s, props, args[..j]).props, None,
                    [Problem(AlreadyAssigned(args[j].name.value.image), args[j].name)])
  {
    BoundBefore(s, props, args, i, j);
    UsedBefore(s, props, args, i, j);
    RefusedAt(s, props, args, j, Problem(AlreadyAssigned(args[j].name.value.image), args[j].name));
  }

  /**
   * A positional argument whose parameter was already named is refused with
   * the conflict message carrying its position among all arguments.
   */
  lemma PositionalConflictRefused(s: Schema, props: map<string, Value>, args: seq<Arg>, i: nat, j: nat)
    requires WellFormed(s)
    requires i < j < |args| && args[i].name.Some? && args[j].name.None?
    requires 0 < args[j].order <= |s.table|
    requires s.table[args[j].order - 1].name == args[i].name.value.image
    requires FirstPass(s, props, args[..j]).error.None?
    ensures Bind(s, props, args)
         == Outcome(FirstPass(s, props, args[..j]).props, None, [Problem(Conflict(j), Some(args[j].token))])
  {
    FindDistinct(s.table, args[j].order - 1);
    BoundBefore(s, props, args, i, j);
    UsedBefore(s, props, args, i, j);
    RefusedAt(s, props, args, j, Problem(Conflict(j), Some(args[j].token)));
  }

  /** A positional argument beyond the parameter list is refused with "Too many parameters". */
  lemma TooManyRefused(s: Schema, props: map<string, Value>, args: seq<Arg>, j: nat)
    requires WellFormed(s)
    requires j < |args| && args[j].name.None? && args[j].order > |s.table|
    requires FirstPass(s, props, args[..j]).error.None?
    ensures Bind(s, props, args)
         == Outcome(FirstPass(s, props, args[..j]).props, None, [Problem(TooMany(s.typeName), Some(args[j].token))])
  {
    RefusedAt(s, props, args, j, Problem(TooMany(s.typeName), Some(args[j].token)));
  }

  /** A name that is neither a parameter nor `<sub><digits>` of a variadic group is refused as not valid. */
  lemma UnknownNameRefused(s: Schema, props: map<string, Value>, args: seq<Arg>, j: nat)
    requires WellFormed(s)
    requires j < |args| && args[j].name.Some?
    requires FindParam(s.table, args[j].name.value.image).None?
    requires var sp := VariadicSplit(args[j].name.value.image, 0);
      sp.None? || s.variadic.None? || !HasSub(s.variadic.value, sp.value.0)
    requires FirstPass(s, props, args[..j]).error.None?
    ensures Bind(s, props, args)
         == Outcome(FirstPass(s, props, args[..j]).props, None,
                    [Problem(NotValid(args[j].name.value.image, s.typeName), args[j].name)])
  {
    RefusedAt(s, props, args, j, Problem(NotValid(args[j].name.value.image, s.typeName), args[j].name));
  }

  /** A lone named argument whose name the type does not know is refused as not valid, and nothing is bound. */
  lemma UnknownAloneRefused(s: Schema, props: map<string, Value>, nt: Tok, v: Value, t: Tok)
    requires WellFormed(s) && s.variadic.None? && FindParam(s.table, nt.image).None?
    ensures Bind(s, props, [Arg(Some(nt), v, t, 0)])
         == Outcome(props, None, [Problem(NotValid(nt.image, s.typeName), Some(nt))])
  {
    var args := [Arg(Some(nt), v, t, 0)];
    assert args[..0] == [] && FirstPass(s, props, []) == Pass(props, {}, [], None);
    UnknownNameRefused(s, props, args, 0);
  }

  /** `x1` is not a Rectangle parameter and Rectangle has no variadic groups. */
  lemma RectangleRefusesX1(props: map<string, Value>, nt: Tok, v: Value, t: Tok)
    requires nt.image == "x1"
    ensures Bind(SchemaOf(Rectangle), props, [Arg(Some(nt), v, t, 0)])
         == Outcome(props, None, [Problem("Parameter \"x1\" is not valid for a Rectangle.", Some(nt))])
  {
    RectangleTable();
    RectangleLacksX1();
    UnknownAloneRefused(SchemaOf(Rectangle), props, nt, v, t);
    X1NotValidText();
  }

  lemma RectangleLacksX1()
    ensures FindParam(ParamTable(Rectangle), "x1").None?
  {
    var d := ParamDescriptions(Rectangle);
    assert ParamTable(Rectangle)
        == [Param("color", "color", "string", DescriptionOf(d, "color")),
            Param("height", "height", "number", DescriptionOf(d, "height")),
            Param("width", "width", "number", DescriptionOf(d, "width")),
            Param("x", "x", "number", DescriptionOf(d, "x")),
            Param("y", "y", "number", DescriptionOf(d, "y"))];
  }

  lemma X1NotValidText()
    ensures NotValid("x1", "Rectangle") == "Parameter \"x1\" is not valid for a Rectangle."
  {
    assert "Parameter \"" + "x1" == "Parameter \"x1";
    assert "Parameter \"x1" + "\" is not valid for a " == "Parameter \"x1\" is not valid for a ";
    assert "Parameter \"x1\" is not valid for a " + "Rectangle" + "." == "Parameter \"x1\" is not valid for a Rectangle.";
  }

  /** A Field exposes only `type`, so its inherited `x` cannot be named. */
  lemma FieldRefusesX(props: map<string, Value>, nt: Tok, v: Value, t: Tok)
    requires nt.image == "x"
    ensures Bind(SchemaOf(Field), props, [Arg(Some(nt), v, t, 0)])
         == Outcome(props, None, [Problem("Parameter \"x\" is not valid for a Field.", Some(nt))])
  {
    FieldTable();
    FieldLacksX();
    UnknownAloneRefused(SchemaOf(Field), props, nt, v, t);
    XNotValidText();
  }

  lemma FieldLacksX()
    ensures FindParam(ParamTable(Field), "x").None?
  {
    assert ParamTable(Field) == [Param("type", "type", "string", DescriptionOf(ParamDescriptions(Field), "type"))];
  }

  lemma XNotValidText()
    ensures NotValid("x", "Field") == "Parameter \"x\" is not valid for a Field."
  {
    assert "Parameter \"" + "x" == "Parameter \"x";
    assert "Parameter \"x" + "\" is not valid for a " == "Parameter \"x\" is not valid for a ";
  }

  /** A strictly increasing sequence of naturals rises by at least one per position. */
  lemma {:induction false} IncreasingGrowth(r: seq<nat>, i: nat, j: nat)
    requires forall a, b :: 0 <= a < b < |r| ==> r[a] < r[b]
    requires i <= j < |r|
    ensures r[j] >= r[i] + (j - i)
    decreases j - i
  {
    if i < j { IncreasingGrowth(r, i, j - 1); }
  }

  /**
   * The order check passes exactly when the group indices are 1, 2, ...,
   * k with none missing: an index-independent statement of "sequential".
   */
  lemma SequentialIff(set0: set<nat>)
    ensures FirstGap(Ascending(set0), 0).None? <==> forall x :: x in set0 <==> 1 <= x <= |set0|
  {
    if FirstGap(Ascending(set0), 0).None? {
      NoGapCovers(set0);
    } else if forall x :: x in set0 <==> 1 <= x <= |set0| {
      CoversNoGap(set0);
    }
  }

  lemma NoGapCovers(set0: set<nat>)
    requires FirstGap(Ascending(set0), 0).None?
    ensures forall x :: x in set0 <==> 1 <= x <= |set0|
  {
    var r := Ascending(set0);
    AscendingSpec(set0);
    forall x ensures x in set0 <==> 1 <= x <= |set0| {
      if 1 <= x <= |set0| { assert r[x - 1] == x; }
    }
  }

  lemma CoversNoGap(set0: set<nat>)
    requires forall x :: x in set0 <==> 1 <= x <= |set0|
    ensures FirstGap(Ascending(set0), 0).None?
  {
    var r := Ascending(set0);
    AscendingSpec(set0);
    forall j | 0 <= j < |r| ensures r[j] == j + 1 {
      assert r[0] in set0 && r[|r| - 1] in set0;
      IncreasingGrowth(r, 0, j);
      IncreasingGrowth(r, j, |r| - 1);
    }
  }

  /** Without group arguments, a definition with a minimum reports too few groups. */
  lemma NoGroupsTooFew(vd: VariadicDef, fallback: Option<Tok>)
    requires vd.min > 0
    ensures CheckGroups(vd, [], fallback) == (None, [Problem(TooFewGroups(vd.min, vd.groupName, 0), fallback)])
  {
    assert Indices([]) == {};
    assert Ascending({}) == [];
  }

  lemma TwoPointsText()
    ensures TooFewGroups(2, "point", 0) == "At least 2 point(s) are required, but only 0 were provided."
  {
    assert NatToString(2) == "2" && NatToString(0) == "0";
    TwoPointsJoin();
  }

  lemma TwoPointsJoin()
    ensures "At least " + "2" + " " + "point" + "(s) are required, but only " + "0" + " were provided."
         == "At least 2 point(s) are required, but only 0 were provided."
  {
    TwoPointsHead();
    TwoPointsMiddle();
    TwoPointsTail();
  }

  lemma TwoPointsHead()
    ensures "At least " + "2" + " " + "point" == "At least 2 point"
  {
  }

  lemma TwoPointsMiddle()
    ensures "At least 2 point" + "(s) are required, but only " + "0" == "At least 2 point(s) are required, but only 0"
  {
  }

  lemma TwoPointsTail()
    ensures "At least 2 point(s) are required, but only 0" + " were provided."
         == "At least 2 point(s) are required, but only 0 were provided."
  {
  }

  /** A Spline with no point arguments needs two points; the problem has no token when there are no arguments at all. */
  lemma SplineNeedsTwoPoints(props: map<string, Value>)
    ensures Bind(SchemaOf(Spline), props, [])
         == Outcome(props, None, [Problem("At least 2 point(s) are required, but only 0 were provided.", None)])
  {
    var s := SchemaOf(Spline);
    assert FirstPass(s, props, []) == Pass(props, {}, [], None);
    var vd := s.variadic.value;
    assert vd.min == 2 && vd.groupName == "point";
    NoGroupsTooFew(vd, FirstToken([]));
    TwoPointsText();
  }
}
