/**
 * `VectorObject.getParams` (src/services/classes/vectors/vector-object.ts):
 * which instance fields a scene type exposes as parameters, under which
 * name and type, sorted by name.  Positional arguments bind in this order,
 * named arguments and autocomplete look names up in it.
 */
module Params {
  import opened Wrappers
  import opened Chars
  import opened Kinds

  /** One entry of the `getParams()` list (the current value is left out; see `Kinds.Defaults`). */
  datatype Param = Param(name: string, actualName: string, ptype: string, description: Option<string>)

  /** Code-point lexicographic order on names (`localeCompare` agrees with it on every name used here). */
  predicate NameBefore(a: string, b: string)
  {
    if a == [] then true
    else if b == [] then false
    else if a[0] != b[0] then a[0] < b[0]
    else NameBefore(a[1..], b[1..])
  }

  predicate SortedByName(ps: seq<Param>)
  {
    forall i, j :: 0 <= i < j < |ps| ==> NameBefore(ps[i].name, ps[j].name)
  }

  lemma {:induction false} NameBeforeTotal(a: string, b: string)
    ensures NameBefore(a, b) || NameBefore(b, a)
  {
    if a != [] && b != [] && a[0] == b[0] { NameBeforeTotal(a[1..], b[1..]); }
  }

  lemma {:induction false} NameBeforeTransitive(a: string, b: string, c: string)
    requires NameBefore(a, b) && NameBefore(b, c)
    ensures NameBefore(a, c)
  {
    if a != [] && b != [] && c != [] && a[0] == b[0] && b[0] == c[0] {
      NameBeforeTransitive(a[1..], b[1..], c[1..]);
    }
  }

  /** Insert `p` before the first entry whose name does not come before it. */
  function InsertByName(p: Param, ps: seq<Param>): (r: seq<Param>)
    requires SortedByName(ps)
    ensures SortedByName(r)
    ensures multiset(r) == multiset(ps) + multiset{p}
  {
    if ps == [] then [p]
    else if NameBefore(p.name, ps[0].name) then
      InsertAtFront(p, ps);
      [p] + ps
    else
      var rest := InsertByName(p, ps[1..]);
      InsertAfterHead(p, ps, rest);
      [ps[0]] + rest
  }

  lemma InsertAtFront(p: Param, ps: seq<Param>)
    requires SortedByName(ps) && ps != [] && NameBefore(p.name, ps[0].name)
    ensures SortedByName([p] + ps)
  {
    forall j | 0 <= j < |ps| ensures NameBefore(p.name, ps[j].name) {
      if j > 0 { NameBeforeTransitive(p.name, ps[0].name, ps[j].name); }
    }
  }

  lemma InsertAfterHead(p: Param, ps: seq<Param>, rest: seq<Param>)
    requires SortedByName(ps) && ps != [] && !NameBefore(p.name, ps[0].name)
    requires SortedByName(rest) && multiset(rest) == multiset(ps[1..]) + multiset{p}
    ensures SortedByName([ps[0]] + rest)
    ensures multiset([ps[0]] + rest) == multiset(ps) + multiset{p}
  {
    NameBeforeTotal(p.name, ps[0].name);
    forall q | q in rest ensures NameBefore(ps[0].name, q.name) {
      assert q in multiset(rest);
      if q != p {
        assert q in multiset(ps[1..]);
        var j :| 0 <= j < |ps[1..]| && ps[1..][j] == q;
        assert ps[j + 1] == q;
      }
    }
    assert ps == [ps[0]] + ps[1..];
  }

  /** `formatted.sort((a, b) => a.name.localeCompare(b.name))`: a stable sort by name. */
  function SortByName(ps: seq<Param>): (r: seq<Param>)
    ensures SortedByName(r)
    ensures multiset(r) == multiset(ps)
  {
    if ps == [] then [] else
      assert ps == [ps[0]] + ps[1..];
      InsertByName(ps[0], SortByName(ps[1..]))
  }

  /** The rules of the `for...in` loop for one key, given what was already collected. */
  predicate Exposes(whitelist: seq<string>, f: FieldDecl)
  {
    f.jsType != "function"
    && (f.key == [] || f.key[0] != '_')
    && (|whitelist| == 0 || f.key in whitelist)
    && (f.key in whitelist || (f.key != "name" && f.key != "parent" && f.key != "useBrushes"))
  }

  /** `key.toLowerCase().startsWith("any")` */
  predicate HasAnyPrefix(key: string)
  {
    |key| >= 3 && Lower(key[0]) == 'a' && Lower(key[1]) == 'n' && Lower(key[2]) == 'y'
  }

  /** `any`-prefixed fields (in any case) are exposed without the prefix and with type "any". */
  function ToParam(f: FieldDecl, descriptions: map<string, string>): (p: Param)
    ensures p.actualName == f.key
  {
    var anyPrefix := HasAnyPrefix(f.key);
    var name := if anyPrefix then f.key[3..] else f.key;
    Param(name, f.key, if anyPrefix then "any" else f.jsType,
          DescriptionOf(descriptions, name))
  }

  /** The unsorted list the loop builds. */
  function Exposed(fields: seq<FieldDecl>, whitelist: seq<string>, descriptions: map<string, string>, done: set<string>): seq<Param>
  {
    if fields == [] then []
    else if Exposes(whitelist, fields[0]) && fields[0].key !in done then
      [ToParam(fields[0], descriptions)] + Exposed(fields[1..], whitelist, descriptions, done + {fields[0].key})
    else Exposed(fields[1..], whitelist, descriptions, done)
  }

  /**
   * `getParams()` for a fresh instance of `k`: the loop over the instance's
   * fields with its `keysDone` set, then the sort.
   */
  method GetParams(k: Kind) returns (params: seq<Param>)
    ensures params == SortByName(Exposed(Fields(k), Whitelist(k), ParamDescriptions(k), {}))
    ensures params == ParamTable(k)
  {
    params := CollectParams(Fields(k), Whitelist(k), ParamDescriptions(k));
    ParamTableIsGetParams(k);
  }

  method CollectParams(fields: seq<FieldDecl>, whitelist: seq<string>, descriptions: map<string, string>)
    returns (params: seq<Param>)
    ensures params == SortByName(Exposed(fields, whitelist, descriptions, {}))
  {
    var formatted: seq<Param> := [];
    var keysDone: set<string> := {};
    var i := 0;
    assert fields[i..] == fields;
    while i < |fields|
      invariant 0 <= i <= |fields|
      invariant formatted + Exposed(fields[i..], whitelist, descriptions, keysDone)
                == Exposed(fields, whitelist, descriptions, {})
    {
      var f := fields[i];
      ExposedAt(fields, i, whitelist, descriptions, keysDone);
      if Exposes(whitelist, f) && f.key !in keysDone {
        var q := ToParam(f, descriptions);
        AppendOne(formatted, q, Exposed(fields[i + 1..], whitelist, descriptions, keysDone + {f.key}));
        formatted := formatted + [q];
        keysDone := keysDone + {f.key};
      }
      i := i + 1;
    }
    assert fields[i..] == [];
    assert Exposed(fields[i..], whitelist, descriptions, keysDone) == [];
    assert formatted == Exposed(fields, whitelist, descriptions, {});
    params := SortByName(formatted);
  }

  /** The description a parameter named `name` gets from a description table. */
  function DescriptionOf(d: map<string, string>, name: string): (r: Option<string>)
    ensures r.Some? <==> name in d
    ensures r.Some? ==> r.value == d[name]
  {
    if name in d then Some(d[name]) else None
  }

  /**
   * The parameter list of each type, sorted by name, with descriptions taken
   * from `d`; `ParamTable` supplies the type's own descriptions.
   */
  function Table(k: Kind, d: map<string, string>): seq<Param>
  {
    match k
    case Rectangle =>
        [Param("color", "color", "string", DescriptionOf(d, "color")),
        Param("height", "height", "number", DescriptionOf(d, "height")),
        Param("width", "width", "number", DescriptionOf(d, "width")),
        Param("x", "x", "number", DescriptionOf(d, "x")),
        Param("y", "y", "number", DescriptionOf(d, "y"))]
    case Circle =>
        [Param("color", "color", "string", DescriptionOf(d, "color")),
        Param("radius", "radius", "number", DescriptionOf(d, "radius")),
        Param("x", "x", "number", DescriptionOf(d, "x")),
        Param("y", "y", "number", DescriptionOf(d, "y"))]
    case Line =>
        [Param("x", "x", "number", DescriptionOf(d, "x")),
        Param("x2", "x2", "number", DescriptionOf(d, "x2")),
        Param("y", "y", "number", DescriptionOf(d, "y")),
        Param("y2", "y2", "number", DescriptionOf(d, "y2"))]
    case Triangle =>
        [Param("color", "color", "string", DescriptionOf(d, "color")),
        Param("x1", "x1", "number", DescriptionOf(d, "x1")),
        Param("x2", "x2", "number", DescriptionOf(d, "x2")),
        Param("x3", "x3", "number", DescriptionOf(d, "x3")),
        Param("y1", "y1", "number", DescriptionOf(d, "y1")),
        Param("y2", "y2", "number", DescriptionOf(d, "y2")),
        Param("y3", "y3", "number", DescriptionOf(d, "y3"))]
    case Spline =>
        [Param("color", "color", "string", DescriptionOf(d, "color")),
        Param("curvature", "curvature", "number", DescriptionOf(d, "curvature")),
        Param("weight", "weight", "number", DescriptionOf(d, "weight"))]
    case Custom =>
        [Param("draw", "ANYdraw", "any", DescriptionOf(d, "draw"))]
    case Brush =>
        [Param("color", "color", "string", DescriptionOf(d, "color")),
        Param("size", "size", "number", DescriptionOf(d, "size")),
        Param("type", "type", "string", DescriptionOf(d, "type"))]
    case Field =>
        [Param("type", "type", "string", DescriptionOf(d, "type"))]
    case LayerObject =>
        [Param("colorMode", "colorMode", "string", DescriptionOf(d, "colorMode"))]
  }

  /** `getParams()` of a fresh instance of `k`. */
  function ParamTable(k: Kind): seq<Param>
  {
    Table(k, ParamDescriptions(k))
  }

  lemma AppendOne<X>(a: seq<X>, x: X, b: seq<X>)
    ensures a + ([x] + b) == (a + [x]) + b
  {
  }

  lemma ExposedAt(fs: seq<FieldDecl>, i: nat, w: seq<string>, d: map<string, string>, done: set<string>)
    requires i < |fs|
    ensures Exposed(fs[i..], w, d, done)
         == if Exposes(w, fs[i]) && fs[i].key !in done
            then [ToParam(fs[i], d)] + Exposed(fs[i + 1..], w, d, done + {fs[i].key})
            else Exposed(fs[i + 1..], w, d, done)
  {
    assert fs[i..][1..] == fs[i + 1..];
  }

  lemma {:induction false} NameBeforeAntisymmetric(a: string, b: string)
    requires NameBefore(a, b) && NameBefore(b, a)
    ensures a == b
  {
    if a != [] && b != [] {
      NameBeforeAntisymmetric(a[1..], b[1..]);
      assert a == [a[0]] + a[1..] && b == [b[0]] + b[1..];
    }
  }

  lemma SortedTail(ps: seq<Param>)
    requires SortedByName(ps) && ps != []
    ensures SortedByName(ps[1..])
  {
    forall i, j | 0 <= i < j < |ps[1..]| ensures NameBefore(ps[1..][i].name, ps[1..][j].name) {
      assert ps[1..][i] == ps[i + 1] && ps[1..][j] == ps[j + 1];
    }
  }

  /** Two sorted lists with the same entries start with the same entry when names are unique. */
  lemma SortedSameHead(a: seq<Param>, b: seq<Param>)
    requires SortedByName(a) && SortedByName(b) && multiset(a) == multiset(b) && a != []
    requires forall i, j :: 0 <= i < j < |b| ==> b[i].name != b[j].name
    ensures b != [] && a[0] == b[0]
  {
    assert a[0] in multiset(b);
    assert b != [] && b[0] in multiset(a);
    var i :| 0 <= i < |b| && b[i] == a[0];
    var j :| 0 <= j < |a| && a[j] == b[0];
    if a[0] != b[0] {
      assert i > 0 && j > 0;
      assert NameBefore(b[0].name, b[i].name);
      assert NameBefore(a[0].name, a[j].name);
      NameBeforeAntisymmetric(a[0].name, b[0].name);
      assert false;
    }
  }

  lemma MultisetTails(a: seq<Param>, b: seq<Param>)
    requires a != [] && b != [] && a[0] == b[0] && multiset(a) == multiset(b)
    ensures multiset(a[1..]) == multiset(b[1..])
  {
    assert a == [a[0]] + a[1..] && b == [b[0]] + b[1..];
    assert multiset(a) == multiset{a[0]} + multiset(a[1..]);
    assert multiset(b) == multiset{b[0]} + multiset(b[1..]);
    forall x ensures multiset(a[1..])[x] == multiset(b[1..])[x] {
      assert multiset(a)[x] == multiset{a[0]}[x] + multiset(a[1..])[x];
      assert multiset(b)[x] == multiset{b[0]}[x] + multiset(b[1..])[x];
    }
  }

  /** Two lists sorted by name with the same entries, no two sharing a name, are equal. */
  lemma {:induction false} SortedUnique(a: seq<Param>, b: seq<Param>)
    requires SortedByName(a) && SortedByName(b) && multiset(a) == multiset(b)
    requires forall i, j :: 0 <= i < j < |b| ==> b[i].name != b[j].name
    ensures a == b
  {
    if a != [] {
      SortedSameHead(a, b);
      MultisetTails(a, b);
      SortedTail(a);
      SortedTail(b);
      forall i, j | 0 <= i < j < |b[1..]| ensures b[1..][i].name != b[1..][j].name {
        assert b[1..][i] == b[i + 1] && b[1..][j] == b[j + 1];
      }
      SortedUnique(a[1..], b[1..]);
      assert a == [a[0]] + a[1..] && b == [b[0]] + b[1..];
    } else {
      assert multiset(b) == multiset{};
    }
  }

  /** Fields outside a non-empty whitelist contribute nothing, whatever was collected before. */
  lemma {:induction false} ExposedSkipAll(a: seq<FieldDecl>, b: seq<FieldDecl>, w: seq<string>, d: map<string, string>, done: set<string>)
    requires w != [] && forall i | 0 <= i < |a| :: a[i].key !in w
    ensures Exposed(a + b, w, d, done) == Exposed(b, w, d, done)
  {
    if a != [] {
      assert (a + b)[0] == a[0] && !Exposes(w, a[0]);
      assert (a + b)[1..] == a[1..] + b;
      forall i | 0 <= i < |a[1..]| ensures a[1..][i].key !in w {
        assert a[1..][i] == a[i + 1];
      }
      ExposedSkipAll(a[1..], b, w, d, done);
    } else {
      assert a + b == b;
    }
  }

  /** A whitelist naming `x` and `y` but no other inherited field: those two come first. */
  lemma ExposedWithOrigin(w: seq<string>, d: map<string, string>, own: seq<FieldDecl>)
    requires "x" in w && "y" in w
    requires forall i | 2 <= i < |BaseFields| :: BaseFields[i].key !in w
    ensures Exposed(BaseFields + own, w, d, {})
         == [ToParam(BaseFields[0], d), ToParam(BaseFields[1], d)] + Exposed(own, w, d, {"x", "y"})
  {
    var fs := BaseFields + own;
    assert fs[0] == BaseFields[0] && fs[1] == BaseFields[1];
    assert Exposes(w, fs[0]) && Exposes(w, fs[1]);
    assert fs[1..][0] == fs[1];
    assert fs[1..][1..] == BaseFields[2..] + own;
    assert {"x"} + {"y"} == {"x", "y"} && {} + {"x"} == {"x"};
    assert Exposed(fs, w, d, {}) == [ToParam(fs[0], d)] + Exposed(fs[1..], w, d, {"x"});
    assert Exposed(fs[1..], w, d, {"x"}) == [ToParam(fs[1], d)] + Exposed(BaseFields[2..] + own, w, d, {"x", "y"});
    forall i | 0 <= i < |BaseFields[2..]| ensures BaseFields[2..][i].key !in w {
      assert BaseFields[2..][i] == BaseFields[i + 2];
    }
    ExposedSkipAll(BaseFields[2..], own, w, d, {"x", "y"});
  }

  /** A whitelist naming no inherited field: only the subclass's own fields can be exposed. */
  lemma ExposedWithoutOrigin(w: seq<string>, d: map<string, string>, own: seq<FieldDecl>)
    requires w != [] && "x" !in w && "y" !in w
    requires forall i | 2 <= i < |BaseFields| :: BaseFields[i].key !in w
    ensures Exposed(BaseFields + own, w, d, {}) == Exposed(own, w, d, {})
  {
    assert forall i | 0 <= i < |BaseFields| :: BaseFields[i].key !in w by {
      forall i | 0 <= i < |BaseFields| ensures BaseFields[i].key !in w {
        if i >= 2 { }
      }
    }
    ExposedSkipAll(BaseFields, own, w, d, {});
  }

  /** With the origin hidden, a kind whose own fields all pass exposes exactly those fields. */
  lemma OwnExposedAlone(w: seq<string>, d: map<string, string>, own: seq<FieldDecl>)
    requires w != [] && "x" !in w && "y" !in w
    requires forall i | 2 <= i < |BaseFields| :: BaseFields[i].key !in w
    requires forall i | 0 <= i < |own| :: Exposes(w, own[i]) && own[i].key !in {}
    requires forall i, j | 0 <= i < j < |own| :: own[i].key != own[j].key
    ensures Exposed(BaseFields + own, w, d, {}) == ToParams(own, d)
  {
    ExposedAll(own, w, d, {});
    ExposedWithoutOrigin(w, d, own);
  }

  /** As above, when the first own field is filtered out and the rest pass. */
  lemma TailExposedAlone(w: seq<string>, d: map<string, string>, own: seq<FieldDecl>)
    requires w != [] && "x" !in w && "y" !in w && own != [] && !Exposes(w, own[0])
    requires forall i | 2 <= i < |BaseFields| :: BaseFields[i].key !in w
    requires forall i | 0 <= i < |own[1..]| :: Exposes(w, own[1..][i]) && own[1..][i].key !in {}
    requires forall i, j | 0 <= i < j < |own[1..]| :: own[1..][i].key != own[1..][j].key
    ensures Exposed(BaseFields + own, w, d, {}) == ToParams(own[1..], d)
  {
    ExposedAt(own, 0, w, d, {});
    assert own[0..] == own;
    ExposedAll(own[1..], w, d, {});
    ExposedWithoutOrigin(w, d, own);
  }

  /** Each name comes strictly before the next one. */
  predicate StrictlyAscending(ps: seq<Param>)
  {
    forall i | 0 <= i < |ps| - 1 :: NameBefore(ps[i].name, ps[i + 1].name) && ps[i].name != ps[i + 1].name
  }

  lemma {:induction false} StrictlyAscendingSorted(ps: seq<Param>)
    requires StrictlyAscending(ps)
    ensures SortedByName(ps)
    ensures forall i, j :: 0 <= i < j < |ps| ==> ps[i].name != ps[j].name
  {
    if |ps| > 1 {
      var tl := ps[1..];
      assert StrictlyAscending(tl) by {
        forall i | 0 <= i < |tl| - 1 ensures NameBefore(tl[i].name, tl[i + 1].name) && tl[i].name != tl[i + 1].name {
          assert tl[i] == ps[i + 1] && tl[i + 1] == ps[i + 2];
        }
      }
      StrictlyAscendingSorted(tl);
      forall j | 1 <= j < |ps| ensures NameBefore(ps[0].name, ps[j].name) && ps[0].name != ps[j].name {
        assert ps[j] == tl[j - 1];
        if j > 1 {
          assert NameBefore(ps[1].name, ps[j].name) by { assert ps[1] == tl[0]; }
          NameBeforeTransitive(ps[0].name, ps[1].name, ps[j].name);
          if ps[0].name == ps[j].name {
            NameBeforeAntisymmetric(ps[0].name, ps[1].name);
          }
        }
      }
      forall i, j | 0 <= i < j < |ps| ensures NameBefore(ps[i].name, ps[j].name) && ps[i].name != ps[j].name {
        if i > 0 { assert ps[i] == tl[i - 1] && ps[j] == tl[j - 1]; }
      }
    }
  }

  lemma TableAscending(k: Kind, d: map<string, string>)
    ensures StrictlyAscending(Table(k, d))
  {
    match k
    case Rectangle => RectangleAscending(d);
    case Circle => CircleAscending(d);
    case Line => LineAscending(d);
    case Triangle => TriangleAscending(d);
    case Spline => SplineAscending(d);
    case Brush => BrushAscending(d);
    case Custom | Field | LayerObject =>
  }

  lemma RectangleAscending(d: map<string, string>)
    ensures StrictlyAscending(Table(Rectangle, d))
  {
    var t := Table(Rectangle, d);
    assert NameBefore(t[0].name, t[1].name) && t[0].name != t[1].name;
    assert NameBefore(t[1].name, t[2].name) && t[1].name != t[2].name;
    assert NameBefore(t[2].name, t[3].name) && t[2].name != t[3].name;
    assert NameBefore(t[3].name, t[4].name) && t[3].name != t[4].name;
  }

  lemma CircleAscending(d: map<string, string>)
    ensures StrictlyAscending(Table(Circle, d))
  {
    var t := Table(Circle, d);
    assert NameBefore(t[0].name, t[1].name) && t[0].name != t[1].name;
    assert NameBefore(t[1].name, t[2].name) && t[1].name != t[2].name;
    assert NameBefore(t[2].name, t[3].name) && t[2].name != t[3].name;
  }

  lemma LineAscending(d: map<string, string>)
    ensures StrictlyAscending(Table(Line, d))
  {
    var t := Table(Line, d);
    assert NameBefore(t[0].name, t[1].name) && t[0].name != t[1].name;
    assert NameBefore(t[1].name, t[2].name) && t[1].name != t[2].name;
    assert NameBefore(t[2].name, t[3].name) && t[2].name != t[3].name;
  }

  lemma TriangleAscending(d: map<string, string>)
    ensures StrictlyAscending(Table(Triangle, d))
  {
    var t := Table(Triangle, d);
    assert NameBefore(t[0].name, t[1].name) && t[0].name != t[1].name;
    assert NameBefore(t[1].name, t[2].name) && t[1].name != t[2].name;
    assert NameBefore(t[2].name, t[3].name) && t[2].name != t[3].name;
    assert NameBefore(t[3].name, t[4].name) && t[3].name != t[4].name;
    assert NameBefore(t[4].name, t[5].name) && t[4].name != t[5].name;
    assert NameBefore(t[5].name, t[6].name) && t[5].name != t[6].name;
  }

  lemma SplineAscending(d: map<string, string>)
    ensures StrictlyAscending(Table(Spline, d))
  {
    var t := Table(Spline, d);
    assert NameBefore(t[0].name, t[1].name) && t[0].name != t[1].name;
    assert NameBefore(t[1].name, t[2].name) && t[1].name != t[2].name;
  }

  lemma BrushAscending(d: map<string, string>)
    ensures StrictlyAscending(Table(Brush, d))
  {
    var t := Table(Brush, d);
    assert NameBefore(t[0].name, t[1].name) && t[0].name != t[1].name;
    assert NameBefore(t[1].name, t[2].name) && t[1].name != t[2].name;
  }

  /** Every table lists its names in strictly ascending order, so no name appears twice. */
  lemma TableStrictlySorted(k: Kind, d: map<string, string>)
    ensures SortedByName(Table(k, d))
    ensures forall i, j :: 0 <= i < j < |Table(k, d)| ==> Table(k, d)[i].name != Table(k, d)[j].name
  {
    TableAscending(k, d);
    StrictlyAscendingSorted(Table(k, d));
  }

  /** No whitelisted name starts like an inherited field from `parent` on. */
  lemma HiddenByInitial(w: seq<string>)
    requires forall j | 0 <= j < |w| :: w[j] != [] && w[j][0] in "cxyhrwstA"
    ensures forall i | 2 <= i < |BaseFields| :: BaseFields[i].key !in w
  {
    forall i | 2 <= i < |BaseFields| ensures BaseFields[i].key !in w {
      assert BaseFields[i].key[0] !in "cxyhrwstA";
    }
  }

  lemma InheritedHidden(k: Kind)
    ensures forall i | 2 <= i < |BaseFields| :: BaseFields[i].key !in Whitelist(k)
  {
    HiddenByInitial(Whitelist(k));
  }

  /** The parameters of `fs`, in order. */
  function ToParams(fs: seq<FieldDecl>, d: map<string, string>): (r: seq<Param>)
    ensures |r| == |fs| && forall i | 0 <= i < |fs| :: r[i] == ToParam(fs[i], d)
  {
    seq(|fs|, i requires 0 <= i < |fs| => ToParam(fs[i], d))
  }

  /** Fields that all pass the filter, under different names, are all exposed in order. */
  lemma {:induction false} ExposedAll(fs: seq<FieldDecl>, w: seq<string>, d: map<string, string>, done: set<string>)
    requires forall i | 0 <= i < |fs| :: Exposes(w, fs[i]) && fs[i].key !in done
    requires forall i, j | 0 <= i < j < |fs| :: fs[i].key != fs[j].key
    ensures Exposed(fs, w, d, done) == ToParams(fs, d)
  {
    if fs != [] {
      var tl := fs[1..];
      forall i | 0 <= i < |tl| ensures Exposes(w, tl[i]) && tl[i].key !in done + {fs[0].key} {
        assert tl[i] == fs[i + 1];
      }
      forall i, j | 0 <= i < j < |tl| ensures tl[i].key != tl[j].key {
        assert tl[i] == fs[i + 1] && tl[j] == fs[j + 1];
      }
      ExposedAll(tl, w, d, done + {fs[0].key});
      assert ToParams(fs, d) == [ToParam(fs[0], d)] + ToParams(tl, d);
    }
  }

  lemma RectangleFilter()
    ensures forall i | 0 <= i < |OwnFields(Rectangle)| :: Exposes(Whitelist(Rectangle), OwnFields(Rectangle)[i]) && OwnFields(Rectangle)[i].key !in {"x", "y"}
    ensures forall i, j | 0 <= i < j < |OwnFields(Rectangle)| :: OwnFields(Rectangle)[i].key != OwnFields(Rectangle)[j].key
  {
  }

  lemma RectangleExposedFields(d: map<string, string>)
    ensures Exposed(Fields(Rectangle), Whitelist(Rectangle), d, {}) == [ToParam(BaseFields[0], d), ToParam(BaseFields[1], d)] + ToParams(OwnFields(Rectangle), d)
  {
    var w, own := Whitelist(Rectangle), OwnFields(Rectangle);
    RectangleFilter();
    InheritedHidden(Rectangle);
    ExposedAll(own, w, d, {"x", "y"});
    ExposedWithOrigin(w, d, own);
  }

  lemma RectangleExposed(d: map<string, string>)
    ensures Exposed(Fields(Rectangle), Whitelist(Rectangle), d, {}) == [Table(Rectangle, d)[3], Table(Rectangle, d)[4], Table(Rectangle, d)[0], Table(Rectangle, d)[2], Table(Rectangle, d)[1]]
  {
    var t, own := Table(Rectangle, d), OwnFields(Rectangle);
    RectangleExposedFields(d);
    assert ToParam(own[0], d) == t[0];
    assert ToParam(own[1], d) == t[2];
    assert ToParam(own[2], d) == t[1];
    assert ToParam(BaseFields[0], d) == t[3] && ToParam(BaseFields[1], d) == t[4];
  }

  lemma RectangleParams(d: map<string, string>)
    ensures SortByName(Exposed(Fields(Rectangle), Whitelist(Rectangle), d, {})) == Table(Rectangle, d)
  {
    RectangleExposed(d);
    var t := Table(Rectangle, d);
    var e := [t[3], t[4], t[0], t[2], t[1]];
    assert t == [t[0], t[1], t[2], t[3], t[4]];
    RectangleOrder(t[0], t[1], t[2], t[3], t[4]);
    TableStrictlySorted(Rectangle, d);
    SortedUnique(SortByName(e), t);
  }

  lemma CircleFilter()
    ensures forall i | 0 <= i < |OwnFields(Circle)| :: Exposes(Whitelist(Circle), OwnFields(Circle)[i]) && OwnFields(Circle)[i].key !in {"x", "y"}
    ensures forall i, j | 0 <= i < j < |OwnFields(Circle)| :: OwnFields(Circle)[i].key != OwnFields(Circle)[j].key
  {
  }

  lemma CircleExposedFields(d: map<string, string>)
    ensures Exposed(Fields(Circle), Whitelist(Circle), d, {}) == [ToParam(BaseFields[0], d), ToParam(BaseFields[1], d)] + ToParams(OwnFields(Circle), d)
  {
    var w, own := Whitelist(Circle), OwnFields(Circle);
    CircleFilter();
    InheritedHidden(Circle);
    ExposedAll(own, w, d, {"x", "y"});
    ExposedWithOrigin(w, d, own);
  }

  lemma CircleExposed(d: map<string, string>)
    ensures Exposed(Fields(Circle), Whitelist(Circle), d, {}) == [Table(Circle, d)[2], Table(Circle, d)[3], Table(Circle, d)[0], Table(Circle, d)[1]]
  {
    var t, own := Table(Circle, d), OwnFields(Circle);
    CircleExposedFields(d);
    assert ToParam(own[0], d) == t[0];
    assert ToParam(own[1], d) == t[1];
    assert ToParam(BaseFields[0], d) == t[2] && ToParam(BaseFields[1], d) == t[3];
  }

  lemma CircleParams(d: map<string, string>)
    ensures SortByName(Exposed(Fields(Circle), Whitelist(Circle), d, {})) == Table(Circle, d)
  {
    CircleExposed(d);
    var t := Table(Circle, d);
    var e := [t[2], t[3], t[0], t[1]];
    assert t == [t[0], t[1], t[2], t[3]];
    assert multiset(e) == multiset(t);
    TableStrictlySorted(Circle, d);
    SortedUnique(SortByName(e), t);
  }

  lemma LineFilter()
    ensures forall i | 0 <= i < |OwnFields(Line)| :: Exposes(Whitelist(Line), OwnFields(Line)[i]) && OwnFields(Line)[i].key !in {"x", "y"}
    ensures forall i, j | 0 <= i < j < |OwnFields(Line)| :: OwnFields(Line)[i].key != OwnFields(Line)[j].key
  {
  }

  lemma LineExposedFields(d: map<string, string>)
    ensures Exposed(Fields(Line), Whitelist(Line), d, {}) == [ToParam(BaseFields[0], d), ToParam(BaseFields[1], d)] + ToParams(OwnFields(Line), d)
  {
    var w, own := Whitelist(Line), OwnFields(Line);
    LineFilter();
    InheritedHidden(Line);
    ExposedAll(own, w, d, {"x", "y"});
    ExposedWithOrigin(w, d, own);
  }

  lemma LineExposed(d: map<string, string>)
    ensures Exposed(Fields(Line), Whitelist(Line), d, {}) == [Table(Line, d)[0], Table(Line, d)[2], Table(Line, d)[1], Table(Line, d)[3]]
  {
    var t, own := Table(Line, d), OwnFields(Line);
    LineExposedFields(d);
    assert ToParam(own[0], d) == t[1];
    assert ToParam(own[1], d) == t[3];
    assert ToParam(BaseFields[0], d) == t[0] && ToParam(BaseFields[1], d) == t[2];
  }

  lemma LineParams(d: map<string, string>)
    ensures SortByName(Exposed(Fields(Line), Whitelist(Line), d, {})) == Table(Line, d)
  {
    LineExposed(d);
    var t := Table(Line, d);
    var e := [t[0], t[2], t[1], t[3]];
    assert t == [t[0], t[1], t[2], t[3]];
    assert multiset(e) == multiset(t);
    TableStrictlySorted(Line, d);
    SortedUnique(SortByName(e), t);
  }

  lemma TriangleFilter()
    ensures forall i | 0 <= i < |OwnFields(Triangle)| :: Exposes(Whitelist(Triangle), OwnFields(Triangle)[i]) && OwnFields(Triangle)[i].key !in {}
    ensures forall i, j | 0 <= i < j < |OwnFields(Triangle)| :: OwnFields(Triangle)[i].key != OwnFields(Triangle)[j].key
  {
  }

  lemma TriangleExposedFields(d: map<string, string>)
    ensures Exposed(Fields(Triangle), Whitelist(Triangle), d, {}) == ToParams(OwnFields(Triangle), d)
  {
    var w, own := Whitelist(Triangle), OwnFields(Triangle);
    TriangleFilter();
    InheritedHidden(Triangle);
    OwnExposedAlone(w, d, own);
  }

  lemma TriangleExposed(d: map<string, string>)
    ensures Exposed(Fields(Triangle), Whitelist(Triangle), d, {}) == [Table(Triangle, d)[0], Table(Triangle, d)[1], Table(Triangle, d)[4], Table(Triangle, d)[2], Table(Triangle, d)[5], Table(Triangle, d)[3], Table(Triangle, d)[6]]
  {
    var t, own := Table(Triangle, d), OwnFields(Triangle);
    TriangleExposedFields(d);
    assert ToParam(own[0], d) == t[0];
    assert ToParam(own[1], d) == t[1];
    assert ToParam(own[2], d) == t[4];
    assert ToParam(own[3], d) == t[2];
    assert ToParam(own[4], d) == t[5];
    assert ToParam(own[5], d) == t[3];
    assert ToParam(own[6], d) == t[6];
  }

  lemma TriangleOrder(t: seq<Param>)
    requires |t| == 7
    ensures multiset([t[0], t[1], t[4], t[2], t[5], t[3], t[6]]) == multiset(t)
  {
    var m, n := [t[4], t[2], t[5], t[3]], [t[2], t[3], t[4], t[5]];
    assert [t[0], t[1], t[4], t[2], t[5], t[3], t[6]] == t[..2] + m + t[6..];
    assert t == t[..2] + n + t[6..];
    TriangleMiddle(t[2], t[3], t[4], t[5]);
    SameMiddle(t[..2], m, n, t[6..]);
  }

  /** Replacing the middle part by one with the same entries keeps the entries. */
  lemma SameMiddle(p: seq<Param>, m: seq<Param>, n: seq<Param>, q: seq<Param>)
    requires multiset(m) == multiset(n)
    ensures multiset(p + m + q) == multiset(p + n + q)
  {
  }

  lemma TriangleMiddle(c: Param, d: Param, e: Param, f: Param)
    ensures multiset([e, c, f, d]) == multiset([c, d, e, f])
  {
    forall x ensures multiset([e, c, f, d])[x] == multiset([c, d, e, f])[x] {
      Count4(e, c, f, d, x);
      Count4(c, d, e, f, x);
    }
  }

  lemma Count4(a: Param, b: Param, c: Param, d: Param, x: Param)
    ensures multiset([a, b, c, d])[x]
         == (if x == a then 1 else 0) + (if x == b then 1 else 0) + (if x == c then 1 else 0) + (if x == d then 1 else 0)
  {
  }

  lemma RectangleOrder(a: Param, b: Param, c: Param, d: Param, e: Param)
    ensures multiset([d, e, a, c, b]) == multiset([a, b, c, d, e])
  {
    assert [d, e, a, c, b] == [d, e] + [a, c, b];
    assert [a, c, b] + [d, e] == [a] + [c, b] + [d, e];
    assert [a] + [b, c] + [d, e] == [a, b, c, d, e];
    SwapPair(c, b);
    RotateThenSwap([d, e, a, c, b], [d, e], [a, c, b], [a], [c, b], [b, c], [d, e], [a, b, c, d, e]);
  }

  lemma SwapPair(x: Param, y: Param)
    ensures multiset([x, y]) == multiset([y, x])
  {
  }

  /** Moving a front part to the back and then reordering a middle part keeps the entries. */
  lemma RotateThenSwap(s: seq<Param>, p: seq<Param>, q: seq<Param>, r: seq<Param>, m: seq<Param>, n: seq<Param>,
                       u: seq<Param>, t: seq<Param>)
    requires s == p + q && q + p == r + m + u && r + n + u == t && multiset(m) == multiset(n)
    ensures multiset(s) == multiset(t)
  {
    SwapParts(p, q);
    SameMiddle(r, m, n, u);
  }

  /** Exchanging two parts keeps the entries. */
  lemma SwapParts(p: seq<Param>, q: seq<Param>)
    ensures multiset(p + q) == multiset(q + p)
  {
  }

  lemma TriangleParams(d: map<string, string>)
    ensures SortByName(Exposed(Fields(Triangle), Whitelist(Triangle), d, {})) == Table(Triangle, d)
  {
    TriangleExposed(d);
    var t := Table(Triangle, d);
    TriangleOrder(t);
    TableStrictlySorted(Triangle, d);
    SortedUnique(SortByName([t[0], t[1], t[4], t[2], t[5], t[3], t[6]]), t);
  }

  lemma SplineFilter()
    ensures forall i | 0 <= i < |OwnFields(Spline)[1..]| :: Exposes(Whitelist(Spline), OwnFields(Spline)[1..][i]) && OwnFields(Spline)[1..][i].key !in {}
    ensures forall i, j | 0 <= i < j < |OwnFields(Spline)[1..]| :: OwnFields(Spline)[1..][i].key != OwnFields(Spline)[1..][j].key
  {
  }

  lemma SplineExposedFields(d: map<string, string>)
    ensures Exposed(Fields(Spline), Whitelist(Spline), d, {}) == ToParams(OwnFields(Spline)[1..], d)
  {
    var w, own := Whitelist(Spline), OwnFields(Spline);
    SplineFilter();
    InheritedHidden(Spline);
    assert !Exposes(w, own[0]);
    TailExposedAlone(w, d, own);
  }

  lemma SplineExposed(d: map<string, string>)
    ensures Exposed(Fields(Spline), Whitelist(Spline), d, {}) == [Table(Spline, d)[0], Table(Spline, d)[2], Table(Spline, d)[1]]
  {
    var t, own := Table(Spline, d), OwnFields(Spline);
    SplineExposedFields(d);
    assert ToParam(own[1], d) == t[0];
    assert ToParam(own[2], d) == t[2];
    assert ToParam(own[3], d) == t[1];
  }

  lemma SplineParams(d: map<string, string>)
    ensures SortByName(Exposed(Fields(Spline), Whitelist(Spline), d, {})) == Table(Spline, d)
  {
    SplineExposed(d);
    var t := Table(Spline, d);
    var e := [t[0], t[2], t[1]];
    assert t == [t[0], t[1], t[2]];
    assert multiset(e) == multiset(t);
    TableStrictlySorted(Spline, d);
    SortedUnique(SortByName(e), t);
  }

  lemma CustomFilter()
    ensures forall i | 0 <= i < |OwnFields(Custom)| :: Exposes(Whitelist(Custom), OwnFields(Custom)[i]) && OwnFields(Custom)[i].key !in {}
  {
  }

  lemma CustomExposedFields(d: map<string, string>)
    ensures Exposed(Fields(Custom), Whitelist(Custom), d, {}) == ToParams(OwnFields(Custom), d)
  {
    var w, own := Whitelist(Custom), OwnFields(Custom);
    CustomFilter();
    InheritedHidden(Custom);
    ExposedAll(own, w, d, {});
    ExposedWithoutOrigin(w, d, own);
  }

  lemma CustomExposed(d: map<string, string>)
    ensures Exposed(Fields(Custom), Whitelist(Custom), d, {}) == [Table(Custom, d)[0]]
  {
    var t, own := Table(Custom, d), OwnFields(Custom);
    CustomExposedFields(d);
    assert ToParam(own[0], d) == t[0];
  }

  lemma CustomParams(d: map<string, string>)
    ensures SortByName(Exposed(Fields(Custom), Whitelist(Custom), d, {})) == Table(Custom, d)
  {
    CustomExposed(d);
    var t := Table(Custom, d);
    var e := [t[0]];
    assert t == [t[0]];
    assert multiset(e) == multiset(t);
    TableStrictlySorted(Custom, d);
    SortedUnique(SortByName(e), t);
  }

  lemma BrushFilter()
    ensures forall i | 0 <= i < |OwnFields(Brush)| :: Exposes(Whitelist(Brush), OwnFields(Brush)[i]) && OwnFields(Brush)[i].key !in {}
    ensures forall i, j | 0 <= i < j < |OwnFields(Brush)| :: OwnFields(Brush)[i].key != OwnFields(Brush)[j].key
  {
  }

  lemma BrushExposedFields(d: map<string, string>)
    ensures Exposed(Fields(Brush), Whitelist(Brush), d, {}) == ToParams(OwnFields(Brush), d)
  {
    var w, own := Whitelist(Brush), OwnFields(Brush);
    BrushFilter();
    InheritedHidden(Brush);
    ExposedAll(own, w, d, {});
    ExposedWithoutOrigin(w, d, own);
  }

  lemma BrushExposed(d: map<string, string>)
    ensures Exposed(Fields(Brush), Whitelist(Brush), d, {}) == [Table(Brush, d)[2], Table(Brush, d)[0], Table(Brush, d)[1]]
  {
    var t, own := Table(Brush, d), OwnFields(Brush);
    BrushExposedFields(d);
    assert ToParam(own[0], d) == t[2];
    assert ToParam(own[1], d) == t[0];
    assert ToParam(own[2], d) == t[1];
  }

  lemma BrushParams(d: map<string, string>)
    ensures SortByName(Exposed(Fields(Brush), Whitelist(Brush), d, {})) == Table(Brush, d)
  {
    BrushExposed(d);
    var t := Table(Brush, d);
    var e := [t[2], t[0], t[1]];
    assert t == [t[0], t[1], t[2]];
    assert multiset(e) == multiset(t);
    TableStrictlySorted(Brush, d);
    SortedUnique(SortByName(e), t);
  }

  lemma FieldFilter()
    ensures forall i | 0 <= i < |OwnFields(Field)| :: Exposes(Whitelist(Field), OwnFields(Field)[i]) && OwnFields(Field)[i].key !in {}
  {
  }

  lemma FieldExposedFields(d: map<string, string>)
    ensures Exposed(Fields(Field), Whitelist(Field), d, {}) == ToParams(OwnFields(Field), d)
  {
    var w, own := Whitelist(Field), OwnFields(Field);
    FieldFilter();
    InheritedHidden(Field);
    ExposedAll(own, w, d, {});
    ExposedWithoutOrigin(w, d, own);
  }

  lemma FieldExposed(d: map<string, string>)
    ensures Exposed(Fields(Field), Whitelist(Field), d, {}) == [Table(Field, d)[0]]
  {
    var t, own := Table(Field, d), OwnFields(Field);
    FieldExposedFields(d);
    assert ToParam(own[0], d) == t[0];
  }

  lemma FieldParams(d: map<string, string>)
    ensures SortByName(Exposed(Fields(Field), Whitelist(Field), d, {})) == Table(Field, d)
  {
    FieldExposed(d);
    var t := Table(Field, d);
    var e := [t[0]];
    assert t == [t[0]];
    assert multiset(e) == multiset(t);
    TableStrictlySorted(Field, d);
    SortedUnique(SortByName(e), t);
  }

  lemma LayerObjectFilter()
    ensures forall i | 0 <= i < |OwnFields(LayerObject)| :: Exposes(Whitelist(LayerObject), OwnFields(LayerObject)[i]) && OwnFields(LayerObject)[i].key !in {}
  {
  }

  lemma LayerObjectExposedFields(d: map<string, string>)
    ensures Exposed(Fields(LayerObject), Whitelist(LayerObject), d, {}) == ToParams(OwnFields(LayerObject), d)
  {
    var w, own := Whitelist(LayerObject), OwnFields(LayerObject);
    LayerObjectFilter();
    InheritedHidden(LayerObject);
    ExposedAll(own, w, d, {});
    ExposedWithoutOrigin(w, d, own);
  }

  lemma LayerObjectExposed(d: map<string, string>)
    ensures Exposed(Fields(LayerObject), Whitelist(LayerObject), d, {}) == [Table(LayerObject, d)[0]]
  {
    var t, own := Table(LayerObject, d), OwnFields(LayerObject);
    LayerObjectExposedFields(d);
    assert ToParam(own[0], d) == t[0];
  }

  lemma LayerObjectParams(d: map<string, string>)
    ensures SortByName(Exposed(Fields(LayerObject), Whitelist(LayerObject), d, {})) == Table(LayerObject, d)
  {
    LayerObjectExposed(d);
    var t := Table(LayerObject, d);
    var e := [t[0]];
    assert t == [t[0]];
    assert multiset(e) == multiset(t);
    TableStrictlySorted(LayerObject, d);
    SortedUnique(SortByName(e), t);
  }

  /**
   * The explicit tables are exactly what the reflection loop and the sort
   * produce for a fresh instance of each registered type.
   */
  lemma ParamTableIsGetParams(k: Kind)
    ensures SortByName(Exposed(Fields(k), Whitelist(k), ParamDescriptions(k), {})) == ParamTable(k)
  {
    var d := ParamDescriptions(k);
    match k
    case Rectangle => RectangleParams(d);
    case Circle => CircleParams(d);
    case Line => LineParams(d);
    case Triangle => TriangleParams(d);
    case Spline => SplineParams(d);
    case Custom => CustomParams(d);
    case Brush => BrushParams(d);
    case Field => FieldParams(d);
    case LayerObject => LayerObjectParams(d);
  }
}
