/**
 * Scene objects (src/services/classes/vectors/): the state a statement
 * builds, and the two pieces of geometry the Flip and Mirror modifiers
 * call, `flip` and `cloneAndReflect`.
 *
 * Coordinates are `Value`s; arithmetic is exact over `real`, and an
 * operand that is not a number makes the result `NaN`.  That is what
 * JavaScript gives for `NaN`, `undefined` and non-numeric text; a numeric
 * string such as `"5"` would be coerced to its number instead (and `+`
 * would concatenate it), which this model does not follow.
 */
module Scene {
  import opened Wrappers
  import opened Values
  import opened Kinds

  /** The argument of `flip` and the `axis` of `cloneAndReflect`. */
  datatype Direction = Horizontal | Vertical

  /** One spline point `{x, y, p?}`. */
  datatype Point = Point(x: Value, y: Value, p: Option<Value>)

  /** The `fill` record of a shape that can be filled. */
  datatype FillSlot = FillSlot(color: Option<string>, opacity: Value, bleed: Value, bleedDir: string)

  /** `{ color: null, opacity: 255, bleed: 0.1, bleedDir: 'out' }`. */
  const DefaultFill: FillSlot := FillSlot(None, Num(255.0), Num(0.1), "out")

  /** The `layer` record `{name, p: undefined}` the Layer modifier assigns. */
  datatype LayerRef = LayerRef(name: string)

  /** The point a Mirror reflects about. */
  datatype Origin = Origin(x: Value, y: Value)

  /** The fields of an object besides its coordinates and points. */
  datatype Attrs = Attrs(name: string, parent: SceneObject?, layer: Option<LayerRef>,
                         mirroredObject: SceneObject?, isCloneable: bool, fill: Option<FillSlot>)

  /** Everything about an object that can change: its data fields, its points and its attributes. */
  datatype Snapshot = Snapshot(props: map<string, Value>, points: seq<Point>, attrs: Attrs)

  /** The `fill` a fresh instance of `k` starts with. */
  function InitialFill(k: Kind): (r: Option<FillSlot>)
    ensures r.Some? <==> HasFill(k)
    ensures r.Some? ==> r.value == DefaultFill
  {
    if HasFill(k) then Some(DefaultFill) else None
  }

  predicate Numeric(v: Value) { v.Num? }

  /** `2 * c - v`, which is also `c - (v - c)`. */
  function Reflect(c: Value, v: Value): Value
  {
    if c.Num? && v.Num? then Num(2.0 * c.n - v.n) else NaN
  }

  /** `(a + b) / 2`, the centre Line's `flip` uses. */
  function Mid(a: Value, b: Value): Value
  {
    if a.Num? && b.Num? then Num((a.n + b.n) / 2.0) else NaN
  }

  /** `(a + b + c) / 3`, the centroid coordinate Triangle's `flip` uses. */
  function Third(a: Value, b: Value, c: Value): Value
  {
    if a.Num? && b.Num? && c.Num? then Num((a.n + b.n + c.n) / 3.0) else NaN
  }

  /** `lo + (hi - lo) / 2`, the bounding-box centre Spline's `flip` uses. */
  function BoxCentre(lo: Value, hi: Value): Value
  {
    if lo.Num? && hi.Num? then Num(lo.n + (hi.n - lo.n) / 2.0) else NaN
  }

  /** Reflecting twice about the same numeric centre restores a numeric value. */
  lemma ReflectTwice(c: Value, v: Value)
    requires c.Num? && v.Num?
    ensures Reflect(c, Reflect(c, v)) == v
  {
  }

  predicate AllNumeric(vs: seq<Value>)
  {
    forall i :: 0 <= i < |vs| ==> vs[i].Num?
  }

  /** `Math.min(...vs)`: the least number, or `NaN` when an entry is not a number. */
  function MinOf(vs: seq<Value>): (r: Value)
    requires vs != []
    ensures r.Num? <==> AllNumeric(vs)
    ensures r.Num? ==> r in vs && forall i :: 0 <= i < |vs| ==> r.n <= vs[i].n
  {
    var head := if vs[0].Num? then vs[0] else NaN;
    if |vs| == 1 then head
    else
      var rest := MinOf(vs[1..]);
      assert forall i :: 1 <= i < |vs| ==> vs[i] == vs[1..][i - 1];
      if head.Num? && rest.Num? then (if head.n <= rest.n then head else rest) else NaN
  }

  /** `Math.max(...vs)`: the greatest number, or `NaN` when an entry is not a number. */
  function MaxOf(vs: seq<Value>): (r: Value)
    requires vs != []
    ensures r.Num? <==> AllNumeric(vs)
    ensures r.Num? ==> r in vs && forall i :: 0 <= i < |vs| ==> vs[i].n <= r.n
  {
    var head := if vs[0].Num? then vs[0] else NaN;
    if |vs| == 1 then head
    else
      var rest := MaxOf(vs[1..]);
      assert forall i :: 1 <= i < |vs| ==> vs[i] == vs[1..][i - 1];
      if head.Num? && rest.Num? then (if head.n >= rest.n then head else rest) else NaN
  }

  function Xs(ps: seq<Point>): (r: seq<Value>)
    ensures |r| == |ps| && forall i :: 0 <= i < |ps| ==> r[i] == ps[i].x
  {
    seq(|ps|, i requires 0 <= i < |ps| => ps[i].x)
  }

  function Ys(ps: seq<Point>): (r: seq<Value>)
    ensures |r| == |ps| && forall i :: 0 <= i < |ps| ==> r[i] == ps[i].y
  {
    seq(|ps|, i requires 0 <= i < |ps| => ps[i].y)
  }

  /** Every point with its x reflected about `c`, keeping `y` and `p`. */
  function ReflectXs(ps: seq<Point>, c: Value): (r: seq<Point>)
    ensures |r| == |ps|
    ensures forall i :: 0 <= i < |ps| ==> r[i] == ps[i].(x := Reflect(c, ps[i].x))
  {
    seq(|ps|, i requires 0 <= i < |ps| => ps[i].(x := Reflect(c, ps[i].x)))
  }

  /** Every point with its y reflected about `c`, keeping `x` and `p`. */
  function ReflectYs(ps: seq<Point>, c: Value): (r: seq<Point>)
    ensures |r| == |ps|
    ensures forall i :: 0 <= i < |ps| ==> r[i] == ps[i].(y := Reflect(c, ps[i].y))
  {
    seq(|ps|, i requires 0 <= i < |ps| => ps[i].(y := Reflect(c, ps[i].y)))
  }

  /** The coordinate fields `flip` rewrites for each kind. */
  predicate HasCoordinates(k: Kind, props: map<string, Value>)
  {
    "x" in props && "y" in props
    && (k == Line ==> "x2" in props && "y2" in props)
    && (k == Triangle ==> "x1" in props && "y1" in props && "x2" in props && "y2" in props
                          && "x3" in props && "y3" in props)
  }

  lemma DefaultsHaveCoordinates(k: Kind, props: map<string, Value>)
    requires props.Keys == Defaults(k).Keys
    ensures HasCoordinates(k, props)
  {
  }

  /**
   * The coordinate fields after `flip(d)`: Line reflects its two x (or
   * two y) values about their midpoint, Triangle its three x (or three y)
   * values about the centroid, and every other kind keeps them.
   */
  function FlipProps(k: Kind, props: map<string, Value>, d: Direction): (r: map<string, Value>)
    requires HasCoordinates(k, props)
    ensures r.Keys == props.Keys
  {
    match k
    case Line =>
      if d == Horizontal then
        var c := Mid(props["x"], props["x2"]);
        props["x" := Reflect(c, props["x"])]["x2" := Reflect(c, props["x2"])]
      else
        var c := Mid(props["y"], props["y2"]);
        props["y" := Reflect(c, props["y"])]["y2" := Reflect(c, props["y2"])]
    case Triangle =>
      if d == Horizontal then
        var c := Third(props["x1"], props["x2"], props["x3"]);
        props["x1" := Reflect(c, props["x1"])]["x2" := Reflect(c, props["x2"])]["x3" := Reflect(c, props["x3"])]
      else
        var c := Third(props["y1"], props["y2"], props["y3"]);
        props["y1" := Reflect(c, props["y1"])]["y2" := Reflect(c, props["y2"])]["y3" := Reflect(c, props["y3"])]
    case _ => props
  }

  /**
   * The points after `flip(d)`: a Spline with points reflects every x (or
   * y) about the centre of their bounding box; nothing else has points to
   * change.
   */
  function FlipPoints(k: Kind, ps: seq<Point>, d: Direction): seq<Point>
  {
    if k != Spline || ps == [] then ps
    else if d == Horizontal then ReflectXs(ps, BoxCentre(MinOf(Xs(ps)), MaxOf(Xs(ps))))
    else ReflectYs(ps, BoxCentre(MinOf(Ys(ps)), MaxOf(Ys(ps))))
  }

  /**
   * The coordinate fields of `cloneAndReflect(origin, axis)`'s result:
   * axis `vertical` reflects `x` (and a Line's `x2`) about `origin.x`,
   * axis `horizontal` reflects `y` (and a Line's `y2`) about `origin.y`.
   */
  function ReflectProps(k: Kind, props: map<string, Value>, o: Origin, axis: Direction): (r: map<string, Value>)
    requires HasCoordinates(k, props)
    ensures r.Keys == props.Keys
  {
    if axis == Vertical then
      var r := props["x" := Reflect(o.x, props["x"])];
      if k == Line then r["x2" := Reflect(o.x, props["x2"])] else r
    else
      var r := props["y" := Reflect(o.y, props["y"])];
      if k == Line then r["y2" := Reflect(o.y, props["y2"])] else r
  }

  /** The points of the reflected clone: a Spline's points reflected about the origin on the axis. */
  function ReflectPoints(k: Kind, ps: seq<Point>, o: Origin, axis: Direction): seq<Point>
  {
    if k != Spline then ps
    else if axis == Vertical then ReflectXs(ps, o.x)
    else ReflectYs(ps, o.y)
  }

  /**
   * A scene object.  `props` holds the data fields parameters write
   * (coordinates, sizes, colour, type, ...), keyed by field name;
   * `points` is the Spline's variadic storage.
   */
  class SceneObject {
    const kind: Kind
    var props: map<string, Value>
    var name: string
    var parent: SceneObject?
    var layer: Option<LayerRef>
    var mirroredObject: SceneObject?
    var isCloneable: bool
    var fill: Option<FillSlot>
    var points: seq<Point>

    /** The object has exactly the data fields its class declares. */
    predicate Valid()
      reads this`props
    {
      props.Keys == Defaults(kind).Keys
    }

    function Attributes(): Attrs
      reads this`name, this`parent, this`layer, this`mirroredObject, this`isCloneable, this`fill
    {
      Attrs(name, parent, layer, mirroredObject, isCloneable, fill)
    }

    function Snap(): Snapshot
      reads this
    {
      Snapshot(props, points, Attributes())
    }

    /** `new T()`: the class's defaults, no name, parent, layer or mirror. */
    constructor(k: Kind)
      ensures Valid() && kind == k && props == Defaults(k) && points == []
      ensures Attributes() == Attrs("", null, None, null, true, InitialFill(k))
    {
      kind := k;
      props := Defaults(k);
      name := "";
      parent := null;
      layer := None;
      mirroredObject := null;
      isCloneable := true;
      fill := InitialFill(k);
      points := [];
    }

    /**
     * `new (this.constructor)()` followed by copying every own field of
     * this object onto it: a new instance of the same class with the
     * same field values (references such as `parent` and
     * `mirroredObject` are shared, not copied).
     */
    method Copy() returns (c: SceneObject)
      requires Valid()
      ensures fresh(c) && c.Valid() && c.kind == kind
      ensures c.props == props && c.points == points && c.Attributes() == Attributes()
    {
      c := new SceneObject(kind);
      c.props, c.points := props, points;
      c.name, c.parent, c.layer := name, parent, layer;
      c.mirroredObject, c.isCloneable, c.fill := mirroredObject, isCloneable, fill;
    }

    /** `flip(direction)`, as each class defines or inherits it. */
    method Flip(d: Direction)
      requires Valid()
      modifies this`props, this`points
      ensures Valid()
      ensures HasCoordinates(kind, old(props))
      ensures props == FlipProps(kind, old(props), d)
      ensures points == FlipPoints(kind, old(points), d)
      ensures Attributes() == old(Attributes())
    {
      DefaultsHaveCoordinates(kind, props);
      match kind
      case Line => FlipLine(d);
      case Triangle => FlipTriangle(d);
      case Spline => FlipSpline(d);
      case _ =>
    }

    /** `Line.flip`: reflect the two x (or two y) values about their midpoint. */
    method FlipLine(d: Direction)
      requires kind == Line && HasCoordinates(kind, props)
      modifies this`props
      ensures props == FlipProps(kind, old(props), d)
    {
      if d == Horizontal {
        var cx := Mid(props["x"], props["x2"]);
        props := props["x" := Reflect(cx, props["x"])];
        props := props["x2" := Reflect(cx, props["x2"])];
      } else {
        var cy := Mid(props["y"], props["y2"]);
        props := props["y" := Reflect(cy, props["y"])];
        props := props["y2" := Reflect(cy, props["y2"])];
      }
    }

    /** `Triangle.flip`: reflect the three x (or three y) values about the centroid. */
    method FlipTriangle(d: Direction)
      requires kind == Triangle && HasCoordinates(kind, props)
      modifies this`props
      ensures props == FlipProps(kind, old(props), d)
    {
      var cx := Third(props["x1"], props["x2"], props["x3"]);
      var cy := Third(props["y1"], props["y2"], props["y3"]);
      if d == Horizontal {
        props := props["x1" := Reflect(cx, props["x1"])]["x2" := Reflect(cx, props["x2"])]["x3" := Reflect(cx, props["x3"])];
      } else {
        props := props["y1" := Reflect(cy, props["y1"])]["y2" := Reflect(cy, props["y2"])]["y3" := Reflect(cy, props["y3"])];
      }
    }

    /** `Spline.flip`: reflect every point's x (or y) about the centre of the points' bounding box. */
    method FlipSpline(d: Direction)
      requires kind == Spline
      modifies this`points
      ensures points == FlipPoints(kind, old(points), d)
    {
      if |points| > 0 {
        var xs, ys := Xs(points), Ys(points);
        var cx := BoxCentre(MinOf(xs), MaxOf(xs));
        var cy := BoxCentre(MinOf(ys), MaxOf(ys));
        if d == Horizontal {
          points := ReflectXs(points, cx);
        } else {
          points := ReflectYs(points, cy);
        }
      }
    }

    /**
     * `cloneAndReflect(origin, axis)`: a new instance of the same class
     * carrying this object's fields, with the coordinates reflected as
     * `ReflectProps`/`ReflectPoints` say.  This object is not changed.
     */
    method CloneAndReflect(o: Origin, axis: Direction) returns (clone: SceneObject)
      requires Valid()
      ensures fresh(clone) && clone.Valid() && clone.kind == kind
      ensures HasCoordinates(kind, props)
      ensures clone.props == ReflectProps(kind, props, o, axis)
      ensures clone.points == ReflectPoints(kind, points, o, axis)
      ensures clone.Attributes() == Attributes()
    {
      DefaultsHaveCoordinates(kind, props);
      clone := Copy();
      clone.ReflectCopy(o, axis);
    }

    /**
     * The assignments `cloneAndReflect` makes to the shallow copy: the base
     * class's `x` or `y`, Line's `x2` or `y2`, Spline's points.
     */
    method ReflectCopy(o: Origin, axis: Direction)
      requires Valid()
      modifies this`props, this`points
      ensures Valid() && HasCoordinates(kind, old(props))
      ensures props == ReflectProps(kind, old(props), o, axis)
      ensures points == ReflectPoints(kind, old(points), o, axis)
    {
      DefaultsHaveCoordinates(kind, props);
      if axis == Vertical {
        props := props["x" := Reflect(o.x, props["x"])];
        if kind == Line {
          props := props["x2" := Reflect(o.x, props["x2"])];
        }
        if kind == Spline {
          points := ReflectXs(points, o.x);
        }
      } else {
        props := props["y" := Reflect(o.y, props["y"])];
        if kind == Line {
          props := props["y2" := Reflect(o.y, props["y2"])];
        }
        if kind == Spline {
          points := ReflectYs(points, o.y);
        }
      }
    }
  }

  // ----- properties of the geometry -----

  /** Every kind but Line, Triangle and Spline inherits the base `flip`, which changes nothing. */
  lemma FlipOfOtherKinds(k: Kind, props: map<string, Value>, ps: seq<Point>, d: Direction)
    requires HasCoordinates(k, props)
    requires k != Line && k != Triangle && k != Spline
    ensures FlipProps(k, props, d) == props && FlipPoints(k, ps, d) == ps
  {
  }

  /**
   * A horizontal Line flip swaps `x` and `x2` and leaves `y`, `y2`; a
   * vertical one swaps `y` and `y2` and leaves `x`, `x2`.  Either keeps
   * the midpoint.
   */
  lemma LineFlipSwaps(props: map<string, Value>, d: Direction)
    requires HasCoordinates(Line, props)
    requires Numeric(props["x"]) && Numeric(props["x2"]) && Numeric(props["y"]) && Numeric(props["y2"])
    ensures var r := FlipProps(Line, props, d);
      if d == Horizontal then
        r == props["x" := props["x2"]]["x2" := props["x"]]
      else
        r == props["y" := props["y2"]]["y2" := props["y"]]
    ensures var r := FlipProps(Line, props, d);
      Mid(r["x"], r["x2"]) == Mid(props["x"], props["x2"]) && Mid(r["y"], r["y2"]) == Mid(props["y"], props["y2"])
  {
  }

  /** Flipping a Line twice in the same direction restores it. */
  lemma LineFlipTwice(props: map<string, Value>, d: Direction)
    requires HasCoordinates(Line, props)
    requires Numeric(props["x"]) && Numeric(props["x2"]) && Numeric(props["y"]) && Numeric(props["y2"])
    ensures FlipProps(Line, FlipProps(Line, props, d), d) == props
  {
    LineFlipSwaps(props, d);
    var r := FlipProps(Line, props, d);
    LineFlipSwaps(r, d);
  }

  predicate TriangleNumeric(props: map<string, Value>)
    requires HasCoordinates(Triangle, props)
  {
    Numeric(props["x1"]) && Numeric(props["x2"]) && Numeric(props["x3"])
    && Numeric(props["y1"]) && Numeric(props["y2"]) && Numeric(props["y3"])
  }

  /**
   * A Triangle flip reflects the three x (horizontal) or three y
   * (vertical) coordinates about the centroid, keeps the other three and
   * the centroid, and a second flip restores the triangle.
   */
  lemma TriangleFlip(props: map<string, Value>, d: Direction)
    requires HasCoordinates(Triangle, props) && TriangleNumeric(props)
    ensures var r := FlipProps(Triangle, props, d);
      HasCoordinates(Triangle, r) && TriangleNumeric(r)
      && Third(r["x1"], r["x2"], r["x3"]) == Third(props["x1"], props["x2"], props["x3"])
      && Third(r["y1"], r["y2"], r["y3"]) == Third(props["y1"], props["y2"], props["y3"])
      && (d == Horizontal ==> r["y1"] == props["y1"] && r["y2"] == props["y2"] && r["y3"] == props["y3"])
      && (d == Vertical ==> r["x1"] == props["x1"] && r["x2"] == props["x2"] && r["x3"] == props["x3"])
      && FlipProps(Triangle, r, d) == props
  {
    var r := FlipProps(Triangle, props, d);
    if d == Horizontal {
      var c := Third(props["x1"], props["x2"], props["x3"]);
      assert Third(r["x1"], r["x2"], r["x3"]) == c;
      assert FlipProps(Triangle, r, d) == r["x1" := Reflect(c, r["x1"])]["x2" := Reflect(c, r["x2"])]["x3" := Reflect(c, r["x3"])];
    } else {
      var c := Third(props["y1"], props["y2"], props["y3"]);
      assert Third(r["y1"], r["y2"], r["y3"]) == c;
      assert FlipProps(Triangle, r, d) == r["y1" := Reflect(c, r["y1"])]["y2" := Reflect(c, r["y2"])]["y3" := Reflect(c, r["y3"])];
    }
  }

  /**
   * Reflecting every value about the centre of their range gives values
   * with the same least and greatest value.
   */
  lemma ReflectedRange(vs: seq<Value>, ws: seq<Value>)
    requires vs != [] && AllNumeric(vs) && |ws| == |vs|
    requires forall i :: 0 <= i < |vs| ==> ws[i] == Reflect(BoxCentre(MinOf(vs), MaxOf(vs)), vs[i])
    ensures AllNumeric(ws) && MinOf(ws) == MinOf(vs) && MaxOf(ws) == MaxOf(vs)
  {
    var lo, hi := MinOf(vs), MaxOf(vs);
    var c := BoxCentre(lo, hi);
    assert c.n == (lo.n + hi.n) / 2.0;
    assert AllNumeric(ws);
    var ilo :| 0 <= ilo < |vs| && vs[ilo] == lo;
    var ihi :| 0 <= ihi < |vs| && vs[ihi] == hi;
    var m, M := MinOf(ws), MaxOf(ws);
    assert ws[ihi].n == lo.n;
    assert ws[ilo].n == hi.n;
    var jm :| 0 <= jm < |ws| && ws[jm] == m;
    var jM :| 0 <= jM < |ws| && ws[jM] == M;
    assert m.n <= lo.n && lo.n <= m.n;
    assert M.n >= hi.n && hi.n >= M.n;
  }

  /**
   * A Spline flip keeps the number and order of the points, every
   * pressure `p` and the coordinate on the other axis.
   */
  lemma SplineFlipKeeps(ps: seq<Point>, d: Direction)
    ensures var r := FlipPoints(Spline, ps, d);
      |r| == |ps|
      && forall i :: 0 <= i < |ps| ==>
           r[i].p == ps[i].p && (d == Horizontal ==> r[i].y == ps[i].y) && (d == Vertical ==> r[i].x == ps[i].x)
  {
  }

  /**
   * A Spline flip with numeric coordinates leaves the bounding box on the
   * flipped axis where it was, and flipping twice restores the points.
   */
  lemma SplineFlipBox(ps: seq<Point>, d: Direction)
    requires ps != []
    requires d == Horizontal ==> AllNumeric(Xs(ps))
    requires d == Vertical ==> AllNumeric(Ys(ps))
    ensures var r := FlipPoints(Spline, ps, d);
      (d == Horizontal ==> MinOf(Xs(r)) == MinOf(Xs(ps)) && MaxOf(Xs(r)) == MaxOf(Xs(ps)))
      && (d == Vertical ==> MinOf(Ys(r)) == MinOf(Ys(ps)) && MaxOf(Ys(r)) == MaxOf(Ys(ps)))
      && FlipPoints(Spline, r, d) == ps
  {
    var r := FlipPoints(Spline, ps, d);
    if d == Horizontal {
      var c := BoxCentre(MinOf(Xs(ps)), MaxOf(Xs(ps)));
      ReflectedRange(Xs(ps), Xs(r));
      assert FlipPoints(Spline, r, d) == ReflectXs(r, c);
      forall i | 0 <= i < |ps| ensures ReflectXs(r, c)[i] == ps[i] {
        ReflectTwice(c, ps[i].x);
      }
    } else {
      var c := BoxCentre(MinOf(Ys(ps)), MaxOf(Ys(ps)));
      ReflectedRange(Ys(ps), Ys(r));
      assert FlipPoints(Spline, r, d) == ReflectYs(r, c);
      forall i | 0 <= i < |ps| ensures ReflectYs(r, c)[i] == ps[i] {
        ReflectTwice(c, ps[i].y);
      }
    }
  }

  /** A Spline without points is left as it is. */
  lemma SplineFlipEmpty(d: Direction)
    ensures FlipPoints(Spline, [], d) == []
  {
  }

  /**
   * Axis `vertical` changes only `x` (and a Line's `x2`), axis
   * `horizontal` only `y` (and a Line's `y2`): a Triangle clone keeps its
   * vertices, a Circle or Rectangle clone its size.
   */
  lemma ReflectPropsChanges(k: Kind, props: map<string, Value>, o: Origin, axis: Direction, key: string)
    requires HasCoordinates(k, props) && key in props
    ensures var r := ReflectProps(k, props, o, axis);
      var moved := if axis == Vertical then (key == "x" || (k == Line && key == "x2"))
                   else (key == "y" || (k == Line && key == "y2"));
      r[key] == (if moved then Reflect(if axis == Vertical then o.x else o.y, props[key]) else props[key])
  {
  }

  /** The clone's points are the source's points each reflected about the origin on the axis. */
  lemma ReflectPointsEach(ps: seq<Point>, o: Origin, axis: Direction)
    ensures var r := ReflectPoints(Spline, ps, o, axis);
      |r| == |ps|
      && forall i :: 0 <= i < |ps| ==>
           r[i] == (if axis == Vertical then ps[i].(x := Reflect(o.x, ps[i].x)) else ps[i].(y := Reflect(o.y, ps[i].y)))
  {
  }

  /** The coordinates a reflection on `axis` moves are numbers: `x` (and a
   *  Line's `x2`) for the vertical axis, `y` (and a Line's `y2`) otherwise. */
  predicate MovedNumeric(k: Kind, props: map<string, Value>, axis: Direction)
    requires HasCoordinates(k, props)
  {
    if axis == Vertical then props["x"].Num? && (k == Line ==> props["x2"].Num?)
    else props["y"].Num? && (k == Line ==> props["y2"].Num?)
  }

  /**
   * Reflecting the reflection again about the same origin and axis
   * restores the original coordinates and points, provided the origin's
   * coordinate on that axis and the coordinates it moves are numbers
   * (a non-numeric one becomes NaN, which a second reflection keeps).
   */
  lemma ReflectTwiceRestores(k: Kind, props: map<string, Value>, ps: seq<Point>, o: Origin, axis: Direction)
    requires HasCoordinates(k, props)
    requires if axis == Vertical then o.x.Num? else o.y.Num?
    requires MovedNumeric(k, props, axis)
    requires k == Spline ==> if axis == Vertical then AllNumeric(Xs(ps)) else AllNumeric(Ys(ps))
    ensures ReflectProps(k, ReflectProps(k, props, o, axis), o, axis) == props
    ensures ReflectPoints(k, ReflectPoints(k, ps, o, axis), o, axis) == ps
  {
    var r := ReflectProps(k, props, o, axis);
    var rr := ReflectProps(k, r, o, axis);
    forall key | key in props ensures rr[key] == props[key] {
      ReflectPropsChanges(k, props, o, axis, key);
      ReflectPropsChanges(k, r, o, axis, key);
    }
    if k == Spline {
      var q := ReflectPoints(k, ps, o, axis);
      forall i | 0 <= i < |ps| ensures ReflectPoints(k, q, o, axis)[i] == ps[i] {
        if axis == Vertical {
          assert Xs(ps)[i].Num?;
        } else {
          assert Ys(ps)[i].Num?;
        }
      }
    }
  }
}
