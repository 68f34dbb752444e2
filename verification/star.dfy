/**
 * `star`: a polygon whose vertices alternate between two radii around the
 * origin. Its coordinate list is rebuilt whenever a geometry property is
 * set; `getPoint` reads one vertex, counting from the end for a negative
 * index. The cosine and sine of each vertex are not modelled: a vertex is
 * its radius and its angle, as a step out of the number of vertices.
 */
module Stars {
  import opened JsBase
  import opened Constructs
  import opened Slices

  /** A vertex at distance `radius` from the origin and angle `step * 360 / steps` degrees. */
  datatype Coord = Coord(radius: real, step: nat, steps: nat)

  /**
   * The geometry options a star reads: the origin, the two radii, and the
   * point count under the documented name `points` and under the name
   * `_points` the code reads.
   */
  datatype Geometry = Geometry(x: JsVal<real>, y: JsVal<real>, r1: JsVal<real>, r2: JsVal<real>,
                               points: JsVal<int>, underscorePoints: JsVal<int>)

  /** The number of vertices `update` builds: two per point, none for a count below 1. */
  function VertexCount(points: int): nat {
    if points > 0 then 2 * points else 0
  }

  /** Vertex `i` of `steps`: radius `r1` at even positions and `r2` at odd ones. */
  function Vertex(i: nat, steps: nat, r1: real, r2: real): Coord {
    Coord(if i % 2 == 0 then r1 else r2, i, steps)
  }

  /** The coordinate list `update` builds; the origin takes no part in it. */
  function Outline(points: int, r1: real, r2: real): seq<Coord> {
    seq(VertexCount(points), i requires 0 <= i < VertexCount(points) => Vertex(i, VertexCount(points), r1, r2))
  }

  /**
   * The outline has two vertices per point, starts on the first radius,
   * ends on the second, and alternates between them, each vertex one step
   * further round.
   */
  lemma OutlineAlternates(points: int, r1: real, r2: real)
    requires points > 0
    ensures var cs := Outline(points, r1, r2);
      && |cs| == 2 * points
      && cs[0].radius == r1 && cs[|cs| - 1].radius == r2
      && (forall i :: 0 <= i < |cs| - 1 ==>
            (cs[i + 1].step == cs[i].step + 1 && cs[i].steps == |cs| && (cs[i].radius == r1 <==> cs[i + 1].radius == r2)))
  {
    var cs := Outline(points, r1, r2);
    assert (|cs| - 1) % 2 == 1;
    forall i | 0 <= i < |cs| - 1
      ensures cs[i].radius == r1 <==> cs[i + 1].radius == r2
    {
      if r1 != r2 {
        assert i % 2 == 0 <==> (i + 1) % 2 == 1;
      }
    }
  }

  /** The index `getPoint` reads: `index` (default -1), counted from the end when negative. */
  function PointIndex(index: JsVal<int>, length: nat): int {
    var i := Default(index, Defined(-1)).v;
    if i < 0 then length + i else i
  }

  /** The point count as written: the constructor reads `options._points`, so `options.points` is ignored. */
  function PointsAsWritten(g: Geometry): int {
    Default(g.underscorePoints, Defined(5)).v
  }

  /** The documented point count: `options.points`, 5 by default. */
  function PointsOption(g: Geometry): (n: int)
    ensures g.points.Defined? ==> n == g.points.v
    ensures g.points.Undefined? ==> n == 5
  {
    Default(g.points, Defined(5)).v
  }

  /** Asking for a three-pointed star as documented gives a five-pointed one, with ten vertices instead of six. */
  lemma PointsOptionIgnored()
    ensures var g := Geometry(Undefined, Undefined, Undefined, Undefined, Defined(3), Undefined);
      && PointsOption(g) == 3 && |Outline(PointsOption(g), 25.0, 50.0)| == 6
      && PointsAsWritten(g) == 5 && |Outline(PointsAsWritten(g), 25.0, 50.0)| == 10
  {
  }

  /** The constructor's defaults for the instance made after `count` others. */
  function Configure(o: Options, count: nat): Built {
    var id := InstanceId(o.props, "star", count);
    var props := StyleDefaults + o.props;
    Built(id, props, StyleAttr(props) + IdentifiedAttr(o, id), CssOf(o))
  }

  /** The constructor never overwrites an option or attribute the caller supplied, and keeps the CSS given. */
  lemma ConfigureKeepsSupplied(o: Options, count: nat)
    ensures var b := Configure(o, count);
      && (forall k :: k in o.props ==> k in b.props && b.props[k] == o.props[k])
      && (forall k :: k in AttrOf(o) ==> k in b.attr && b.attr[k] == AttrOf(o)[k])
      && b.css == CssOf(o)
  {
  }

  /**
   * The polygon's stroke style is the attribute given, else the option,
   * else `transparent`, `#000000` and 1; the id attribute is the one given,
   * else the instance id.
   */
  lemma ConfigureStyle(o: Options, count: nat)
    ensures var b := Configure(o, count);
      && Get(b.attr, "fill") == Default(Get(AttrOf(o), "fill"), Default(Get(o.props, "fill"), Defined(Str("transparent"))))
      && Get(b.attr, "stroke") == Default(Get(AttrOf(o), "stroke"), Default(Get(o.props, "stroke"), Defined(Str("#000000"))))
      && Get(b.attr, "stroke-width") == Default(Get(AttrOf(o), "stroke-width"), Default(Get(o.props, "strokeWidth"), Defined(Num(1.0))))
      && Get(b.attr, "id") == Default(Get(AttrOf(o), "id"), Defined(b.id))
  {
    var id := InstanceId(o.props, "star", count);
    StyleResolves(o.props, IdentifiedAttr(o, id));
  }

  /** A `star` instance: its polygon's attributes, its geometry, its vertices and its slice state. */
  class Star {
    const id: Value
    const attr: Props
    const css: Props
    var x: real
    var y: real
    var r1: real
    var r2: real
    var points: int
    /** `_coords`. */
    var coords: seq<Coord>
    /** `_startUnit` and `_endUnit`. */
    var units: Units
    /** The polygon's dash style, as the slice setter writes it. */
    var stroke: Stroke

    /** The coordinates are those of the current radii and point count. */
    ghost predicate Valid()
      reads this
    {
      coords == Outline(points, r1, r2)
    }

    /**
     * Builds the instance made after `count` others: the origin defaults to
     * (0, 0), the radii to 25 and 50 and the point count to 5.
     */
    constructor(o: Options, g: Geometry, count: nat)
      ensures Valid()
      ensures var b := Configure(o, count); id == b.id && attr == b.attr && css == b.css
      ensures x == Default(g.x, Defined(0.0)).v && y == Default(g.y, Defined(0.0)).v
      ensures r1 == Default(g.r1, Defined(25.0)).v && r2 == Default(g.r2, Defined(50.0)).v
      ensures points == PointsOption(g)
      ensures units == Units(false, false) && stroke == NoDash
    {
      var b := Configure(o, count);
      id, attr, css := b.id, b.attr, b.css;
      x, y := Default(g.x, Defined(0.0)).v, Default(g.y, Defined(0.0)).v;
      points := PointsOption(g);
      r1, r2 := Default(g.r1, Defined(25.0)).v, Default(g.r2, Defined(50.0)).v;
      units, stroke := Units(false, false), NoDash;
      new;
      Update();
    }

    /** `update`: rebuilds the coordinate list, two vertices per point, alternating between the radii. */
    method Update()
      modifies this
      ensures Valid()
      ensures |coords| == VertexCount(points)
      ensures x == old(x) && y == old(y) && r1 == old(r1) && r2 == old(r2) && points == old(points)
      ensures units == old(units) && stroke == old(stroke)
    {
      coords := [];
      var len := points * 2;
      var i := 0;
      while i < len
        invariant len == points * 2 && 0 <= i <= VertexCount(points)
        invariant coords == Outline(points, r1, r2)[..i]
        invariant x == old(x) && y == old(y) && r1 == old(r1) && r2 == old(r2) && points == old(points)
        invariant units == old(units) && stroke == old(stroke)
      {
        coords := coords + [Vertex(i, len, r1, r2)];
        i := i + 1;
      }
      assert coords == Outline(points, r1, r2);
    }

    /** Setting `x` stores it and rebuilds the vertices, which do not depend on the origin. */
    method SetX(value: real)
      requires Valid()
      modifies this
      ensures Valid() && x == value && coords == old(coords)
      ensures y == old(y) && r1 == old(r1) && r2 == old(r2) && points == old(points)
      ensures units == old(units) && stroke == old(stroke)
    {
      x := value;
      Update();
    }

    /** Setting `y` stores it and rebuilds the vertices, which do not depend on the origin. */
    method SetY(value: real)
      requires Valid()
      modifies this
      ensures Valid() && y == value && coords == old(coords)
      ensures x == old(x) && r1 == old(r1) && r2 == old(r2) && points == old(points)
      ensures units == old(units) && stroke == old(stroke)
    {
      y := value;
      Update();
    }

    /** Setting `r1` stores it and rebuilds the vertices. */
    method SetR1(value: real)
      modifies this
      ensures Valid() && r1 == value
      ensures x == old(x) && y == old(y) && r2 == old(r2) && points == old(points)
      ensures units == old(units) && stroke == old(stroke)
    {
      r1 := value;
      Update();
    }

    /** Setting `r2` stores it and rebuilds the vertices. */
    method SetR2(value: real)
      modifies this
      ensures Valid() && r2 == value
      ensures x == old(x) && y == old(y) && r1 == old(r1) && points == old(points)
      ensures units == old(units) && stroke == old(stroke)
    {
      r2 := value;
      Update();
    }

    /** Setting `points` stores it and rebuilds the vertices: two per point. */
    method SetPoints(value: int)
      modifies this
      ensures Valid() && points == value && |coords| == VertexCount(value)
      ensures x == old(x) && y == old(y) && r1 == old(r1) && r2 == old(r2)
      ensures units == old(units) && stroke == old(stroke)
    {
      points := value;
      Update();
    }

    /**
     * `getPoint(index)`: the vertex at `index`, -1 by default, counted from
     * the end when negative; `undefined` when that falls outside the list.
     */
    function GetPoint(index: JsVal<int>): (r: JsVal<Coord>)
      reads this
      ensures index.Undefined? && coords != [] ==> r == Defined(coords[|coords| - 1])
      ensures index.Defined? && 0 <= index.v < |coords| ==> r == Defined(coords[index.v])
      ensures index.Defined? && -|coords| <= index.v < 0 ==> r == Defined(coords[|coords| + index.v])
      ensures r.Defined? <==> -|coords| <= Default(index, Defined(-1)).v < |coords|
    {
      var i := PointIndex(index, |coords|);
      if 0 <= i < |coords| then Defined(coords[i]) else Undefined
    }

    /** The `slice` getter on a stroke of total length `len`. */
    function Slice(len: real): (Shown, Shown)
      reads this
    {
      GetSlice(len, units, stroke)
    }

    /**
     * The `slice` setter on the tokens of the text, on a stroke of total
     * length `len`. Two ordered ends read back as given.
     */
    method SetSlice(tokens: seq<End>, len: real)
      modifies this
      ensures var s := Slices.SetSlice(len, old(units), tokens);
        if s.None? then units == old(units) && stroke == old(stroke)
        else units == s.value.units && stroke == Dashed(s.value.dash)
      ensures x == old(x) && y == old(y) && r1 == old(r1) && r2 == old(r2) && points == old(points)
      ensures coords == old(coords)
      ensures |tokens| >= 2 && len > 0.0 && 0.0 <= Resolve(len, tokens[0]) <= Resolve(len, tokens[1])
        && (Resolve(len, tokens[0]) > 0.0 || Resolve(len, tokens[1]) < len)
        ==> Slice(len) == (Echo(tokens[0]), Echo(tokens[1]))
    {
      var s := Slices.SetSlice(len, units, tokens);
      if s.Some? {
        units, stroke := s.value.units, Dashed(s.value.dash);
        if |tokens| >= 2 && len > 0.0 && 0.0 <= Resolve(len, tokens[0]) <= Resolve(len, tokens[1])
          && (Resolve(len, tokens[0]) > 0.0 || Resolve(len, tokens[1]) < len)
        {
          SliceRoundTrip(len, old(units), tokens[0], tokens[1]);
          assert Slices.SetSlice(len, old(units), [tokens[0], tokens[1]]) == s;
        }
      }
    }
  }

  /** With no argument, `getPoint` returns the last vertex, which lies on the second radius. */
  lemma LastPointOnSecondRadius(s: Star)
    requires s.Valid() && s.points > 0
    ensures s.GetPoint(Undefined).Defined? && s.GetPoint(Undefined).v.radius == s.r2
  {
    OutlineAlternates(s.points, s.r1, s.r2);
  }

  /** A negative index `i` reads the same vertex as `length + i`. */
  lemma NegativeIndexWraps(s: Star, i: int)
    requires -|s.coords| <= i < 0
    ensures s.GetPoint(Defined(i)) == s.GetPoint(Defined(|s.coords| + i))
  {
  }
}
