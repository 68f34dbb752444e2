/**
 * `ellps`: an SVG ellipse. Its constructor gives the centre and the radii
 * attribute defaults, from the documented options, besides the stroke style; `cx`, `cy`, `rx` and `ry`
 * read and write one attribute of the element each.
 */
module Ellipses {
  import opened JsBase
  import opened Constructs
  import opened Slices

  /** The centre at the origin and both radii 50. */
  const GeometryDefaults: Props := map["cx" := Num(0.0), "cy" := Num(0.0), "rx" := Num(50.0), "ry" := Num(50.0)]

  /** The documented `options.cx` … `options.ry`, each defaulting as `GeometryDefaults` says. */
  function GeometryOf(props: Props): Props {
    map["cx" := Default(Get(props, "cx"), Defined(Num(0.0))).v, "cy" := Default(Get(props, "cy"), Defined(Num(0.0))).v,
        "rx" := Default(Get(props, "rx"), Defined(Num(50.0))).v, "ry" := Default(Get(props, "ry"), Defined(Num(50.0))).v]
  }

  /** The element's attributes: those supplied, then the id, the centre and radii the options give and the stroke style offered. */
  function AttrDefaulted(o: Options, id: Value, props: Props): Props {
    StyleAttr(props) + (GeometryOf(props) + IdentifiedAttr(o, id))
  }

  /** The constructor's defaults for the instance made after `count` others. */
  function Configure(o: Options, count: nat): Built {
    var id := InstanceId(o.props, "ellps", count);
    var props := StyleDefaults + o.props;
    Built(id, props, AttrDefaulted(o, id, props), CssOf(o))
  }

  /** A centre or radius attribute is the one supplied, else the option, else its default. */
  lemma GeometryAttr(o: Options, id: Value, props: Props, key: string)
    requires key in GeometryDefaults
    ensures Get(AttrDefaulted(o, id, props), key) == Default(Get(AttrOf(o), key), Default(Get(props, key), Defined(GeometryDefaults[key])))
  {
    assert key !in StyleAttr(props);
    assert key == "cx" || key == "cy" || key == "rx" || key == "ry";
  }

  /** The centre and radii attributes are those supplied, else the options, else (0, 0) and 50 and 50. */
  lemma ConfigureGeometry(o: Options, count: nat)
    ensures var b := Configure(o, count);
      && Get(b.attr, "cx") == Default(Get(AttrOf(o), "cx"), Default(Get(o.props, "cx"), Defined(Num(0.0))))
      && Get(b.attr, "cy") == Default(Get(AttrOf(o), "cy"), Default(Get(o.props, "cy"), Defined(Num(0.0))))
      && Get(b.attr, "rx") == Default(Get(AttrOf(o), "rx"), Default(Get(o.props, "rx"), Defined(Num(50.0))))
      && Get(b.attr, "ry") == Default(Get(AttrOf(o), "ry"), Default(Get(o.props, "ry"), Defined(Num(50.0))))
  {
    var id := InstanceId(o.props, "ellps", count);
    var props := StyleDefaults + o.props;
    assert Configure(o, count).attr == AttrDefaulted(o, id, props);
    GeometryAttr(o, id, props, "cx");
    GeometryAttr(o, id, props, "cy");
    GeometryAttr(o, id, props, "rx");
    GeometryAttr(o, id, props, "ry");
  }

  /** The attributes as the code builds them: the geometry options are never read. */
  function AttrAsWritten(o: Options, id: Value, props: Props): Props {
    StyleAttr(props) + (GeometryDefaults + IdentifiedAttr(o, id))
  }

  /** The constructor as written. */
  function ConfigureAsWritten(o: Options, count: nat): Built {
    var id := InstanceId(o.props, "ellps", count);
    var props := StyleDefaults + o.props;
    Built(id, props, AttrAsWritten(o, id, props), CssOf(o))
  }

  /** As written, a centre or radius attribute is the one supplied, else its fixed default, whatever the options say. */
  lemma ConfigureGeometryAsWritten(o: Options, count: nat, key: string)
    requires key in GeometryDefaults
    ensures Get(ConfigureAsWritten(o, count).attr, key) == Default(Get(AttrOf(o), key), Defined(GeometryDefaults[key]))
  {
    var id := InstanceId(o.props, "ellps", count);
    assert key !in StyleAttr(StyleDefaults + o.props);
  }

  /** `new ellps({rx: 10})`: the code draws the x radius 50, the documented option gives 10. */
  lemma GeometryOptionsIgnored()
    ensures var o := Options(map["rx" := Num(10.0)], Undefined, Undefined);
      && Get(ConfigureAsWritten(o, 0).attr, "rx") == Defined(Num(50.0))
      && Get(Configure(o, 0).attr, "rx") == Defined(Num(10.0))
  {
    var o := Options(map["rx" := Num(10.0)], Undefined, Undefined);
    ConfigureGeometryAsWritten(o, 0, "rx");
    ConfigureGeometry(o, 0);
  }

  /** The constructor never overwrites an option or attribute the caller supplied, and keeps the CSS given. */
  lemma ConfigureKeepsSupplied(o: Options, count: nat)
    ensures var b := Configure(o, count);
      && (forall k :: k in o.props ==> k in b.props && b.props[k] == o.props[k])
      && (forall k :: k in AttrOf(o) ==> k in b.attr && b.attr[k] == AttrOf(o)[k])
      && b.css == CssOf(o)
  {
  }

  /**
   * The element's stroke style is the attribute given, else the option,
   * else `transparent`, `#000000` and 1; the id attribute is the one given,
   * else the instance id.
   */
  lemma ConfigureStyle(o: Options, count: nat)
    ensures var b := Configure(o, count);
      && Get(b.attr, "fill") == Default(Get(AttrOf(o), "fill"), Default(Get(o.props, "fill"), Defined(Str("transparent"))))
      && Get(b.attr, "stroke") == Default(Get(AttrOf(o), "stroke"), Default(Get(o.props, "stroke"), Defined(Str("#000000"))))
      && Get(b.attr, "stroke-width") == Default(Get(AttrOf(o), "stroke-width"), Default(Get(o.props, "strokeWidth"), Defined(Num(1.0))))
      && Get(b.attr, "id") == Default(Get(AttrOf(o), "id"), Defined(b.id))
  {
    var id := InstanceId(o.props, "ellps", count);
    var attr := GeometryOf(StyleDefaults + o.props) + IdentifiedAttr(o, id);
    StyleResolves(o.props, attr);
  }

  /** An `ellps` instance: its element's attributes and CSS, and its slice state. */
  class Ellipse {
    const id: Value
    /** The element's attributes. */
    var attr: Props
    const css: Props
    /** `_startUnit` and `_endUnit`. */
    var units: Units
    /** The element's dash style, as the slice setter writes it. */
    var stroke: Stroke

    /** Builds the instance made after `count` others. */
    constructor(o: Options, count: nat)
      ensures var b := Configure(o, count); id == b.id && attr == b.attr && css == b.css
      ensures units == Units(false, false) && stroke == NoDash
    {
      var b := Configure(o, count);
      id, attr, css := b.id, b.attr, b.css;
      units, stroke := Units(false, false), NoDash;
    }

    /** `el.getAttribute(name)`: `Undefined`, standing for the DOM's `null`, for an attribute the element lacks. */
    function Attribute(name: string): JsVal<Value>
      reads this
    {
      Get(attr, name)
    }

    /** `el.setAttribute(name, value)`: that attribute and no other changes. */
    method SetAttribute(name: string, value: Value)
      modifies this
      ensures Attribute(name) == Defined(value)
      ensures forall k :: k != name ==> Attribute(k) == old(Attribute(k))
      ensures units == old(units) && stroke == old(stroke)
    {
      attr := attr[name := value];
    }

    /** The `cx` getter. */
    function Cx(): JsVal<Value>
      reads this
    {
      Attribute("cx")
    }

    /** The `cy` getter. */
    function Cy(): JsVal<Value>
      reads this
    {
      Attribute("cy")
    }

    /** The `rx` getter. */
    function Rx(): JsVal<Value>
      reads this
    {
      Attribute("rx")
    }

    /** The `ry` getter. */
    function Ry(): JsVal<Value>
      reads this
    {
      Attribute("ry")
    }

    /** The `cx` setter: `cx` reads back the value, and the other geometry attributes are unchanged. */
    method SetCx(value: Value)
      modifies this
      ensures Cx() == Defined(value) && Cy() == old(Cy()) && Rx() == old(Rx()) && Ry() == old(Ry())
      ensures forall k :: k != "cx" ==> Attribute(k) == old(Attribute(k))
      ensures units == old(units) && stroke == old(stroke)
    {
      SetAttribute("cx", value);
    }

    /** The `cy` setter: `cy` reads back the value, and the other geometry attributes are unchanged. */
    method SetCy(value: Value)
      modifies this
      ensures Cy() == Defined(value) && Cx() == old(Cx()) && Rx() == old(Rx()) && Ry() == old(Ry())
      ensures forall k :: k != "cy" ==> Attribute(k) == old(Attribute(k))
      ensures units == old(units) && stroke == old(stroke)
    {
      SetAttribute("cy", value);
    }

    /** The `rx` setter: `rx` reads back the value, and the other geometry attributes are unchanged. */
    method SetRx(value: Value)
      modifies this
      ensures Rx() == Defined(value) && Cx() == old(Cx()) && Cy() == old(Cy()) && Ry() == old(Ry())
      ensures forall k :: k != "rx" ==> Attribute(k) == old(Attribute(k))
      ensures units == old(units) && stroke == old(stroke)
    {
      SetAttribute("rx", value);
    }

    /** The `ry` setter: `ry` reads back the value, and the other geometry attributes are unchanged. */
    method SetRy(value: Value)
      modifies this
      ensures Ry() == Defined(value) && Cx() == old(Cx()) && Cy() == old(Cy()) && Rx() == old(Rx())
      ensures forall k :: k != "ry" ==> Attribute(k) == old(Attribute(k))
      ensures units == old(units) && stroke == old(stroke)
    {
      SetAttribute("ry", value);
    }

    /** The `slice` getter on a stroke of total length `len`. */
    function Slice(len: real): (Shown, Shown)
      reads this
    {
      GetSlice(len, units, stroke)
    }

    /**
     * The `slice` setter on the tokens of the text, on a stroke of total
     * length `len`. Two ordered ends read back as given.
     */
    method SetSlice(tokens: seq<End>, len: real)
      modifies this
      ensures var s := Slices.SetSlice(len, old(units), tokens);
        if s.None? then units == old(units) && stroke == old(stroke)
        else units == s.value.units && stroke == Dashed(s.value.dash)
      ensures attr == old(attr)
      ensures |tokens| >= 2 && len > 0.0 && 0.0 <= Resolve(len, tokens[0]) <= Resolve(len, tokens[1])
        && (Resolve(len, tokens[0]) > 0.0 || Resolve(len, tokens[1]) < len)
        ==> Slice(len) == (Echo(tokens[0]), Echo(tokens[1]))
    {
      var s := Slices.SetSlice(len, units, tokens);
      if s.Some? {
        units, stroke := s.value.units, Dashed(s.value.dash);
        if |tokens| >= 2 && len > 0.0 && 0.0 <= Resolve(len, tokens[0]) <= Resolve(len, tokens[1])
          && (Resolve(len, tokens[0]) > 0.0 || Resolve(len, tokens[1]) < len)
        {
          SliceRoundTrip(len, old(units), tokens[0], tokens[1]);
          assert Slices.SetSlice(len, old(units), [tokens[0], tokens[1]]) == s;
        }
      }
    }
  }
}
