/**
 * `SVGConstruct`, the base SVG construct: the option and attribute defaults
 * its constructor settles on, and its stroke slice.
 */
module SvgConstructs {
  import opened JsBase
  import opened Constructs
  import opened Slices

  /**
   * The line style attributes the constructor offers: each line style option
   * that is set. The options `lineCap`, `lineJoin` and `miterLimit` are
   * defaulted to `undefined`, which leaves them as they are.
   */
  function LineAttr(props: Props): (m: Props)
    ensures Get(m, "stroke-linecap") == Get(props, "lineCap")
    ensures Get(m, "stroke-linejoin") == Get(props, "lineJoin")
    ensures Get(m, "stroke-miterlimit") == Get(props, "miterLimit")
    ensures m.Keys <= {"stroke-linecap", "stroke-linejoin", "stroke-miterlimit"}
  {
    Copied(Copied(Copied(map[], props, "stroke-linecap", "lineCap"), props, "stroke-linejoin", "lineJoin"),
      props, "stroke-miterlimit", "miterLimit")
  }

  /** The transform properties the constructor gives a CSS default. */
  const CssNames: set<string> :=
    {"x", "y", "z", "skewX", "skewY", "scale", "scaleX", "scaleY", "scaleZ",
     "rotation", "rotationX", "rotationY", "rotationZ"}

  /** The value a transform property falls back to: 1 for the scales, 0 otherwise. */
  function CssFallback(key: string): real {
    if key == "scale" || key == "scaleX" || key == "scaleY" || key == "scaleZ" then 1.0 else 0.0
  }

  /** What `setDefault(options.css, k, default(options[k], fallback))` offers for each transform property. */
  function CssDefaults(props: Props): Props {
    map k | k in CssNames :: Default(Get(props, k), Defined(Num(CssFallback(k)))).v
  }

  /**
   * The options once defaulted: `type` is `line` and the stroke style is
   * defaulted unless supplied. The line style options are defaulted to
   * `undefined`, which leaves them as they are.
   */
  function OptionsDefaulted(props: Props): (r: Props)
    ensures forall k :: k in props ==> k in r && r[k] == props[k]
  {
    StyleDefaults + SetDefault(props, "type", Defined(Str("line"))).target
  }

  /** The element's attributes: those supplied, then the id, the stroke style and the line style offered. */
  function AttrDefaulted(o: Options, id: Value, props: Props): (r: Props)
    ensures forall k :: k in AttrOf(o) ==> k in r && r[k] == AttrOf(o)[k]
  {
    LineAttr(props) + (StyleAttr(props) + IdentifiedAttr(o, id))
  }

  /** The constructor's defaults, for the instance made after `count` others. */
  function Configure(o: Options, count: nat): Built {
    var id := InstanceId(o.props, "SVGConstruct", count);
    var props := OptionsDefaulted(o.props);
    Built(id, props, AttrDefaulted(o, id, props), CssDefaults(props) + CssOf(o))
  }

  /** The constructor never overwrites an option, attribute or CSS property the caller supplied. */
  lemma ConfigureKeepsSupplied(o: Options, count: nat)
    ensures var b := Configure(o, count);
      && (forall k :: k in o.props ==> k in b.props && b.props[k] == o.props[k])
      && (forall k :: k in AttrOf(o) ==> k in b.attr && b.attr[k] == AttrOf(o)[k])
      && (forall k :: k in CssOf(o) ==> k in b.css && b.css[k] == CssOf(o)[k])
  {
  }

  /** Options other than `type` and the stroke style are left as supplied. */
  lemma OptionsDefaultedElsewhere(props: Props, key: string)
    requires key != "type" && key !in StyleDefaults
    ensures Get(OptionsDefaulted(props), key) == Get(props, key)
  {
  }

  /** The defaulted options: `type` is `line` and the stroke style is as `StyleDefaults` gives, unless supplied. */
  lemma OptionsDefaultedStyle(props: Props)
    ensures var r := OptionsDefaulted(props);
      && Get(r, "type") == Default(Get(props, "type"), Defined(Str("line")))
      && Get(r, "fill") == Default(Get(props, "fill"), Defined(Str("transparent")))
      && Get(r, "stroke") == Default(Get(props, "stroke"), Defined(Str("#000000")))
      && Get(r, "strokeWidth") == Default(Get(props, "strokeWidth"), Defined(Num(1.0)))
  {
  }

  /** The attributes: each stroke style attribute is the one supplied, else the option. */
  lemma AttrDefaultedStyle(o: Options, id: Value, props: Props)
    ensures var r := AttrDefaulted(o, id, props);
      && Get(r, "fill") == Default(Get(AttrOf(o), "fill"), Get(props, "fill"))
      && Get(r, "stroke") == Default(Get(AttrOf(o), "stroke"), Get(props, "stroke"))
      && Get(r, "stroke-width") == Default(Get(AttrOf(o), "stroke-width"), Get(props, "strokeWidth"))
  {
  }

  /** The attributes: the line cap is the one supplied, else the option, and the id the one supplied, else the instance id. */
  lemma AttrDefaultedLine(o: Options, id: Value, props: Props)
    ensures var r := AttrDefaulted(o, id, props);
      && Get(r, "stroke-linecap") == Default(Get(AttrOf(o), "stroke-linecap"), Get(props, "lineCap"))
      && Get(r, "id") == Default(Get(AttrOf(o), "id"), Defined(id))
  {
  }

  /**
   * The element's stroke style: fill `transparent`, stroke `#000000` and
   * width 1 unless given as options or attributes, the line style only when
   * given, the type `line` unless given, and the id attribute unless given.
   */
  lemma ConfigureStyle(o: Options, count: nat)
    ensures var b := Configure(o, count);
      && Get(b.attr, "fill") == Default(Get(AttrOf(o), "fill"), Default(Get(o.props, "fill"), Defined(Str("transparent"))))
      && Get(b.attr, "stroke") == Default(Get(AttrOf(o), "stroke"), Default(Get(o.props, "stroke"), Defined(Str("#000000"))))
      && Get(b.attr, "stroke-width") == Default(Get(AttrOf(o), "stroke-width"), Default(Get(o.props, "strokeWidth"), Defined(Num(1.0))))
      && Get(b.attr, "stroke-linecap") == Default(Get(AttrOf(o), "stroke-linecap"), Get(o.props, "lineCap"))
      && Get(b.attr, "id") == Default(Get(AttrOf(o), "id"), Defined(b.id))
      && Get(b.props, "type") == Default(Get(o.props, "type"), Defined(Str("line")))
  {
    var id := InstanceId(o.props, "SVGConstruct", count);
    var props := OptionsDefaulted(o.props);
    assert Configure(o, count) == Built(id, props, AttrDefaulted(o, id, props), CssDefaults(props) + CssOf(o));
    OptionsDefaultedStyle(o.props);
    OptionsDefaultedElsewhere(o.props, "lineCap");
    AttrDefaultedStyle(o, id, props);
    AttrDefaultedLine(o, id, props);
  }

  /** Each transform property is the CSS value given, else the option of that name, else 0 (1 for the scales). */
  lemma ConfigureCss(o: Options, count: nat, key: string)
    requires key in CssNames
    ensures Get(Configure(o, count).css, key)
         == Default(Get(CssOf(o), key), Default(Get(o.props, key), Defined(Num(CssFallback(key)))))
  {
    var props := OptionsDefaulted(o.props);
    OptionsDefaultedElsewhere(o.props, key);
    assert Configure(o, count).css == CssDefaults(props) + CssOf(o);
  }

  /** An `SVGConstruct` instance: its element's attributes and CSS, and its slice state. */
  class SvgConstruct {
    const id: Value
    var attr: Props
    var css: Props
    /** `_startUnit` and `_endUnit`. */
    var units: Units
    /** The element's dash style, as the slice setter writes it. */
    var stroke: Stroke

    /** Builds the instance made after `count` others. */
    constructor(o: Options, count: nat)
      ensures var b := Configure(o, count); id == b.id && attr == b.attr && css == b.css
      ensures units == Units(false, false) && stroke == NoDash
    {
      var b := Configure(o, count);
      id, attr, css := b.id, b.attr, b.css;
      units, stroke := Units(false, false), NoDash;
    }

    /** The `slice` getter on a stroke of total length `len`. */
    function Slice(len: real): (Shown, Shown)
      reads this
    {
      GetSlice(len, units, stroke)
    }

    /**
     * The `slice` setter on the tokens of the text, on a stroke of total
     * length `len`. Two ordered ends read back as given.
     */
    method SetSlice(tokens: seq<End>, len: real)
      modifies this
      ensures var s := Slices.SetSlice(len, old(units), tokens);
        if s.None? then units == old(units) && stroke == old(stroke)
        else units == s.value.units && stroke == Dashed(s.value.dash)
      ensures attr == old(attr) && css == old(css)
      ensures |tokens| >= 2 && len > 0.0 && 0.0 <= Resolve(len, tokens[0]) <= Resolve(len, tokens[1])
        && (Resolve(len, tokens[0]) > 0.0 || Resolve(len, tokens[1]) < len)
        ==> Slice(len) == (Echo(tokens[0]), Echo(tokens[1]))
    {
      var s := Slices.SetSlice(len, units, tokens);
      if s.Some? {
        units, stroke := s.value.units, Dashed(s.value.dash);
        if |tokens| >= 2 && len > 0.0 && 0.0 <= Resolve(len, tokens[0]) <= Resolve(len, tokens[1])
          && (Resolve(len, tokens[0]) > 0.0 || Resolve(len, tokens[1]) < len)
        {
          SliceRoundTrip(len, old(units), tokens[0], tokens[1]);
          assert Slices.SetSlice(len, old(units), [tokens[0], tokens[1]]) == s;
        }
      }
    }
  }
}
