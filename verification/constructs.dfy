/**
 * What the SVG constructs (`SVGConstruct`, `star`, `ellps`) share when they
 * are built: the options object, `mkr.setDefault` applied to a list of keys,
 * the generated instance id, and the stroke style copied into the element's
 * attributes.
 */
module Constructs {
  import opened JsBase

  /** A plain object of loosely typed properties. */
  type Props = map<string, Value>

  /**
   * The options a construct is built from: its own properties, and the
   * `attr` and `css` objects (either may be missing).
   */
  datatype Options = Options(props: Props, attr: JsVal<Props>, css: JsVal<Props>)

  /** What a constructor settles on: the instance id, its options and the element's attributes and CSS. */
  datatype Built = Built(id: Value, props: Props, attr: Props, css: Props)

  /** Keys with the value `mkr.setDefault` is called with for each, in call order. */
  type Defaults = seq<(string, JsVal<Value>)>

  /** `mkr.setDefault(target, key, value)` for each pair in turn. */
  function SetDefaults(target: Props, defaults: Defaults): Props
    decreases |defaults|
  {
    if defaults == [] then target
    else SetDefaults(SetDefault(target, defaults[0].0, defaults[0].1).target, defaults[1..])
  }

  /** The first value a key is given in a list of defaults that is not `undefined`. */
  function FirstDefault(defaults: Defaults, key: string): JsVal<Value>
    decreases |defaults|
  {
    if defaults == [] then Undefined
    else if defaults[0].0 == key && defaults[0].1.Defined? then defaults[0].1
    else FirstDefault(defaults[1..], key)
  }

  /**
   * After a run of `setDefault` calls, a key holds what the caller supplied
   * if anything, and otherwise the first value it was defaulted to.
   */
  lemma {:induction false} SetDefaultsResolves(target: Props, defaults: Defaults, key: string)
    ensures Get(SetDefaults(target, defaults), key) == Default(Get(target, key), FirstDefault(defaults, key))
    decreases |defaults|
  {
    if defaults != [] {
      var next := SetDefault(target, defaults[0].0, defaults[0].1).target;
      SetDefaultsResolves(next, defaults[1..], key);
    }
  }

  /** Values the caller supplied survive a run of `setDefault` calls. */
  lemma SetDefaultsKeeps(target: Props, defaults: Defaults)
    ensures forall k :: k in target ==> k in SetDefaults(target, defaults) && SetDefaults(target, defaults)[k] == target[k]
  {
    forall k | k in target
      ensures k in SetDefaults(target, defaults) && SetDefaults(target, defaults)[k] == target[k]
    {
      SetDefaultsResolves(target, defaults, k);
    }
  }

  /** The values a list of defaults gives, key by key: the first one that is not `undefined`. */
  function Collected(defaults: Defaults): (m: Props)
    ensures forall k :: Get(m, k) == FirstDefault(defaults, k)
    decreases |defaults|
  {
    if defaults == [] then map[]
    else if defaults[0].1.Undefined? then Collected(defaults[1..])
    else Collected(defaults[1..])[defaults[0].0 := defaults[0].1.v]
  }

  /**
   * A run of `setDefault` calls amounts to merging the defaults under the
   * object: what the object has wins, and `undefined` defaults add nothing.
   */
  lemma SetDefaultsMerges(target: Props, defaults: Defaults)
    ensures SetDefaults(target, defaults) == Collected(defaults) + target
  {
    var r, m := SetDefaults(target, defaults), Collected(defaults) + target;
    forall k
      ensures Get(r, k) == Get(m, k)
    {
      SetDefaultsResolves(target, defaults, k);
    }
    assert forall k :: k in r <==> Get(r, k).Defined?;
    assert r.Keys == m.Keys by {
      forall k ensures k in r <==> k in m {
        assert Get(r, k) == Get(m, k);
      }
    }
    forall k | k in r
      ensures r[k] == m[k]
    {
      assert Get(r, k) == Get(m, k);
    }
  }

  /**
   * The instance id: `options.id` when it is truthy, otherwise the class
   * name, a dash and the instance counter. The counter starts at -1 and is
   * incremented before use, so `count` is the number of instances made
   * before this one.
   */
  function InstanceId(props: Props, className: string, count: nat): Value {
    if Truthy(Get(props, "id")) then props["id"] else Str(className + "-" + Decimal(count))
  }

  /** Two instances built without an id of their own get different ids. */
  lemma GeneratedIdsDiffer(p1: Props, p2: Props, className: string, c1: nat, c2: nat)
    requires !Truthy(Get(p1, "id")) && !Truthy(Get(p2, "id")) && c1 != c2
    ensures InstanceId(p1, className, c1) != InstanceId(p2, className, c2)
  {
    var prefix := className + "-";
    var s1, s2 := prefix + Decimal(c1), prefix + Decimal(c2);
    if s1 == s2 {
      assert Decimal(c1) == s1[|prefix|..] == s2[|prefix|..] == Decimal(c2);
      DecimalInjective(c1, c2);
    }
  }

  /** The option defaults for the stroke style, in call order: fill, stroke and stroke width. */
  const StyleKeys: Defaults :=
    [("fill", Defined(Str("transparent"))), ("stroke", Defined(Str("#000000"))), ("strokeWidth", Defined(Num(1.0)))]

  /** The same defaults as one object. */
  const StyleDefaults: Props :=
    map["fill" := Str("transparent"), "stroke" := Str("#000000"), "strokeWidth" := Num(1.0)]

  /** The three stroke style `setDefault` calls on the options merge `StyleDefaults` under them. */
  lemma StyleKeysMerge(props: Props)
    ensures SetDefaults(props, StyleKeys) == StyleDefaults + props
  {
    SetDefaultsMerges(props, StyleKeys);
    assert Collected(StyleKeys) == StyleDefaults;
  }

  /** `m` with attribute `attrName` copied from option `option` when that option is set. */
  function Copied(m: Props, props: Props, attrName: string, option: string): Props {
    if option in props then m[attrName := props[option]] else m
  }

  /**
   * The attributes `setDefault(options.attr, 'fill', options.fill)` and its
   * two siblings offer: each stroke style option that is set.
   */
  function StyleAttr(props: Props): (m: Props)
    ensures Get(m, "fill") == Get(props, "fill")
    ensures Get(m, "stroke") == Get(props, "stroke")
    ensures Get(m, "stroke-width") == Get(props, "strokeWidth")
    ensures m.Keys <= {"fill", "stroke", "stroke-width"}
  {
    Copied(Copied(Copied(map[], props, "fill", "fill"), props, "stroke", "stroke"), props, "stroke-width", "strokeWidth")
  }

  /**
   * `setDefault(options, 'attr', {})` followed by
   * `setDefault(options.attr, 'id', id)`: the supplied attributes, with the
   * id unless one was supplied.
   */
  function IdentifiedAttr(o: Options, id: Value): (attr: Props)
    ensures forall k :: k in AttrOf(o) ==> k in attr && attr[k] == AttrOf(o)[k]
    ensures Get(attr, "id") == Default(Get(AttrOf(o), "id"), Defined(id))
  {
    map["id" := id] + AttrOf(o)
  }

  /** The supplied attributes, or none. */
  function AttrOf(o: Options): Props {
    if o.attr.Defined? then o.attr.v else map[]
  }

  /** The supplied CSS, or none (`setDefault(options, 'css', {})`). */
  function CssOf(o: Options): Props {
    if o.css.Defined? then o.css.v else map[]
  }

  /**
   * The stroke style of a construct: the options get fill `transparent`,
   * stroke `#000000` and width 1 unless supplied, and each is then copied
   * into the attributes unless the attributes already have one.
   */
  lemma StyleResolves(props: Props, attr: Props)
    ensures var a := StyleAttr(StyleDefaults + props) + attr;
      && Get(a, "fill") == Default(Get(attr, "fill"), Default(Get(props, "fill"), Defined(Str("transparent"))))
      && Get(a, "stroke") == Default(Get(attr, "stroke"), Default(Get(props, "stroke"), Defined(Str("#000000"))))
      && Get(a, "stroke-width") == Default(Get(attr, "stroke-width"), Default(Get(props, "strokeWidth"), Defined(Num(1.0))))
  {
  }
}
