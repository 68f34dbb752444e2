/**
 * JavaScript value conventions the rest of the model relies on:
 * `undefined` versus a defined value, `mkr.default`, `mkr.getDefault`,
 * `mkr.setDefault`, and the decimal text of a whole number (used for the
 * identity map's numeric tags and for generated instance ids).
 */
module JsBase {

  /** A JavaScript slot that is either `undefined` or holds a value. */
  datatype JsVal<+T> = Undefined | Defined(v: T)

  datatype Option<+T> = None | Some(value: T)

  /** An opaque object reference: a DOM element, a listener function or a context object. */
  datatype Handle = Handle(ref: nat)

  /** A loosely typed property value of an options object or attribute table. */
  datatype Value = Str(s: string) | Num(n: real)

  /** JavaScript truthiness of a property value (NaN is not modelled). */
  predicate Truthy(x: JsVal<Value>) {
    match x
    case Undefined => false
    case Defined(Str(s)) => s != ""
    case Defined(Num(n)) => n != 0.0
  }

  /** A primitive as the `===` operator sees it: its type and its value. */
  datatype Prim = PStr(text: string) | PNum(num: real)

  /** Strict equality: operands of different types are never equal. */
  predicate StrictEquals(a: Prim, b: Prim) {
    match (a, b)
    case (PStr(x), PStr(y)) => x == y
    case (PNum(x), PNum(y)) => x == y
    case _ => false
  }

  /** `mkr.default(value, fallback)`: the fallback replaces only `undefined`. */
  function Default<T>(value: JsVal<T>, fallback: JsVal<T>): (r: JsVal<T>)
    ensures value.Defined? ==> r == value
    ensures value.Undefined? ==> r == fallback
    ensures fallback.Defined? ==> r.Defined?
  {
    if value.Undefined? then fallback else value
  }

  /** Reading `target[key]` from an object modelled as a map (absent = undefined). */
  function Get<T>(target: map<string, T>, key: string): JsVal<T> {
    if key in target then Defined(target[key]) else Undefined
  }

  /** Assigning `target[key] = v`; assigning `undefined` leaves no readable value. */
  function Put<T>(target: map<string, T>, key: string, v: JsVal<T>): (r: map<string, T>)
    ensures Get(r, key) == v
    ensures forall k :: k != key ==> Get(r, k) == Get(target, k)
  {
    match v
    case Defined(x) => target[key := x]
    case Undefined => target - {key}
  }

  /** `mkr.getDefault(target, key, value)`. */
  function GetDefault<T>(target: map<string, T>, key: string, value: JsVal<T>): (r: JsVal<T>)
    ensures key in target ==> r == Defined(target[key])
    ensures key !in target ==> r == value
  {
    Default(Get(target, key), value)
  }

  /** The object after `mkr.setDefault(target, key, value)` together with the value it returns. */
  datatype Assigned<T> = Assigned(target: map<string, T>, value: JsVal<T>)

  /**
   * `mkr.setDefault(target, key, value)`: `target[key] = default(target[key], value)`,
   * then returns `target[key]`.
   */
  function SetDefault<T>(target: map<string, T>, key: string, value: JsVal<T>): (r: Assigned<T>)
    ensures r.value == GetDefault(target, key, value)
    ensures Get(r.target, key) == r.value
    ensures key in target ==> r.target == target
    ensures forall k :: k != key ==> Get(r.target, k) == Get(target, k)
  {
    var v := GetDefault(target, key, value);
    Assigned(Put(target, key, v), v)
  }

  /** A second `setDefault` on the same key changes nothing and returns the first result. */
  lemma SetDefaultIdempotent<T>(target: map<string, T>, key: string, value: JsVal<T>, other: JsVal<T>)
    requires value.Defined?
    ensures SetDefault(SetDefault(target, key, value).target, key, other) == SetDefault(target, key, value)
  {
  }

  /** The character of one decimal digit. */
  function DigitChar(d: nat): (c: char)
    requires d < 10
    ensures c as int - '0' as int == d
  {
    ('0' as int + d) as char
  }

  /** The decimal text of a whole number, as `String(n)` produces it. */
  function Decimal(n: nat): (s: string)
    ensures |s| >= 1
    ensures n >= 10 ==> |s| >= 2
    decreases n
  {
    if n < 10 then [DigitChar(n)] else Decimal(n / 10) + [DigitChar(n % 10)]
  }

  /** Distinct numbers have distinct decimal texts. */
  lemma {:induction false} DecimalInjective(a: nat, b: nat)
    ensures Decimal(a) == Decimal(b) ==> a == b
    decreases a
  {
    if Decimal(a) == Decimal(b) {
      if a < 10 && b < 10 {
        assert DigitChar(a) == Decimal(a)[0] == Decimal(b)[0] == DigitChar(b);
      } else if a >= 10 && b >= 10 {
        var sa, sb := Decimal(a / 10), Decimal(b / 10);
        assert Decimal(a) == sa + [DigitChar(a % 10)];
        assert Decimal(b) == sb + [DigitChar(b % 10)];
        assert |sa| == |sb|;
        assert DigitChar(a % 10) == Decimal(a)[|sa|] == DigitChar(b % 10);
        assert sa == Decimal(a)[..|sa|] == sb;
        DecimalInjective(a / 10, b / 10);
      }
    }
  }
}
