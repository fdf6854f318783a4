/**
 * The JavaScript values that flow through the extension (dataLayer items,
 * `message.data`), with the three operations the scripts apply to them:
 * truthiness, property read and `Object.keys`.
 */
module Js {
  import opened Wrappers
  import opened Text

  /**
   * A JavaScript value. Numbers are integers; an object (arrays and the
   * `arguments` object included) is its own enumerable properties in
   * `Object.keys` order, one entry per key.
   */
  datatype JsValue =
    | Undefined
    | Null
    | Bool(b: bool)
    | Number(n: int)
    | Str(s: string)
    | Object(props: seq<(string, JsValue)>)

  /** JavaScript truthiness: `undefined`, `null`, `false`, `0` and `""` are falsy. */
  predicate Truthy(v: JsValue) {
    match v
    case Undefined => false
    case Null => false
    case Bool(b) => b
    case Number(n) => n != 0
    case Str(s) => s != ""
    case Object(_) => true
  }

  /** The falsy values are exactly `undefined`, `null`, `false`, `0` and `""`; every object is truthy. */
  lemma FalsyValues(v: JsValue)
    ensures !Truthy(v) <==> v == Undefined || v == Null || v == Bool(false) || v == Number(0) || v == Str("")
    ensures v.Object? ==> Truthy(v)
  {
  }

  /** The position of the first property named `key`. */
  function FindKey(props: seq<(string, JsValue)>, key: string): (i: Option<nat>)
    ensures i.Some? ==> i.value < |props| && props[i.value].0 == key
    ensures i.Some? ==> forall j :: 0 <= j < i.value ==> props[j].0 != key
    ensures i.None? ==> forall j :: 0 <= j < |props| ==> props[j].0 != key
  {
    if props == [] then None
    else if props[0].0 == key then Some(0)
    else match FindKey(props[1..], key)
      case None => None
      case Some(k) => Some(k + 1)
  }

  /**
   * `v[key]`: the property of an object, `undefined` when it has none. The
   * modelled code reads properties only of objects (a string's index
   * properties are never read), so primitives have none here.
   */
  function Get(v: JsValue, key: string): (r: JsValue)
    ensures !v.Object? ==> r == Undefined
  {
    match v
    case Object(props) =>
      (match FindKey(props, key)
       case Some(i) => props[i].1
       case None => Undefined)
    case _ => Undefined
  }

  /** Reading `key` from an object yields the value of the first property with that name. */
  lemma GetFirstProperty(v: JsValue, key: string, i: nat)
    requires v.Object? && i < |v.props| && v.props[i].0 == key
    requires forall j :: 0 <= j < i ==> v.props[j].0 != key
    ensures Get(v, key) == v.props[i].1
  {
  }

  /** Reading a key that no property of an object has yields `undefined`. */
  lemma GetMissingProperty(v: JsValue, key: string)
    requires v.Object? && forall j :: 0 <= j < |v.props| ==> v.props[j].0 != key
    ensures Get(v, key) == Undefined
  {
  }

  /** `Object.keys(v)`: an object's keys in order, a string's indices "0", "1", ... */
  function OwnKeys(v: JsValue): (keys: seq<string>)
    ensures v.Object? ==> |keys| == |v.props| && forall k :: 0 <= k < |keys| ==> keys[k] == v.props[k].0
    ensures !v.Object? && !v.Str? ==> keys == []
  {
    match v
    case Object(props) => seq(|props|, k requires 0 <= k < |props| => props[k].0)
    case Str(s) => seq(|s|, k requires 0 <= k < |s| => NatToString(k))
    case _ => []
  }
}
