/**
 * The JavaScript values the dispatcher handles: turn descriptions, messages,
 * session attributes and the handler sets passed to `registerHandlers`.
 *
 * An object is an ordered list of own properties; the order is the order in
 * which `Object.keys` lists them. A function value is a listener: either one
 * of the five built-in response actions or an application handler, whose
 * body is abstracted as the list of `emit` calls it makes.
 */
module Js {

  /** The five built-in listeners, one per action event name. */
  datatype Action = OnTell | OnConfirm | OnElicit | OnDelegate | OnResponseReady

  /** One call `this.emit(name, ...args)` made by an application handler. */
  datatype Emission = Emission(name: string, args: seq<JsValue>)

  datatype Listener =
    | Builtin(action: Action)
    | App(script: seq<Emission>)

  datatype Prop = Prop(key: string, value: JsValue)

  /**
   * `plain` records whether an object's `constructor` is the built-in
   * `Object` (object literals); class instances and `Object.create(null)`
   * objects are not plain.
   */
  datatype JsValue =
    | Undefined
    | Null
    | Bool(b: bool)
    | Num(n: int)
    | Str(s: string)
    | Object(props: seq<Prop>, plain: bool)
    | Function(listener: Listener)

  /** The literal `{}`. */
  const EmptyObject: JsValue := Object([], true)

  /** JavaScript truthiness (`!!v`). */
  predicate Truthy(v: JsValue) {
    match v
    case Undefined => false
    case Null => false
    case Bool(b) => b
    case Num(n) => n != 0
    case Str(s) => s != ""
    case Object(_, _) => true
    case Function(_) => true
  }

  /** `a || b` */
  function Or(a: JsValue, b: JsValue): JsValue {
    if Truthy(a) then a else b
  }

  /** The value of the first own property named `key`, or `undefined`. */
  function GetProp(props: seq<Prop>, key: string): JsValue {
    if props == [] then Undefined
    else if props[0].key == key then props[0].value
    else GetProp(props[1..], key)
  }

  /** Property read `v[key]` on a value that is not `undefined` or `null`. */
  function Get(v: JsValue, key: string): JsValue {
    if v.Object? then GetProp(v.props, key) else Undefined
  }

  /** The first property named `key` is the one a read finds. */
  lemma {:induction false} GetPropFirst(props: seq<Prop>, key: string, i: nat)
    requires i < |props| && props[i].key == key
    requires forall j :: 0 <= j < i ==> props[j].key != key
    ensures GetProp(props, key) == props[i].value
  {
    if i > 0 {
      GetPropFirst(props[1..], key, i - 1);
    }
  }

  /** True iff `key` is an own property. */
  predicate HasProp(props: seq<Prop>, key: string) {
    exists i :: 0 <= i < |props| && props[i].key == key
  }

  /** `Object.keys` of an object's property list. */
  function KeysOf(props: seq<Prop>): (keys: seq<string>)
    ensures |keys| == |props|
    ensures forall i :: 0 <= i < |props| ==> keys[i] == props[i].key
  {
    if props == [] then [] else [props[0].key] + KeysOf(props[1..])
  }

  /**
   * Property assignment `obj[key] = v`: an existing property keeps its
   * place, a new one is added at the end.
   */
  function SetProp(props: seq<Prop>, key: string, v: JsValue): (r: seq<Prop>)
    ensures GetProp(r, key) == v
    ensures forall k :: k != key ==> GetProp(r, k) == GetProp(props, k)
    ensures HasProp(props, key) ==> KeysOf(r) == KeysOf(props)
    ensures !HasProp(props, key) ==> KeysOf(r) == KeysOf(props) + [key]
  {
    if props == [] then [Prop(key, v)]
    else if props[0].key == key then
      assert HasProp(props, key) by { assert props[0].key == key; }
      [Prop(key, v)] + props[1..]
    else
      assert HasProp(props, key) <==> HasProp(props[1..], key) by {
        if HasProp(props, key) {
          var i :| 0 <= i < |props| && props[i].key == key;
          assert props[1..][i - 1].key == key;
        }
        if HasProp(props[1..], key) {
          var i :| 0 <= i < |props[1..]| && props[1..][i].key == key;
          assert props[i + 1].key == key;
        }
      }
      [props[0]] + SetProp(props[1..], key, v)
  }

  /** Decimal digits of a natural number. */
  function NatToString(n: nat): string
    decreases n
  {
    var digit := ["0123456789"[n % 10]];
    if n < 10 then digit else NatToString(n / 10) + digit
  }

  /**
   * String conversion as in a template literal or a property key. Objects
   * convert with the default `toString`; function values with a fixed text.
   */
  function ToString(v: JsValue): string {
    match v
    case Undefined => "undefined"
    case Null => "null"
    case Bool(b) => if b then "true" else "false"
    case Num(n) => if n < 0 then "-" + NatToString(-n) else NatToString(n)
    case Str(s) => s
    case Object(_, _) => "[object Object]"
    case Function(_) => "function () { [native code] }"
  }
}
