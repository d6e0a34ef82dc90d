/** JSON values, the JavaScript values the config code handles, and the parts
    of JavaScript object semantics it depends on: truthiness, own-property
    checks, property reads and `String(value)`. */
module JsonValues {
  import opened Wrappers
  import opened Text

  /** A JSON value as `JSON.parse` returns it; numbers are integers here. */
  datatype Json =
    | JNull
    | JBool(b: bool)
    | JNum(n: int)
    | JStr(s: string)
    | JArr(items: seq<Json>)
    | JObj(fields: map<string, Json>)

  /** The value of a JavaScript expression: `undefined`, a JSON value, or a
      member every ordinary object inherits from `Object.prototype`. */
  datatype JsValue = Undefined | Val(json: Json) | Inherited(name: string)

  /** The members an ordinary object inherits from `Object.prototype`. */
  const ObjectPrototypeNames: set<string> :=
    {"constructor", "hasOwnProperty", "isPrototypeOf", "propertyIsEnumerable",
     "toLocaleString", "toString", "valueOf", "__defineGetter__",
     "__defineSetter__", "__lookupGetter__", "__lookupSetter__", "__proto__"}

  /** `obj[key]` on an ordinary object whose own properties are `fields`. */
  function GetProperty(fields: map<string, Json>, key: string): JsValue {
    if key in fields then Val(fields[key])
    else if key in ObjectPrototypeNames then Inherited(key)
    else Undefined
  }

  /** JavaScript truthiness: `undefined`, `null`, `false`, `0` and `""` are falsy. */
  predicate Truthy(v: JsValue) {
    match v
    case Undefined => false
    case Inherited(_) => true
    case Val(JNull) => false
    case Val(JBool(b)) => b
    case Val(JNum(n)) => n != 0
    case Val(JStr(s)) => s != ""
    case Val(_) => true
  }

  /** `typeof v === 'object' && v !== null && !Array.isArray(v)`. */
  predicate IsPlainObject(v: JsValue) {
    v.Val? && v.json.JObj?
  }

  /** The array index a property key names: decimal digits without a leading zero. */
  function ArrayIndex(key: string): Option<nat> {
    if |key| > 0 && AllDigits(key) && (key[0] != '0' || |key| == 1) then Some(DecimalValue(key))
    else None
  }

  /** `key` names an element of a sequence of length `n`. */
  predicate IsElementKey(key: string, n: nat) {
    ArrayIndex(key).Some? && ArrayIndex(key).value < n
  }

  /** Own properties of a JSON value seen as a JavaScript value: the fields of
      an object; the elements and `length` of an array or a string. */
  predicate HasOwn(v: Json, key: string) {
    match v
    case JObj(fields) => key in fields
    case JArr(items) => key == "length" || IsElementKey(key, |items|)
    case JStr(s) => key == "length" || IsElementKey(key, |s|)
    case _ => false
  }

  /** `v[key]` for a property `v` owns; `Undefined` when it owns none of that name. */
  function OwnProperty(v: Json, key: string): JsValue {
    match v
    case JObj(fields) => if key in fields then Val(fields[key]) else Undefined
    case JArr(items) =>
      if key == "length" then Val(JNum(|items|))
      else if IsElementKey(key, |items|) then Val(items[ArrayIndex(key).value])
      else Undefined
    case JStr(s) =>
      if key == "length" then Val(JNum(|s|))
      else if IsElementKey(key, |s|) then Val(JStr([s[ArrayIndex(key).value]]))
      else Undefined
    case _ => Undefined
  }

  /** `v[key]` on a JSON value other than `null` (reading a property of
      `null` throws): own properties first, then the members every object
      inherits. */
  function MemberOf(v: Json, key: string): JsValue
    requires !v.JNull?
  {
    if v.JObj? then GetProperty(v.fields, key)
    else if HasOwn(v, key) then OwnProperty(v, key)
    else if key in ObjectPrototypeNames then Inherited(key)
    else Undefined
  }

  /** The `TypeError`s a property access, a method call or a conversion can throw. */
  datatype TypeError =
    | CannotReadProperty(target: string, property: string)
    | NotAFunction(property: string)
    | CannotConvertToPrimitive // "Cannot convert object to primitive value"

  /** `v` is, or holds inside arrays, an object with an own `toString`
      field. Turning such an object into a string finds a `toString` that is
      not callable and then the inherited `valueOf`, which returns the object
      itself, so the conversion throws. Arrays convert their elements through
      `join`; an object's other fields are never looked at. */
  predicate HasUnconvertibleObject(v: Json)
    decreases v
  {
    match v
    case JObj(fields) => "toString" in fields
    case JArr(items) => exists i :: 0 <= i < |items| && HasUnconvertibleObject(items[i])
    case _ => false
  }

  /** The element strings of an array joined with commas, or the first
      conversion that threw. */
  function JoinKeys(keys: seq<Result<string, TypeError>>): (r: Result<string, TypeError>)
    ensures r.Failure? <==> exists i :: 0 <= i < |keys| && keys[i].Failure?
    ensures r.Failure? ==> exists i :: 0 <= i < |keys| && keys[i].Failure? && r.error == keys[i].error
    decreases |keys|
  {
    if keys == [] then Success("")
    else if keys[0].Failure? then Failure(keys[0].error)
    else if |keys| == 1 then Success(keys[0].value)
    else
      match JoinKeys(keys[1..])
      case Failure(e) => Failure(e)
      case Success(rest) => Success(keys[0].value + "," + rest)
  }

  /** `ToPropertyKey(v)`: the property key a value turns into when it is
      used as one, which is `String(v)` for JSON values. Arrays join their
      elements with commas, printing `null` elements as empty strings; an
      object prints as `[object Object]` unless its own `toString` field
      hides the inherited method. */
  function ToPropertyKey(v: Json): (r: Result<string, TypeError>)
    ensures r.Failure? <==> HasUnconvertibleObject(v)
    ensures r.Failure? ==> r.error == CannotConvertToPrimitive
    ensures v.JStr? ==> r == Success(v.s)
    ensures v.JObj? && "toString" !in v.fields ==> r == Success("[object Object]")
    decreases v
  {
    match v
    case JNull => Success("null")
    case JBool(b) => Success(if b then "true" else "false")
    case JNum(n) => Success(IntToDecimal(n))
    case JStr(s) => Success(s)
    case JArr(items) =>
      var keys := seq(|items|, i requires 0 <= i < |items| =>
                    if items[i].JNull? then Success("") else ToPropertyKey(items[i]));
      assert forall i :: 0 <= i < |items| ==> (keys[i].Failure? <==> HasUnconvertibleObject(items[i]));
      JoinKeys(keys)
    case JObj(fields) =>
      if "toString" in fields then Failure(CannotConvertToPrimitive) else Success("[object Object]")
  }

  /** The call `target.hasOwnProperty(key)`. Reading the method throws on
      `undefined` and `null`; calling it throws on an object whose own
      `hasOwnProperty` field shadows the inherited method (a JSON value is
      never a function); the call then turns `key` into a property key,
      which can throw too. An inherited built-in method owns `length` and
      `name`. */
  function CallHasOwnProperty(target: JsValue, key: Json): (r: Result<bool, TypeError>)
    ensures r.Failure? <==>
      (|| target.Undefined?
       || target == Val(JNull)
       || (target.Val? && target.json.JObj? && "hasOwnProperty" in target.json.fields)
       || HasUnconvertibleObject(key))
    ensures r.Success? && target.Val? ==> (r.value <==> HasOwn(target.json, ToPropertyKey(key).value))
  {
    match target
    case Undefined => Failure(CannotReadProperty("undefined", "hasOwnProperty"))
    case Inherited(_) =>
      (match ToPropertyKey(key)
       case Failure(e) => Failure(e)
       case Success(k) => Success(k == "length" || k == "name"))
    case Val(j) =>
      if j.JNull? then Failure(CannotReadProperty("null", "hasOwnProperty"))
      else if j.JObj? && "hasOwnProperty" in j.fields then Failure(NotAFunction("hasOwnProperty"))
      else
        match ToPropertyKey(key)
        case Failure(e) => Failure(e)
        case Success(k) => Success(HasOwn(j, k))
  }

  /** A mutable JavaScript object with JSON-valued own properties: the config
      read from `rolo.config.json`, or a manifest read from `manifest.json`. */
  class JsObject {
    var fields: map<string, Json>

    constructor (fields: map<string, Json>)
      ensures this.fields == fields
    {
      this.fields := fields;
    }
  }
}
