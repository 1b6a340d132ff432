/** JavaScript values as the issue handlers see them: request fields that may be
    missing, the truthiness tests the handlers apply, and the property values an
    issue record can hold. */
module JsValues {

  datatype Option<+T> = None | Some(value: T)

  /** Timestamps (`new Date()`) are taken as parameters, as milliseconds. */
  type Time = int

  /** `!!x` for a request field that is a string or `undefined`: only a present,
      non-empty string is truthy. */
  predicate Truthy(o: Option<string>)
  {
    o.Some? && o.value != ""
  }

  /** A property value read from an issue object: one of its own fields (a string,
      the `open` flag or a `Date`), or a member it inherits from `Object.prototype`
      (a function or object). */
  datatype Value =
    | Str(s: string)
    | Bool(b: bool)
    | Date(t: Time)
    | Inherited(name: string)

  /** JavaScript truthiness of a property value: a `Date` object and an inherited
      function are always truthy. */
  predicate ValueTruthy(v: Value)
  {
    match v
    case Str(s) => s != ""
    case Bool(b) => b
    case Date(_) => true
    case Inherited(_) => true
  }

  /** `v === q` for a query value `q`, which is always a string: only a string
      property with the same characters is strictly equal to it. */
  predicate StrictEqualsString(v: Value, q: string)
  {
    v.Str? && v.s == q
  }

  /** The names every plain object (`{}` or an object literal) inherits from
      `Object.prototype`; reading any of them yields a truthy value. */
  const ObjectPrototypeMembers: set<string> :=
    {"constructor", "hasOwnProperty", "isPrototypeOf", "propertyIsEnumerable",
     "toString", "toLocaleString", "valueOf", "__proto__",
     "__defineGetter__", "__defineSetter__", "__lookupGetter__", "__lookupSetter__"}
}
