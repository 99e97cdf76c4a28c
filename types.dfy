/**
 * The type predicates of the validator, written as the JavaScript
 * expressions they are (over `typeof`, truthiness and `Array.isArray`), each
 * with a contract that says which values it accepts, and the registry that
 * maps a schema's `type` name to its predicate.
 */
module Types {
  import opened Wrappers
  import opened Js

  /** `typeof value === 'number' && Math.floor(value) === value` */
  function Integer(value: Option<Value>): (r: bool)
    ensures r <==> value.Some? && value.value.Num? && value.value.x.Floor as real == value.value.x
  {
    TypeOf(value) == "number" && MathFloor(value.value.x) == value.value.x
  }

  /** `typeof value === 'string'` */
  function String(value: Option<Value>): (r: bool)
    ensures r <==> value.Some? && value.value.Str?
  {
    TypeOf(value) == "string"
  }

  /** `Array.isArray(value)` */
  function Array(value: Option<Value>): (r: bool)
    ensures r <==> value.Some? && value.value.Arr?
  {
    IsArray(value)
  }

  /** `typeof value === 'object' && value && !Array.isArray(value)`:
      `null` (typeof "object" but falsy) and arrays are rejected. */
  function Object(value: Option<Value>): (r: bool)
    ensures r <==> value.Some? && value.value.Obj?
  {
    TypeOf(value) == "object" && Truthy(value) && !IsArray(value)
  }

  /** `value === true || value === false` */
  function Boolean(value: Option<Value>): (r: bool)
    ensures r <==> value.Some? && value.value.Bool?
  {
    value == Some(Bool(true)) || value == Some(Bool(false))
  }

  /** The `types` object: a schema's `type` names one of these keys. */
  const Registry: map<string, Option<Value> -> bool> :=
    map["integer" := Integer, "string" := String, "array" := Array,
        "object" := Object, "boolean" := Boolean]

  /** No value is both an object and an array, nor both a string and an
      integer, and each kind of value passes at most one predicate. */
  lemma Exclusive(value: Option<Value>)
    ensures !(Object(value) && Array(value))
    ensures !(String(value) && Integer(value))
    ensures !(Boolean(value) && (Integer(value) || String(value) || Array(value) || Object(value)))
  {
  }

  /** The absent value passes no predicate. */
  lemma UndefinedHasNoType(name: string)
    requires name in Registry
    ensures !Registry[name](None)
  {
  }

  /** The test cases of the predicates: the string '1337' is not an
      integer, the number 1337 is not a string, null and arrays are not
      objects, 1.5 is not an integer. */
  lemma Examples()
    ensures Integer(Some(Num(1337.0))) && !Integer(Some(Str("1337"))) && !Integer(Some(Num(1.5)))
    ensures String(Some(Str("1337"))) && !String(Some(Num(1337.0)))
    ensures !Object(Some(Null)) && !Object(Some(Arr([])))
    ensures Array(Some(Arr([]))) && !Array(Some(Str("")))
  {
  }
}
