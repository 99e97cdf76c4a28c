/**
 * The transpiled twin of the type predicates. It differs from the original
 * in one place: `object` goes through the `_typeof` helper, which reports
 * "symbol" for Symbol values and `typeof` otherwise.
 */
module LibTypes {
  import opened Wrappers
  import opened Js
  import Types

  /** `_typeof(obj)`. JSON-like values hold no Symbol, so the helper's
      Symbol branch never fires and it is `typeof`. */
  function TypeOfHelper(value: Option<Value>): (r: string)
    ensures r != "symbol"
    ensures r == "undefined" <==> value.None?
    ensures r == "object" <==> value.Some? && (value.value.Null? || value.value.Arr? || value.value.Obj?)
  {
    TypeOf(value)
  }

  function Integer(value: Option<Value>): (r: bool)
    ensures r <==> value.Some? && value.value.Num? && MathFloor(value.value.x) == value.value.x
  {
    TypeOf(value) == "number" && MathFloor(value.value.x) == value.value.x
  }

  function String(value: Option<Value>): (r: bool)
    ensures r <==> value.Some? && value.value.Str?
  {
    TypeOf(value) == "string"
  }

  function Array(value: Option<Value>): (r: bool)
    ensures r <==> value.Some? && value.value.Arr?
  {
    IsArray(value)
  }

  /** `(typeof value === 'undefined' ? 'undefined' : _typeof(value)) === 'object'
      && value && !Array.isArray(value)` */
  function Object(value: Option<Value>): (r: bool)
    ensures r <==> value.Some? && value.value.Obj?
  {
    (if TypeOf(value) == "undefined" then "undefined" else TypeOfHelper(value)) == "object"
    && Truthy(value) && !IsArray(value)
  }

  function Boolean(value: Option<Value>): (r: bool)
    ensures r <==> value.Some? && value.value.Bool?
  {
    value == Some(Bool(true)) || value == Some(Bool(false))
  }

  /** On every value, including `undefined`, each predicate agrees with its
      counterpart in the untranspiled module. */
  lemma AgreesWithSource(value: Option<Value>)
    ensures Integer(value) == Types.Integer(value)
    ensures String(value) == Types.String(value)
    ensures Array(value) == Types.Array(value)
    ensures Object(value) == Types.Object(value)
    ensures Boolean(value) == Types.Boolean(value)
  {
  }
}
