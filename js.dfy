/**
 * The slice of JavaScript the validator relies on: JSON-like values, plain
 * objects whose properties can be deleted in place, `typeof`, truthiness,
 * `Array.isArray`, `Math.floor`, property reads that yield `undefined`,
 * `Array.prototype.join` and the decimal spelling of an array index.
 *
 * `undefined` is not a `Value`: a value that may be absent is an
 * `Option<Value>`, and `None` is `undefined`.
 */
module Js {
  import opened Wrappers

  /** A JSON-like value. Numbers are finite; objects are references. */
  datatype Value =
    | Null
    | Bool(b: bool)
    | Num(x: real)
    | Str(s: string)
    | Arr(elems: seq<Value>)
    | Obj(obj: JsObject)

  /** A plain object. Its own enumerable properties are `fields`; `delete`
      removes a key from it, visibly to every holder of the reference. */
  class JsObject {
    var fields: map<string, Value>

    /** An object literal with these properties. */
    constructor (fields: map<string, Value>)
      ensures this.fields == fields
    {
      this.fields := fields;
    }
  }

  /**
   * The data object a visit works on: either an object of the caller
   * (`Shared`), or one the validator itself allocated and that nothing else
   * references (`Local`), such as the `{}` that replaces an absent object or
   * the one-key `{index: element}` wrapper of an array element.
   */
  datatype Target = Shared(obj: JsObject) | Local(fields: map<string, Value>)

  /** The properties of a data object as they are now. */
  function FieldsOf(t: Target): map<string, Value>
    reads if t.Shared? then {t.obj} else {}
  {
    match t
    case Shared(o) => o.fields
    case Local(m) => m
  }

  /** `obj[name]`: a missing key reads as `undefined`. */
  function Lookup(fields: map<string, Value>, name: string): Option<Value>
  {
    if name in fields then Some(fields[name]) else None
  }

  /** After `delete obj[k]`, reading `k` yields `undefined` and reading any
      other name yields what it did before. */
  lemma ReadAfterDelete(fields: map<string, Value>, k: string, name: string)
    ensures Lookup(fields - {k}, name) == if name == k then None else Lookup(fields, name)
  {
  }

  /** The `typeof` operator. */
  function TypeOf(v: Option<Value>): (r: string)
    ensures r == "undefined" <==> v.None?
    ensures r == "object" <==> v.Some? && (v.value.Null? || v.value.Arr? || v.value.Obj?)
    ensures r in {"undefined", "object", "boolean", "number", "string"}
  {
    match v
    case None => "undefined"
    case Some(Null) => "object"
    case Some(Bool(_)) => "boolean"
    case Some(Num(_)) => "number"
    case Some(Str(_)) => "string"
    case Some(Arr(_)) => "object"
    case Some(Obj(_)) => "object"
  }

  /** ECMAScript ToBoolean, as `&&`, `||` and `!` apply it. */
  function Truthy(v: Option<Value>): (r: bool)
    ensures v.None? || v == Some(Null) ==> !r
    ensures v.Some? && (v.value.Arr? || v.value.Obj?) ==> r
    ensures v.Some? && v.value.Str? ==> (r <==> |v.value.s| > 0)
  {
    match v
    case None => false
    case Some(Null) => false
    case Some(Bool(b)) => b
    case Some(Num(x)) => x != 0.0
    case Some(Str(s)) => s != ""
    case Some(Arr(_)) => true
    case Some(Obj(_)) => true
  }

  /** `Array.isArray`. */
  function IsArray(v: Option<Value>): (r: bool)
    ensures r ==> TypeOf(v) == "object" && Truthy(v)
    ensures v.Some? && v.value.Arr? ==> r
    ensures v == Some(Null) || (v.Some? && v.value.Obj?) ==> !r
  {
    v.Some? && v.value.Arr?
  }

  /** `Math.floor` on a finite number. */
  function MathFloor(x: real): (r: real)
    ensures r.Floor as real == r
    ensures r <= x < r + 1.0
  {
    x.Floor as real
  }

  /** `parts.join(sep)`. */
  function Join(parts: seq<string>, sep: string): (r: string)
    ensures |parts| == 0 ==> r == ""
    ensures |parts| > 0 ==> |parts[0]| <= |r| && r[..|parts[0]|] == parts[0]
  {
    if |parts| == 0 then ""
    else if |parts| == 1 then parts[0]
    else parts[0] + sep + Join(parts[1..], sep)
  }

  /** Joining one more part appends the separator and the part. */
  lemma {:induction false} JoinSnoc(parts: seq<string>, last: string, sep: string)
    requires |parts| > 0
    ensures Join(parts + [last], sep) == Join(parts, sep) + sep + last
  {
    if |parts| > 1 {
      assert (parts + [last])[1..] == parts[1..] + [last];
      JoinSnoc(parts[1..], last, sep);
    }
  }

  /** The property key an array index becomes: `String(index)`. */
  function IndexKey(index: nat): (s: string)
    ensures |s| >= 1
    ensures index >= 10 ==> |s| >= 2
    ensures forall c | c in s :: '0' <= c <= '9'
  {
    if index < 10 then [Digit(index)]
    else IndexKey(index / 10) + [Digit(index % 10)]
  }

  function Digit(d: nat): (c: char)
    requires d < 10
    ensures '0' <= c <= '9'
  {
    "0123456789"[d]
  }

  /** Distinct indices are spelled differently. */
  lemma {:induction false} IndexKeyInjective(a: nat, b: nat)
    requires IndexKey(a) == IndexKey(b)
    ensures a == b
  {
    var s := IndexKey(a);
    if a >= 10 && b >= 10 {
      assert IndexKey(a / 10) == s[..|s| - 1] == IndexKey(b / 10);
      IndexKeyInjective(a / 10, b / 10);
      assert Digit(a % 10) == s[|s| - 1] == Digit(b % 10);
      DigitInjective(a % 10, b % 10);
    } else if a < 10 && b < 10 {
      DigitInjective(a, b);
    }
  }

  lemma DigitInjective(a: nat, b: nat)
    requires a < 10 && b < 10 && Digit(a) == Digit(b)
    ensures a == b
  {
  }
}
