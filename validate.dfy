/**
 * The single-field validator: one named field of a parent data object is
 * checked against one schema node. The checks run in a fixed order
 * (required, then absent-means-valid, then type, then format), stop at the
 * first failure, and write at most one error, under a key built from the
 * path stack with its first, synthetic element dropped.
 */
module Validate {
  import opened Wrappers
  import opened Js
  import opened Schema
  import Types

  /** The `formats` object: format name to the test of its regular
      expression. The test receives the value itself (the regex coerces it
      to a string). */
  type Formats = map<string, Value -> bool>

  /** The shared, mutable `errors` object: dotted path to error text. */
  class ErrorMap {
    var entries: map<string, string>

    constructor ()
      ensures entries == map[]
    {
      entries := map[];
    }
  }

  /** `path.slice(1)`: a copy without the first element (none if empty). */
  function SliceFrom1(path: seq<string>): (r: seq<string>)
    ensures |r| == if |path| == 0 then 0 else |path| - 1
    ensures forall i | 0 <= i < |r| :: r[i] == path[i + 1]
  {
    if |path| == 0 then [] else path[1..]
  }

  /** The key an error for field `name` is stored under. */
  function ErrorKey(path: seq<string>, name: string): (r: string)
    ensures |path| <= 1 ==> r == name
    ensures |path| > 1 ==> r == Join(path[1..], ".") + "." + name
  {
    if |path| > 1 then
      assert SliceFrom1(path) == path[1..];
      JoinSnoc(path[1..], name, ".");
      Join(SliceFrom1(path) + [name], ".")
    else
      assert SliceFrom1(path) + [name] == [name];
      Join(SliceFrom1(path) + [name], ".")
  }

  /** `!(typeof value === 'undefined' && node.required)` */
  function IsValidRequired(node: Node, value: Option<Value>): (r: bool)
    ensures value.Some? ==> r
    ensures !node.required ==> r
    ensures value.None? && node.required ==> !r
  {
    !(value.None? && node.required)
  }

  /** `types[node.type]` applied to the value; an unregistered type name
      fails the check instead of throwing. */
  function IsValidType(node: Node, value: Option<Value>): (r: bool)
    ensures r ==> value.Some? && node.typeName in Types.Registry
    ensures node.typeName == "integer" ==> (r <==> value.Some? && value.value.Num? && value.value.x.Floor as real == value.value.x)
    ensures node.typeName == "string" ==> (r <==> value.Some? && value.value.Str?)
    ensures node.typeName == "array" ==> (r <==> value.Some? && value.value.Arr?)
    ensures node.typeName == "object" ==> (r <==> value.Some? && value.value.Obj?)
    ensures node.typeName == "boolean" ==> (r <==> value.Some? && value.value.Bool?)
  {
    node.typeName in Types.Registry && Types.Registry[node.typeName](value)
  }

  /** `!node.format`: the format check is skipped for a missing or empty name. */
  function HasFormat(node: Node): (r: bool)
    ensures r <==> node.format.Some? && Truthy(Some(Str(node.format.value)))
  {
    node.format.Some? && node.format.value != ""
  }

  /** The format check: `None` when it throws, because the name is not in
      the registry and `formats[name].test` is a call on `undefined`. */
  function IsValidFormat(node: Node, value: Value, formats: Formats): Option<bool>
  {
    if !HasFormat(node) then Some(true)
    else if node.format.value in formats then Some(formats[node.format.value](value))
    else None
  }

  /** What one call of `isValid` decides. */
  datatype Verdict = Valid | Invalid(reason: string) | Throws

  /** The verdict on `value` (the field's value, `None` if absent). */
  function Check(node: Node, value: Option<Value>, formats: Formats): (r: Verdict)
    // required wins over everything, and is the only source of "is required"
    ensures r == Invalid("is required") <==> value.None? && node.required
    // an absent optional field is valid, and no other check runs
    ensures value.None? && !node.required ==> r == Valid
    // a present value of the wrong (or an unregistered) type
    ensures value.Some? && !IsValidType(node, value) ==> r == Invalid("type must be " + node.typeName)
    // the format check runs only on a present, well-typed value with a format
    ensures r.Throws? <==> value.Some? && IsValidType(node, value) && HasFormat(node) && node.format.value !in formats
    ensures HasFormat(node) ==>
      (r == Invalid("format must be " + node.format.value) <==>
       value.Some? && IsValidType(node, value) &&
       node.format.value in formats && !formats[node.format.value](value.value))
    // every other outcome is a pass
    ensures r.Valid? <==>
      ((value.None? && !node.required) ||
       (value.Some? && IsValidType(node, value) &&
        (!HasFormat(node) || (node.format.value in formats && formats[node.format.value](value.value)))))
  {
    if !IsValidRequired(node, value) then Invalid("is required")
    else if value.None? then Valid
    else if !IsValidType(node, value) then
      assert ("type must be " + node.typeName)[0] == 't';
      Invalid("type must be " + node.typeName)
    else match IsValidFormat(node, value.value, formats)
      case None => Throws
      case Some(false) => Invalid("format must be " + node.format.value)
      case Some(true) => Valid
  }

  /**
   * The validate object: `validateFactory(node, data, name, path, errors)`
   * creates it and `init` fixes its fields, reading the field's value once.
   * The format registry is passed in rather than required as a module.
   */
  class NodeValidator {
    const node: Node
    const data: Target
    const name: string
    const path: seq<string>
    const errors: ErrorMap
    const value: Option<Value>
    const formats: Formats

    constructor (node: Node, data: Target, name: string, path: seq<string>, errors: ErrorMap, formats: Formats)
      ensures this.node == node && this.data == data && this.name == name
      ensures this.path == path && this.errors == errors && this.formats == formats
      ensures value == Lookup(FieldsOf(data), name)
    {
      this.node := node;
      this.data := data;
      this.name := name;
      this.path := path;
      this.errors := errors;
      this.value := Lookup(FieldsOf(data), name);
      this.formats := formats;
    }

    /** Store `error` under this field's key; no other entry changes, and
        the path stack is left alone because only a copy is extended. */
    method AddError(error: string)
      modifies errors
      ensures errors.entries == old(errors.entries)[ErrorKey(path, name) := error]
    {
      var p := SliceFrom1(path);
      p := p + [name];
      var pathStr := Join(p, ".");
      errors.entries := errors.entries[pathStr := error];
    }

    /** `isValid()`: `valid` is what it returns; `threw` says that it threw
        instead. It writes an error exactly when it returns false. */
    method IsValid() returns (valid: bool, threw: bool)
      modifies errors
      ensures threw <==> Check(node, value, formats).Throws?
      ensures !threw ==> (valid <==> Check(node, value, formats).Valid?)
      ensures errors.entries ==
        if Check(node, value, formats).Invalid?
        then old(errors.entries)[ErrorKey(path, name) := Check(node, value, formats).reason]
        else old(errors.entries)
    {
      threw := false;
      if !IsValidRequired(node, value) {
        AddError("is required");
        return false, false;
      }
      if value.None? {
        return true, false;
      }
      if !IsValidType(node, value) {
        AddError("type must be " + node.typeName);
        return false, false;
      }
      var formatOk := IsValidFormat(node, value.value, formats);
      if formatOk.None? {
        return false, true;
      }
      if !formatOk.value {
        AddError("format must be " + node.format.value);
        return false, false;
      }
      return true, false;
    }
  }

  /** At most one error per call, with precedence required > type > format:
      whichever checks would fail, the reason reported is the first of them. */
  lemma Precedence(node: Node, value: Option<Value>, formats: Formats)
    ensures Check(node, value, formats).Invalid? ==>
      Check(node, value, formats).reason ==
        if !IsValidRequired(node, value) then "is required"
        else if !IsValidType(node, value) then "type must be " + node.typeName
        else "format must be " + node.format.value
  {
  }

  /** An error for the synthetic root field is keyed `root`; a field of the
      root object is keyed by its bare name. */
  lemma RootKeys(root: string, name: string)
    ensures ErrorKey([], name) == name
    ensures ErrorKey([root], name) == name
  {
  }

  /** Going one level deeper adds `.child` to the parent field's key. */
  lemma {:induction false} ChildKey(path: seq<string>, name: string, child: string)
    requires |path| > 0
    ensures ErrorKey(path + [name], child) == ErrorKey(path, name) + "." + child
  {
    assert SliceFrom1(path + [name]) + [child] == (SliceFrom1(path) + [name]) + [child];
    JoinSnoc(SliceFrom1(path) + [name], child, ".");
  }

  /** Segments are joined with `.` and not escaped, so a top-level field
      whose name holds a dot is keyed like a nested field: `foo.bar` and
      the child `bar` of `foo` write to the same key. */
  lemma DottedNamesCollide(root: string, parent: string, child: string)
    ensures ErrorKey([root], parent + "." + child) == ErrorKey([root, parent], child)
  {
    assert [root, parent][1..] == [parent];
  }

  /** Two elements of one array never share an error key. */
  lemma {:induction false} ElementKeysDistinct(path: seq<string>, i: nat, j: nat)
    requires i != j
    ensures ErrorKey(path, IndexKey(i)) != ErrorKey(path, IndexKey(j))
  {
    var q := SliceFrom1(path);
    if |q| == 0 {
      assert ErrorKey(path, IndexKey(i)) == IndexKey(i);
      assert ErrorKey(path, IndexKey(j)) == IndexKey(j);
      if IndexKey(i) == IndexKey(j) { IndexKeyInjective(i, j); }
    } else {
      JoinSnoc(q, IndexKey(i), ".");
      JoinSnoc(q, IndexKey(j), ".");
      var prefix := Join(q, ".") + ".";
      if prefix + IndexKey(i) == prefix + IndexKey(j) {
        assert IndexKey(i) == (prefix + IndexKey(i))[|prefix|..];
        IndexKeyInjective(i, j);
      }
    }
  }
}
