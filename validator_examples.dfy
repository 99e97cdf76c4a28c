/**
 * Whole runs of `validatorFactory` on the inputs its documentation and
 * test cases use, with the errors (or the throw) each one ends in.
 */
module ValidatorExamples {
  import opened Wrappers
  import opened Js
  import opened Schema
  import opened Validate
  import opened Validator
  import opened ValidatorProps
  import Types

  function Leaf(typeName: string, required: bool): Node
  {
    Node(typeName, required, None, Missing, None)
  }

  /** `{type: 'array', items: {type: <typeName>}}` */
  function ArrayOf(typeName: string): Node
  {
    Node("array", false, None, Missing, Some(Leaf(typeName, false)))
  }

  /** A required string checked against no data: `{root: 'is required'}`. */
  lemma MissingRootIsRequired(h: Heap, formats: Formats)
    ensures Run(Leaf("string", true), None, h, formats) == Walk(State(h, map["root" := "is required"]), false)
  {
    RootKeys("root", "root");
  }

  /** `['1337']` against an array of integers: the element's error is keyed
      by its index alone, `{0: 'type must be integer'}`. */
  lemma RootArrayElementKey(h: Heap, formats: Formats)
    ensures Run(ArrayOf("integer"), Some(Arr([Str("1337")])), h, formats) ==
            Walk(State(h, map["0" := "type must be integer"]), false)
  {
    var s := State(h, map[]);
    var done := Walk(State(h, map["0" := "type must be integer"]), false);
    var elems := [Str("1337")];
    var root := map["root" := Arr(elems)];
    assert WalkElements(ArrayOf("integer"), "root", Local(root), elems, 0, [], s, formats) == done by {
      assert !IsValidType(Leaf("integer", false), Some(Str("1337")));
      RootElementKey(0);
      assert [Digit(0)] == "0";
      assert PushName([], Some("root")) == ["root"];
      assert ErrorKey(["root"], IndexKey(0)) == "0";
      assert "type must be " + "integer" == "type must be integer";
      assert s.(errors := s.errors["0" := "type must be integer"]) == done.st;
      LeafElementsStep(ArrayOf("integer"), "root", Local(root), elems, 0, [], s, formats);
      assert WalkElements(ArrayOf("integer"), "root", Local(root), elems, 1, [], done.st, formats) == done;
    }
    assert WalkField(ArrayOf("integer"), "root", Local(root), [], s, formats) == done;
    assert WalkFields(RootSchema(ArrayOf("integer")), 0, Local(root), [], s, formats) == done;
    SingleName("root", ArrayOf("integer"));
    assert Prune(root, {"root"}) == root;
  }

  /** A string with format `date-time` whose test rejects the value. */
  lemma RootFormatError(h: Heap, formats: Formats)
    requires "date-time" in formats && !formats["date-time"](Str("(-_____- U)"))
    ensures Run(Node("string", false, Some("date-time"), Missing, None), Some(Str("(-_____- U)")), h, formats) ==
            Walk(State(h, map["root" := "format must be date-time"]), false)
  {
    RootKeys("root", "root");
    assert "format must be " + "date-time" == "format must be date-time";
    assert Check(Node("string", false, Some("date-time"), Missing, None), Some(Str("(-_____- U)")), formats) ==
           Invalid("format must be date-time");
  }

  /** A format name with no entry in the registry makes the walk throw. */
  lemma UnknownFormatThrows(h: Heap, formats: Formats)
    requires "nope" !in formats
    ensures Run(Node("string", false, Some("nope"), Missing, None), Some(Str("x")), h, formats) == Walk(State(h, map[]), true)
  {
  }

  /** An unregistered type name is an ordinary type error, not a throw. */
  lemma UnknownTypeReported(h: Heap, formats: Formats)
    ensures Run(Leaf("bad_type", false), Some(Null), h, formats) ==
            Walk(State(h, map["root" := "type must be bad_type"]), false)
  {
    RootKeys("root", "root");
    assert "type must be " + "bad_type" == "type must be bad_type";
    assert Check(Leaf("bad_type", false), Some(Null), formats) == Invalid("type must be bad_type");
  }

  /** An array where an object is expected: `{root: 'type must be object'}`. */
  lemma RootTypeError(h: Heap, formats: Formats)
    ensures Run(Node("object", false, None, Declared([]), None), Some(Arr([])), h, formats) ==
            Walk(State(h, map["root" := "type must be object"]), false)
  {
    RootKeys("root", "root");
    assert "type must be " + "object" == "type must be object";
    assert Check(Node("object", false, None, Declared([]), None), Some(Arr([])), formats) == Invalid("type must be object");
  }

  /** `{type: 'object', properties: <entries>}`, optional or required. */
  function ObjectOf(required: bool, entries: seq<(string, Node)>): Node
  {
    Node("object", required, None, Declared(entries), None)
  }

  /** `{foo: {}}` against a required object `foo` with a required string
      `bar`: the child's error is keyed `foo.bar`. */
  lemma NestedRequiredKey(root: JsObject, foo: JsObject, formats: Formats)
    requires root != foo
    ensures var h := map[root := map["foo" := Obj(foo)], foo := map[]];
      Run(ObjectOf(false, [("foo", ObjectOf(true, [("bar", Leaf("string", true))]))]), Some(Obj(root)), h, formats) ==
      Walk(State(h, map["foo.bar" := "is required"]), false)
  {
    var h := map[root := map["foo" := Obj(foo)], foo := map[]];
    var bar := Leaf("string", true);
    var fooNode := ObjectOf(true, [("bar", bar)]);
    var schema := ObjectOf(false, [("foo", fooNode)]);
    var s := State(h, map[]);
    var done := Walk(State(h, map["foo.bar" := "is required"]), false);
    SingleName("bar", bar);
    SingleName("foo", fooNode);
    SingleName("root", schema);
    ChildKey(["root"], "foo", "bar");
    RootKeys("root", "foo");
    assert ["root"] + ["foo"] == ["root", "foo"];
    assert "foo" + "." + "bar" == "foo.bar";
    assert ErrorKey(["root", "foo"], "bar") == "foo.bar";
    assert h[foo := Prune(h[foo], {"bar"})] == h;
    assert Check(bar, None, formats) == Invalid("is required");
    assert Get(Shared(foo), "bar", h) == None;
    assert WalkField(bar, "bar", Shared(foo), ["root", "foo"], s, formats) == done;
    assert WalkFields(fooNode.properties, 0, Shared(foo), ["root", "foo"], s, formats) == done;
    assert PushName(["root"], Some("foo")) == ["root", "foo"];
    assert WalkVisit(fooNode.properties, Shared(foo), Some("foo"), ["root"], s, formats) == done;
    assert Check(fooNode, Some(Obj(foo)), formats) == Valid;
    assert WalkField(fooNode, "foo", Shared(root), ["root"], s, formats) == done;
    assert Prune(h[root], {"foo"}) == h[root];
    assert h[root := Prune(h[root], {"foo"})] == h;
    assert WalkFields(schema.properties, 0, Shared(root), ["root"], s, formats) == done;
    assert PushName([], Some("root")) == ["root"];
    assert s.(heap := h[root := Prune(h[root], {"foo"})]) == s;
    assert WalkVisit(schema.properties, Shared(root), Some("root"), [], s, formats) == done;
    assert Prune(map["root" := Obj(root)], {"root"}) == map["root" := Obj(root)];
  }

  /** The same schema with `foo` optional and data `{}`: the walk still
      descends, with a fresh `{}`, and reports the required child. */
  lemma AbsentOptionalObjectDescends(root: JsObject, formats: Formats)
    ensures var h := map[root := map[]];
      Run(ObjectOf(false, [("foo", ObjectOf(false, [("bar", Leaf("string", true))]))]), Some(Obj(root)), h, formats) ==
      Walk(State(h, map["foo.bar" := "is required"]), false)
  {
    var h := map[root := map[]];
    var bar := Leaf("string", true);
    var fooNode := ObjectOf(false, [("bar", bar)]);
    var schema := ObjectOf(false, [("foo", fooNode)]);
    var s := State(h, map[]);
    var done := Walk(State(h, map["foo.bar" := "is required"]), false);
    SingleName("bar", bar);
    SingleName("foo", fooNode);
    SingleName("root", schema);
    ChildKey(["root"], "foo", "bar");
    RootKeys("root", "foo");
    assert ["root"] + ["foo"] == ["root", "foo"];
    assert "foo" + "." + "bar" == "foo.bar";
    assert ErrorKey(["root", "foo"], "bar") == "foo.bar";
    assert Check(bar, None, formats) == Invalid("is required");
    assert WalkField(bar, "bar", Local(map[]), ["root", "foo"], s, formats) == done;
    assert WalkFields(fooNode.properties, 0, Local(map[]), ["root", "foo"], s, formats) == done;
    assert PushName(["root"], Some("foo")) == ["root", "foo"];
    assert Prune(map[], {"bar"}) == map[];
    assert WalkVisit(fooNode.properties, Local(map[]), Some("foo"), ["root"], s, formats) == done;
    assert Check(fooNode, None, formats) == Valid;
    assert WalkField(fooNode, "foo", Shared(root), ["root"], s, formats) == done;
    assert h[root := Prune(h[root], {"foo"})] == h;
    assert WalkFields(schema.properties, 0, Shared(root), ["root"], s, formats) == done;
    assert PushName([], Some("root")) == ["root"];
    assert s.(heap := h[root := Prune(h[root], {"foo"})]) == s;
    assert WalkVisit(schema.properties, Shared(root), Some("root"), [], s, formats) == done;
    assert Prune(map["root" := Obj(root)], {"root"}) == map["root" := Obj(root)];
  }

  /** An optional array field that is absent makes the walk throw. */
  lemma AbsentOptionalArrayThrows(root: JsObject, formats: Formats)
    ensures Run(ObjectOf(false, [("xs", ArrayOf("integer"))]), Some(Obj(root)), map[root := map[]], formats).crashed
  {
    var h := map[root := map[]];
    var schema := ObjectOf(false, [("xs", ArrayOf("integer"))]);
    var s := State(h, map[]);
    SingleName("xs", ArrayOf("integer"));
    SingleName("root", schema);
    assert h[root := Prune(h[root], {"xs"})] == h;
    assert WalkVisit(schema.properties, Shared(root), Some("root"), [], s, formats).crashed;
    assert Prune(map["root" := Obj(root)], {"root"}) == map["root" := Obj(root)];
  }

  /** `{foo: '1337', bar: 123}` against `{foo: string}`: valid, and `bar` is
      deleted from the caller's object. */
  lemma ExtraKeyDeletedInPlace(root: JsObject, formats: Formats)
    ensures Run(ObjectOf(false, [("foo", Leaf("string", false))]), Some(Obj(root)),
                map[root := map["foo" := Str("1337"), "bar" := Num(123.0)]], formats) ==
            Walk(State(map[root := map["foo" := Str("1337")]], map[]), false)
  {
    var h := map[root := map["foo" := Str("1337"), "bar" := Num(123.0)]];
    var h' := map[root := map["foo" := Str("1337")]];
    var schema := ObjectOf(false, [("foo", Leaf("string", false))]);
    SingleName("foo", Leaf("string", false));
    SingleName("root", schema);
    assert Prune(h[root], {"foo"}) == h'[root];
    assert h[root := Prune(h[root], {"foo"})] == h';
    assert WalkVisit(schema.properties, Shared(root), Some("root"), [], State(h, map[]), formats) ==
           Walk(State(h', map[]), false);
    assert Prune(map["root" := Obj(root)], {"root"}) == map["root" := Obj(root)];
  }

  function Mixed(): seq<Value>
  {
    [Str("1337"), Num(1337.0), Str("1337"), Num(700.0), Str("foo")]
  }

  lemma MixedTypes(j: nat)
    requires j < |Mixed()|
    ensures IsValidType(Leaf("string", false), Some(Mixed()[j])) <==> j != 1 && j != 3
  {
    assert Types.Registry["string"] == Types.String;
  }

  lemma MixedHas(r: map<string, string>)
    requires HasElementErrors(r, Leaf("string", false), Mixed(), 0, ["root"])
    ensures "1" in r && r["1"] == "type must be string"
    ensures "3" in r && r["3"] == "type must be string"
  {
    MixedTypes(1);
    MixedTypes(3);
    assert IndexKey(1) == "1" && IndexKey(3) == "3";
    RootKeys("root", "1");
    RootKeys("root", "3");
  }

  /** Element `j` of a root array is reported under the key `j`. */
  lemma RootElementKey(j: nat)
    requires j < 10
    ensures ErrorKey(["root"], IndexKey(j)) == [Digit(j)]
  {
    RootKeys("root", IndexKey(j));
  }

  lemma MixedOnly(r: map<string, string>)
    requires OnlyElementErrors(map[], r, Leaf("string", false), Mixed(), 0, ["root"])
    ensures forall k | k in r :: k == "1" || k == "3"
  {
    forall k | k in r ensures k == "1" || k == "3" {
      var j :| 0 <= j < |Mixed()| && k == ErrorKey(["root"], IndexKey(j)) && !IsValidType(Leaf("string", false), Some(Mixed()[j]));
      MixedTypes(j);
      RootElementKey(j);
    }
  }

  /** The only errors an element walk over `Mixed()` can leave. */
  lemma MixedErrors(r: map<string, string>)
    requires HasElementErrors(r, Leaf("string", false), Mixed(), 0, ["root"])
    requires OnlyElementErrors(map[], r, Leaf("string", false), Mixed(), 0, ["root"])
    ensures r == map["1" := "type must be string", "3" := "type must be string"]
  {
    MixedHas(r);
    MixedOnly(r);
  }

  /** The element loop over `Mixed()` as the `root` array. */
  lemma MixedElements(m: map<string, Value>, h: Heap, formats: Formats)
    requires "root" in m
    ensures WalkElements(ArrayOf("string"), "root", Local(m), Mixed(), 0, [], State(h, map[]), formats) ==
            Walk(State(h, map["1" := "type must be string", "3" := "type must be string"]), false)
  {
    LeafElements(ArrayOf("string"), "root", Local(m), Mixed(), 0, [], State(h, map[]), formats);
    assert PushName([], Some("root")) == ["root"];
    var r := WalkElements(ArrayOf("string"), "root", Local(m), Mixed(), 0, [], State(h, map[]), formats);
    MixedErrors(r.st.errors);
  }

  /** `['1337', 1337, '1337', 700, 'foo']` against an array of strings: the
      two numbers are reported under their own indices, `1` and `3`. */
  lemma MixedArrayKeys(h: Heap, formats: Formats)
    ensures Run(ArrayOf("string"), Some(Arr(Mixed())), h, formats) ==
            Walk(State(h, map["1" := "type must be string", "3" := "type must be string"]), false)
  {
    var schema := ArrayOf("string");
    var m := map["root" := Arr(Mixed())];
    var s := State(h, map[]);
    SingleName("root", schema);
    assert Prune(m, {"root"}) == m;
    MixedElements(m, h, formats);
    var r := WalkElements(schema, "root", Local(m), Mixed(), 0, [], s, formats);
    assert WalkField(schema, "root", Local(m), [], s, formats) == r;
    assert WalkFields(RootSchema(schema), 1, Local(m), [], r.st, formats) == r;
  }

  /** Element 0 of that array is the object itself, walked against `{}`:
      every key of the object is deleted and nothing is reported. */
  lemma AliasedFirstElement(o: JsObject, formats: Formats)
    ensures var s := State(map[o := map["xs" := Arr([Obj(o), Obj(o)])]], map[]);
      WalkVisit(Declared([("0", ObjectOf(false, []))]), Local(map["0" := Obj(o)]), Some("xs"), ["root"], s, formats) ==
      Walk(State(map[o := map[]], map[]), false)
  {
    var items := ObjectOf(false, []);
    var h := map[o := map["xs" := Arr([Obj(o), Obj(o)])]];
    var h1 := map[o := map[]];
    var s := State(h, map[]);
    assert Names([]) == {};
    assert h[o := Prune(h[o], {})] == h1;
    assert WalkVisit(items.properties, Shared(o), Some("0"), ["root", "xs"], s, formats) == Walk(State(h1, map[]), false);
    SingleName("0", items);
    assert Prune(map["0" := Obj(o)], {"0"}) == map["0" := Obj(o)];
    assert Check(items, Some(Obj(o)), formats) == Valid;
    assert WalkField(items, "0", Local(map["0" := Obj(o)]), ["root", "xs"], s, formats) == Walk(State(h1, map[]), false);
    assert PushName(["root"], Some("xs")) == ["root", "xs"];
    assert WalkFields(Declared([("0", items)]), 0, Local(map["0" := Obj(o)]), ["root", "xs"], s, formats) ==
           Walk(State(h1, map[]), false);
  }

  /** An object whose array field holds the object itself twice, against
      `{xs: [ {} ]}`: walking element 0 empties the object through the
      alias, deleting `xs`, so reading `data.xs[1]` throws. */
  lemma AliasedArrayThrows(o: JsObject, formats: Formats)
    ensures var elems := [Obj(o), Obj(o)];
      Run(ObjectOf(false, [("xs", Node("array", false, None, Missing, Some(ObjectOf(false, []))))]),
          Some(Obj(o)), map[o := map["xs" := Arr(elems)]], formats) ==
      Walk(State(map[o := map[]], map[]), true)
  {
    var elems := [Obj(o), Obj(o)];
    var items := ObjectOf(false, []);
    var arr := Node("array", false, None, Missing, Some(items));
    var schema := ObjectOf(false, [("xs", arr)]);
    var h := map[o := map["xs" := Arr(elems)]];
    var h1 := map[o := map[]];
    var s := State(h, map[]);
    var crash := Walk(State(h1, map[]), true);
    AliasedFirstElement(o, formats);
    assert IndexKey(0) == "0";
    assert Get(Shared(o), "xs", h1) == None;
    assert WalkElements(arr, "xs", Shared(o), elems, 1, ["root"], State(h1, map[]), formats) == crash;
    assert WalkElements(arr, "xs", Shared(o), elems, 0, ["root"], s, formats) == crash;
    assert Check(arr, Some(Arr(elems)), formats) == Valid;
    assert WalkField(arr, "xs", Shared(o), ["root"], s, formats) == crash;
    SingleName("xs", arr);
    assert Prune(h[o], {"xs"}) == h[o];
    assert h[o := Prune(h[o], {"xs"})] == h;
    assert WalkFields(schema.properties, 0, Shared(o), ["root"], s, formats) == crash;
    assert PushName([], Some("root")) == ["root"];
    assert WalkVisit(schema.properties, Shared(o), Some("root"), [], s, formats) == crash;
    SingleName("root", schema);
    assert Prune(map["root" := Obj(o)], {"root"}) == map["root" := Obj(o)];
    assert Check(schema, Some(Obj(o)), formats) == Valid;
    assert WalkField(schema, "root", Local(map["root" := Obj(o)]), [], s, formats) == crash;
  }

  /** `validatorFactory({type: 'object', properties: {foo: {type: 'string'}}},
      data)` with `data = {foo: '1337', bar: 123}`: valid, and afterwards
      the caller's `data` has lost `bar`. */
  method ExtraKeyExample() returns (result: Option<Report>, left: map<string, Value>)
    ensures result == Some(Report(true, map[]))
    ensures left == map["foo" := Str("1337")]
  {
    var data := new JsObject(map["foo" := Str("1337"), "bar" := Num(123.0)]);
    assert Snap({data}) == map[data := data.fields];
    ExtraKeyDeletedInPlace(data, map[]);
    result := ValidatorFactory(ObjectOf(false, [("foo", Leaf("string", false))]), Some(Obj(data)), map[], {data});
    left := data.fields;
    assert Snap({data}) == map[data := data.fields];
  }

  /** The same call on an object that holds itself twice in an array field
      checked as an array of objects: `validatorFactory` throws. */
  method AliasedArrayExample() returns (result: Option<Report>)
    ensures result == None
  {
    var o := new JsObject(map[]);
    o.fields := map["xs" := Arr([Obj(o), Obj(o)])];
    assert Snap({o}) == map[o := o.fields];
    assert RefsIn(Arr([Obj(o), Obj(o)]), {o});
    AliasedArrayThrows(o, map[]);
    result := ValidatorFactory(ObjectOf(false, [("xs", Node("array", false, None, Missing, Some(ObjectOf(false, []))))]),
                               Some(Obj(o)), map[], {o});
  }
}
