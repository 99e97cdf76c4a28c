/**
 * The tree walker. The schema and the data are wrapped under a synthetic
 * `root` key and walked together, schema key by schema key. Before a data
 * object's fields are checked, the keys the schema does not declare are
 * deleted from it, in place. A valid `object` field is descended into, with
 * its name pushed on the path stack; each element of a valid `array` field
 * is walked as the one-key pair `{index: items}` / `{index: element}`, with
 * the array field's name pushed. Errors land in one shared map.
 *
 * The walk is specified by the functions `WalkVisit`, `WalkFields`,
 * `WalkField` and `WalkElements` over an explicit `Heap`: the properties of
 * every caller object, threaded through the walk so that a deletion made
 * through one reference is seen through every other. The `TreeWalker`
 * methods are proved to end in exactly the state these functions give.
 */
module Validator {
  import opened Wrappers
  import opened Js
  import opened Schema
  import opened Validate

  /** The properties of each caller object. */
  type Heap = map<JsObject, map<string, Value>>

  datatype State = State(heap: Heap, errors: map<string, string>)

  /** Where a walk ends: its state, and whether it ended by throwing. */
  datatype Walk = Walk(st: State, crashed: bool)

  /** The objects a value refers to are among `objs`. */
  ghost predicate RefsIn(v: Value, objs: set<JsObject>)
  {
    match v
    case Obj(o) => o in objs
    case Arr(elems) => forall i | 0 <= i < |elems| :: RefsIn(elems[i], objs)
    case _ => true
  }

  ghost predicate FieldsIn(fields: map<string, Value>, objs: set<JsObject>)
  {
    forall k | k in fields :: RefsIn(fields[k], objs)
  }

  /** No object of the heap refers to an object outside it. */
  ghost predicate Closed(h: Heap)
  {
    forall o | o in h :: FieldsIn(h[o], h.Keys)
  }

  ghost predicate TargetIn(t: Target, objs: set<JsObject>)
  {
    match t
    case Shared(o) => o in objs
    case Local(m) => FieldsIn(m, objs)
  }

  /** The heap as the objects of `objs` hold it now. */
  ghost function Snap(objs: set<JsObject>): (h: Heap)
    reads objs
    ensures h.Keys == objs
  {
    map o | o in objs :: o.fields
  }

  /** What is left of `fields` once every key outside `names` is deleted. */
  function Prune(fields: map<string, Value>, names: set<string>): (r: map<string, Value>)
    ensures r.Keys == fields.Keys * names
    ensures forall k | k in r :: r[k] == fields[k]
  {
    map k | k in fields && k in names :: fields[k]
  }

  /** The properties of a data object in heap `h`. */
  function HeapFields(t: Target, h: Heap): map<string, Value>
  {
    match t
    case Shared(o) => if o in h then h[o] else map[]
    case Local(m) => m
  }

  /** `data[name]` in heap `h`. */
  function Get(t: Target, name: string, h: Heap): Option<Value>
  {
    Lookup(HeapFields(t, h), name)
  }

  /** The path stack after `if (opt.nodeName) this.path.push(opt.nodeName)`:
      no push for a missing or empty name. */
  function PushName(path: seq<string>, nodeName: Option<string>): (r: seq<string>)
    ensures |r| == |path| + (if nodeName.Some? && nodeName.value != "" then 1 else 0)
    ensures r[..|path|] == path
    ensures |r| > |path| ==> r[|path|] == nodeName.value
  {
    if nodeName.Some? && nodeName.value != "" then path + [nodeName.value] else path
  }

  /** `data || {}` for the value of a valid `object` field: the caller's
      object itself, or a fresh empty one when the field is absent. */
  function ObjectData(value: Option<Value>): (r: Target)
    ensures r.Shared? <==> value.Some? && value.value.Obj?
    ensures r.Shared? ==> r.obj == value.value.obj
    ensures r.Local? ==> r.fields == map[]
  {
    match value
    case Some(Obj(o)) => Shared(o)
    case _ => Local(map[])
  }

  /** `visit(parentNode, data, {nodeName})`. */
  function WalkVisit(parentNode: Props, data: Target, nodeName: Option<string>,
                     path: seq<string>, s: State, formats: Formats): (r: Walk)
    ensures r.st.heap.Keys == s.heap.Keys && s.errors.Keys <= r.st.errors.Keys
    decreases PropsSize(parentNode), 3
  {
    match parentNode
    case Missing => Walk(s, true)  // Object.keys(undefined) throws
    case Declared(entries) =>
      var names := Names(entries);
      match data
      case Shared(o) =>
        var h := if o in s.heap then s.heap[o := Prune(s.heap[o], names)] else s.heap;
        WalkFields(parentNode, 0, data, PushName(path, nodeName), s.(heap := h), formats)
      case Local(m) =>
        WalkFields(parentNode, 0, Local(Prune(m, names)), PushName(path, nodeName), s, formats)
  }

  /** The `for` loop of `visit` over the schema keys, from the `i`-th on. */
  function WalkFields(parentNode: Props, i: nat, data: Target,
                      path: seq<string>, s: State, formats: Formats): (r: Walk)
    requires parentNode.Declared? && i <= |parentNode.entries|
    ensures r.st.heap.Keys == s.heap.Keys && s.errors.Keys <= r.st.errors.Keys
    decreases SizeFrom(parentNode, i), 2
  {
    if i == |parentNode.entries| then Walk(s, false)
    else
      var r := WalkField(parentNode.entries[i].1, parentNode.entries[i].0, data, path, s, formats);
      if r.crashed then r else WalkFields(parentNode, i + 1, data, path, r.st, formats)
  }

  /** One iteration of that loop: field `name` of `data` against `node`. */
  function WalkField(node: Node, name: string, data: Target,
                     path: seq<string>, s: State, formats: Formats): (r: Walk)
    ensures r.st.heap.Keys == s.heap.Keys && s.errors.Keys <= r.st.errors.Keys
    decreases NodeSize(node), 1
  {
    var value := Get(data, name, s.heap);
    match Check(node, value, formats)
    case Throws => Walk(s, true)
    case Invalid(reason) => Walk(s.(errors := s.errors[ErrorKey(path, name) := reason]), false)
    case Valid =>
      if node.typeName == "object" then
        WalkVisit(node.properties, ObjectData(value), Some(name), path, s, formats)
      else if node.typeName == "array" then
        if value.Some? && value.value.Arr? then
          WalkElements(node, name, data, value.value.elems, 0, path, s, formats)
        else
          Walk(s, true)  // data[name].keys() on undefined
      else
        Walk(s, false)
  }

  /** The loop over the indices of array field `name`, from `index` on.
      Each iteration checks that `data[name]` is still there: a deletion
      made through an alias while walking an element makes that read throw.
      The element itself is taken from `elems`, the array read when the
      field was validated; a walk only deletes keys and never changes a
      value (`ElementsProgress`), so while the key is there it still holds
      that same array. */
  function WalkElements(node: Node, name: string, data: Target, elems: seq<Value>, index: nat,
                        path: seq<string>, s: State, formats: Formats): (r: Walk)
    requires index <= |elems|
    ensures r.st.heap.Keys == s.heap.Keys && s.errors.Keys <= r.st.errors.Keys
    decreases NodeSize(node), 0, |elems| - index
  {
    if index == |elems| then Walk(s, false)
    else if Get(data, name, s.heap).None? then Walk(s, true)  // data[name][index] on undefined
    else if node.items.None? then Walk(s, true)  // validate reads undefined.type
    else
      var key := IndexKey(index);
      assert PropsSize(Declared([(key, node.items.value)])) < NodeSize(node) by {
        ElementSchemaSmaller(node, key);
      }
      var r := WalkVisit(Declared([(key, node.items.value)]), Local(map[key := elems[index]]),
                         Some(name), path, s, formats);
      if r.crashed then r else WalkElements(node, name, data, elems, index + 1, path, r.st, formats)
  }

  /** The schema `{root: schema}` the walk starts from. */
  function RootSchema(schema: Node): Props
  {
    Declared([("root", schema)])
  }

  /** The data `{root: data}`; `None` is a call without data. */
  function RootData(data: Option<Value>): Target
  {
    Local(if data.Some? then map["root" := data.value] else map[])
  }

  /** `validatorFactory(schema, data)` on heap `h`: the walk from the root. */
  function Run(schema: Node, data: Option<Value>, h: Heap, formats: Formats): (r: Walk)
    ensures r.st.heap.Keys == h.Keys
    ensures data.None? && schema.required ==> r == Walk(State(h, map["root" := "is required"]), false)
  {
    var s := State(h, map[]);
    assert data.None? && schema.required ==>
      WalkFields(RootSchema(schema), 0, Local(map[]), [], s, formats) ==
      Walk(State(h, map["root" := "is required"]), false)
    by {
      SingleName("root", schema);
      if data.None? && schema.required {
        assert WalkField(schema, "root", Local(map[]), [], s, formats) ==
               Walk(State(h, map["root" := "is required"]), false);
      }
    }
    SingleName("root", schema);
    assert Prune(map[], {"root"}) == map[];
    WalkVisit(RootSchema(schema), RootData(data), None, [], s, formats)
  }

  /** What `validatorFactory` returns. */
  datatype Report = Report(isValid: bool, errors: map<string, string>)

  lemma PruneKeepsClosed(h: Heap, o: JsObject, names: set<string>)
    requires Closed(h) && o in h
    ensures Closed(h[o := Prune(h[o], names)])
  {
    var h' := h[o := Prune(h[o], names)];
    assert h'.Keys == h.Keys;
    forall p | p in h' ensures FieldsIn(h'[p], h'.Keys) {
      assert FieldsIn(h[p], h.Keys);
      forall k | k in h'[p] ensures RefsIn(h'[p][k], h.Keys) {
        assert h'[p][k] == h[p][k];
      }
    }
  }

  lemma GetIn(t: Target, name: string, h: Heap)
    requires Closed(h) && TargetIn(t, h.Keys)
    ensures Get(t, name, h).Some? ==> RefsIn(Get(t, name, h).value, h.Keys)
  {
    if t.Shared? { assert FieldsIn(h[t.obj], h.Keys); }
  }

  /** The validator object: the shared `errors` map and the `path` stack. */
  class TreeWalker {
    const errors: ErrorMap
    var path: seq<string>

    /** `Object.create(proto)` and `init()`: no errors, empty path. */
    constructor ()
      ensures fresh(errors) && errors.entries == map[] && path == []
    {
      errors := new ErrorMap();
      path := [];
    }

    /** `removeExtraNodes(node, data)`: delete, in place, every key of
        `data` that `node` does not declare. */
    method RemoveExtraNodes(node: seq<(string, Node)>, data: JsObject)
      modifies data
      ensures data.fields == Prune(old(data.fields), Names(node))
    {
      var nodeNames := Names(node);
      var keys := data.fields.Keys;
      while keys != {}
        invariant keys <= old(data.fields).Keys
        invariant data.fields == Prune(old(data.fields), nodeNames + keys)
        decreases keys
      {
        var name :| name in keys;
        if name !in nodeNames {
          data.fields := data.fields - {name};
        }
        keys := keys - {name};
      }
    }

    /** `visit(parentNode, data, {nodeName})`. `crashed` says that it threw. */
    method Visit(parentNode: Props, data: Target, nodeName: Option<string>,
                 formats: Formats, ghost objs: set<JsObject>) returns (crashed: bool)
      requires Closed(Snap(objs)) && TargetIn(data, objs)
      modifies this, errors, objs
      ensures Closed(Snap(objs))
      ensures !crashed ==> path == old(path)
      ensures Walk(State(Snap(objs), errors.entries), crashed) ==
        WalkVisit(parentNode, data, nodeName, old(path), State(old(Snap(objs)), old(errors.entries)), formats)
      decreases PropsSize(parentNode), 3
    {
      var pushed := nodeName.Some? && nodeName.value != "";
      if pushed {
        path := path + [nodeName.value];
      }
      if parentNode.Missing? {
        return true;  // Object.keys(undefined) throws
      }
      var entries := parentNode.entries;
      var current := data;
      match data {
        case Shared(o) =>
          ghost var before := Snap(objs);
          RemoveExtraNodes(entries, o);
          assert Snap(objs) == before[o := Prune(before[o], Names(entries))];
          PruneKeepsClosed(before, o, Names(entries));
        case Local(m) =>
          current := Local(Prune(m, Names(entries)));
      }
      crashed := VisitFields(parentNode, current, formats, objs);
      if crashed {
        return;
      }
      if pushed {
        path := path[..|path| - 1];
      }
    }

    /** The `for` loop of `visit` over the schema keys of `parentNode`. */
    method VisitFields(parentNode: Props, data: Target,
                       formats: Formats, ghost objs: set<JsObject>) returns (crashed: bool)
      requires parentNode.Declared?
      requires Closed(Snap(objs)) && TargetIn(data, objs)
      modifies this, errors, objs
      ensures Closed(Snap(objs))
      ensures !crashed ==> path == old(path)
      ensures Walk(State(Snap(objs), errors.entries), crashed) ==
        WalkFields(parentNode, 0, data, old(path), State(old(Snap(objs)), old(errors.entries)), formats)
      decreases PropsSize(parentNode), 2
    {
      ghost var goal := WalkFields(parentNode, 0, data, path, State(Snap(objs), errors.entries), formats);
      var entries := parentNode.entries;
      var i := 0;
      while i < |entries|
        invariant i <= |entries|
        invariant path == old(path)
        invariant Closed(Snap(objs))
        invariant WalkFields(parentNode, i, data, path, State(Snap(objs), errors.entries), formats) == goal
      {
        crashed := VisitField(entries[i].1, entries[i].0, data, formats, objs);
        if crashed {
          return;
        }
        i := i + 1;
      }
      return false;
    }

    /** The body of `visit`'s loop for schema key `name`. */
    method VisitField(node: Node, name: string, data: Target,
                      formats: Formats, ghost objs: set<JsObject>) returns (crashed: bool)
      requires Closed(Snap(objs)) && TargetIn(data, objs)
      modifies this, errors, objs
      ensures Closed(Snap(objs))
      ensures !crashed ==> path == old(path)
      ensures Walk(State(Snap(objs), errors.entries), crashed) ==
        WalkField(node, name, data, old(path), State(old(Snap(objs)), old(errors.entries)), formats)
      decreases NodeSize(node), 1
    {
      crashed := false;
      var n := new NodeValidator(node, data, name, path, errors, formats);
      assert n.value == Get(data, name, Snap(objs));
      GetIn(data, name, Snap(objs));
      var valid, threw := n.IsValid();
      if threw {
        return true;
      }
      if !valid {
        return false;
      }
      if node.typeName == "object" {
        crashed := Visit(node.properties, ObjectData(n.value), Some(name), formats, objs);
      }
      if node.typeName == "array" {
        match n.value {
          case Some(Arr(elems)) =>
            crashed := VisitElements(node, name, data, elems, formats, objs);
          case _ =>
            crashed := true;  // data[name].keys() on undefined
        }
      }
    }

    /** The loop of `visit` over the indices of array field `name`. */
    method VisitElements(node: Node, name: string, data: Target, elems: seq<Value>,
                         formats: Formats, ghost objs: set<JsObject>) returns (crashed: bool)
      requires Closed(Snap(objs)) && TargetIn(data, objs)
      requires forall j | 0 <= j < |elems| :: RefsIn(elems[j], objs)
      modifies this, errors, objs
      ensures Closed(Snap(objs))
      ensures !crashed ==> path == old(path)
      ensures Walk(State(Snap(objs), errors.entries), crashed) ==
        WalkElements(node, name, data, elems, 0, old(path), State(old(Snap(objs)), old(errors.entries)), formats)
      decreases NodeSize(node), 0
    {
      ghost var goal := WalkElements(node, name, data, elems, 0, path, State(Snap(objs), errors.entries), formats);
      crashed := false;
      var index := 0;
      while index < |elems|
        invariant index <= |elems|
        invariant path == old(path)
        invariant Closed(Snap(objs))
        invariant WalkElements(node, name, data, elems, index, path, State(Snap(objs), errors.entries), formats) == goal
      {
        if Lookup(FieldsOf(data), name).None? {
          return true;  // data[name][index] on undefined
        }
        if node.items.None? {
          return true;  // validate reads undefined.type
        }
        var key := IndexKey(index);
        ElementSchemaSmaller(node, key);
        crashed := Visit(Declared([(key, node.items.value)]), Local(map[key := elems[index]]),
                         Some(name), formats, objs);
        if crashed {
          return;
        }
        index := index + 1;
      }
    }
  }

  /** `validatorFactory(schema, data)`: `None` when it throws. The caller's
      objects are left as the walk leaves them, pruned in place. */
  method ValidatorFactory(schema: Node, data: Option<Value>, formats: Formats, ghost objs: set<JsObject>)
    returns (result: Option<Report>)
    requires Closed(Snap(objs)) && (data.Some? ==> RefsIn(data.value, objs))
    modifies objs
    ensures Snap(objs) == Run(schema, data, old(Snap(objs)), formats).st.heap
    ensures result.None? <==> Run(schema, data, old(Snap(objs)), formats).crashed
    ensures result.Some? ==> result.value.errors == Run(schema, data, old(Snap(objs)), formats).st.errors
    ensures result.Some? ==> (result.value.isValid <==> result.value.errors == map[])
  {
    var validator := new TreeWalker();
    var crashed := validator.Visit(RootSchema(schema), RootData(data), None, formats, objs);
    if crashed {
      return None;
    }
    var errors := validator.errors.entries;
    return Some(Report(|errors| == 0, errors));
  }
}
