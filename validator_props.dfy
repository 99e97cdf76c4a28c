/**
 * What the tree walker guarantees across whole walks: it only ever deletes
 * keys of the caller's objects, it never loses an error key once written,
 * it ignores data keys the schema does not declare, and on the documented
 * inputs it reports exactly the errors listed with them.
 */
module ValidatorProps {
  import opened Wrappers
  import opened Js
  import opened Schema
  import opened Validate
  import opened Validator

  /** `m'` keeps some of the keys of `m`, each with its value. */
  predicate SubMap(m: map<string, Value>, m': map<string, Value>)
  {
    forall k | k in m' :: k in m && m'[k] == m[k]
  }

  /** The same objects, each with some of its keys deleted and no value changed. */
  predicate Shrinks(h: Heap, h': Heap)
  {
    h'.Keys == h.Keys && forall o | o in h :: SubMap(h[o], h'[o])
  }

  /** How a walk may change the state: deletions from the heap, and new or
      overwritten errors, never a removed error key. */
  predicate Progress(s: State, s': State)
  {
    Shrinks(s.heap, s'.heap) && s.errors.Keys <= s'.errors.Keys
  }

  lemma ProgressTrans(s1: State, s2: State, s3: State)
    requires Progress(s1, s2) && Progress(s2, s3)
    ensures Progress(s1, s3)
  {
    forall o | o in s1.heap ensures SubMap(s1.heap[o], s3.heap[o]) {
      assert SubMap(s1.heap[o], s2.heap[o]);
      assert SubMap(s2.heap[o], s3.heap[o]);
    }
  }

  /** Deleting the undeclared keys a second time deletes nothing. */
  lemma PruneIdempotent(fields: map<string, Value>, names: set<string>)
    ensures Prune(Prune(fields, names), names) == Prune(fields, names)
  {
  }

  lemma {:induction false} VisitProgress(parentNode: Props, data: Target, nodeName: Option<string>,
                                         path: seq<string>, s: State, formats: Formats)
    ensures Progress(s, WalkVisit(parentNode, data, nodeName, path, s, formats).st)
    decreases PropsSize(parentNode), 3
  {
    match parentNode
    case Missing =>
    case Declared(entries) =>
      var names := Names(entries);
      match data
      case Shared(o) =>
        var h := if o in s.heap then s.heap[o := Prune(s.heap[o], names)] else s.heap;
        var s' := s.(heap := h);
        assert Progress(s, s');
        FieldsProgress(parentNode, 0, data, PushName(path, nodeName), s', formats);
        ProgressTrans(s, s', WalkVisit(parentNode, data, nodeName, path, s, formats).st);
      case Local(m) =>
        FieldsProgress(parentNode, 0, Local(Prune(m, names)), PushName(path, nodeName), s, formats);
  }

  lemma {:induction false} FieldsProgress(parentNode: Props, i: nat, data: Target,
                                          path: seq<string>, s: State, formats: Formats)
    requires parentNode.Declared? && i <= |parentNode.entries|
    ensures Progress(s, WalkFields(parentNode, i, data, path, s, formats).st)
    decreases SizeFrom(parentNode, i), 2
  {
    if i < |parentNode.entries| {
      var r := WalkField(parentNode.entries[i].1, parentNode.entries[i].0, data, path, s, formats);
      FieldProgress(parentNode.entries[i].1, parentNode.entries[i].0, data, path, s, formats);
      if !r.crashed {
        FieldsProgress(parentNode, i + 1, data, path, r.st, formats);
        ProgressTrans(s, r.st, WalkFields(parentNode, i + 1, data, path, r.st, formats).st);
      }
    }
  }

  lemma {:induction false} FieldProgress(node: Node, name: string, data: Target,
                                         path: seq<string>, s: State, formats: Formats)
    ensures Progress(s, WalkField(node, name, data, path, s, formats).st)
    decreases NodeSize(node), 1
  {
    var value := Get(data, name, s.heap);
    if Check(node, value, formats).Valid? {
      if node.typeName == "object" {
        VisitProgress(node.properties, ObjectData(value), Some(name), path, s, formats);
      } else if node.typeName == "array" && value.Some? && value.value.Arr? {
        ElementsProgress(node, name, data, value.value.elems, 0, path, s, formats);
      }
    }
  }

  lemma {:induction false} ElementsProgress(node: Node, name: string, data: Target, elems: seq<Value>,
                                            index: nat, path: seq<string>, s: State, formats: Formats)
    requires index <= |elems|
    ensures Progress(s, WalkElements(node, name, data, elems, index, path, s, formats).st)
    decreases NodeSize(node), 0, |elems| - index
  {
    if index < |elems| && Get(data, name, s.heap).Some? && node.items.Some? {
      var key := IndexKey(index);
      ElementSchemaSmaller(node, key);
      var r := WalkVisit(Declared([(key, node.items.value)]), Local(map[key := elems[index]]),
                         Some(name), path, s, formats);
      VisitProgress(Declared([(key, node.items.value)]), Local(map[key := elems[index]]),
                    Some(name), path, s, formats);
      if !r.crashed {
        ElementsProgress(node, name, data, elems, index + 1, path, r.st, formats);
        ProgressTrans(s, r.st, WalkElements(node, name, data, elems, index + 1, path, r.st, formats).st);
      }
    }
  }

  /** A whole run only deletes keys of the caller's objects and changes no value. */
  lemma RunOnlyDeletes(schema: Node, data: Option<Value>, h: Heap, formats: Formats)
    ensures Shrinks(h, Run(schema, data, h, formats).st.heap)
  {
    VisitProgress(RootSchema(schema), RootData(data), None, [], State(h, map[]), formats);
  }

  /** A key of a local data object that the schema does not declare changes
      nothing: it is deleted before any field is read. */
  lemma ExtraLocalKeyIgnored(entries: seq<(string, Node)>, m: map<string, Value>, k: string, v: Value,
                             nodeName: Option<string>, path: seq<string>, s: State, formats: Formats)
    requires k !in Names(entries)
    ensures WalkVisit(Declared(entries), Local(m[k := v]), nodeName, path, s, formats) ==
            WalkVisit(Declared(entries), Local(m), nodeName, path, s, formats)
  {
    assert Prune(m[k := v], Names(entries)) == Prune(m, Names(entries));
  }

  /** The same for a caller's object: its undeclared key changes neither the
      errors nor whether the walk throws, nor anything left in the heap. */
  lemma ExtraSharedKeyIgnored(entries: seq<(string, Node)>, o: JsObject, k: string, v: Value,
                              nodeName: Option<string>, path: seq<string>, s: State, formats: Formats)
    requires o in s.heap && k !in Names(entries)
    ensures WalkVisit(Declared(entries), Shared(o), nodeName, path,
                      s.(heap := s.heap[o := s.heap[o][k := v]]), formats) ==
            WalkVisit(Declared(entries), Shared(o), nodeName, path, s, formats)
  {
    var s' := s.(heap := s.heap[o := s.heap[o][k := v]]);
    assert Prune(s'.heap[o], Names(entries)) == Prune(s.heap[o], Names(entries));
    assert s'.heap[o := Prune(s'.heap[o], Names(entries))] == s.heap[o := Prune(s.heap[o], Names(entries))];
  }

  /** A field that fails its check records its one error and is not descended
      into; a field that passes records nothing of its own. */
  lemma InvalidFieldStops(node: Node, name: string, data: Target, path: seq<string>, s: State, formats: Formats)
    requires Check(node, Get(data, name, s.heap), formats).Invalid?
    ensures WalkField(node, name, data, path, s, formats) ==
      Walk(s.(errors := s.errors[ErrorKey(path, name) := Check(node, Get(data, name, s.heap), formats).reason]), false)
  {
  }

  /** An element schema that neither descends nor checks a format. */
  predicate LeafItems(items: Node)
  {
    items.typeName != "object" && items.typeName != "array" && !HasFormat(items)
  }

  /** Walking one element `{key: e}` against a leaf `{key: items}` records
      at most the type error, under the element's own key. */
  lemma LeafElementStep(items: Node, key: string, e: Value, name: string,
                        path: seq<string>, s: State, formats: Formats)
    requires LeafItems(items)
    ensures WalkVisit(Declared([(key, items)]), Local(map[key := e]), Some(name), path, s, formats) ==
      Walk(if IsValidType(items, Some(e)) then s
           else s.(errors := s.errors[ErrorKey(PushName(path, Some(name)), key) := "type must be " + items.typeName]),
           false)
  {
    SingleName(key, items);
    assert Prune(map[key := e], {key}) == map[key := e];
    var p := PushName(path, Some(name));
    var r := WalkField(items, key, Local(map[key := e]), p, s, formats);
    assert WalkFields(Declared([(key, items)]), 1, Local(map[key := e]), p, r.st, formats) == r;
  }

  /** One iteration of the element loop over a leaf `items`. */
  lemma LeafElementsStep(node: Node, name: string, data: Target, elems: seq<Value>, index: nat,
                         path: seq<string>, s: State, formats: Formats)
    requires index < |elems| && node.items.Some? && LeafItems(node.items.value)
    requires Get(data, name, s.heap).Some?
    ensures WalkElements(node, name, data, elems, index, path, s, formats) ==
      WalkElements(node, name, data, elems, index + 1, path,
        if IsValidType(node.items.value, Some(elems[index])) then s
        else s.(errors := s.errors[ErrorKey(PushName(path, Some(name)), IndexKey(index)) :=
                                   "type must be " + node.items.value.typeName]),
        formats)
  {
    LeafElementStep(node.items.value, IndexKey(index), elems[index], name, path, s, formats);
  }

  /** Every element from `index` on that fails its type has its error,
      keyed by its index under path `p`. */
  predicate HasElementErrors(errors: map<string, string>, items: Node, elems: seq<Value>, index: nat, p: seq<string>)
  {
    forall j | index <= j < |elems| && !IsValidType(items, Some(elems[j])) ::
      ErrorKey(p, IndexKey(j)) in errors && errors[ErrorKey(p, IndexKey(j))] == "type must be " + items.typeName
  }

  /** Every entry of `errors'` was already in `errors`, unchanged, or is the
      error of a failing element from `index` on. */
  predicate OnlyElementErrors(errors: map<string, string>, errors': map<string, string>,
                              items: Node, elems: seq<Value>, index: nat, p: seq<string>)
  {
    forall k | k in errors' ::
      (k in errors && errors'[k] == errors[k]) ||
      exists j | index <= j < |elems| :: k == ErrorKey(p, IndexKey(j)) && !IsValidType(items, Some(elems[j]))
  }

  /** The elements of an array, from `index` on, against a leaf `items`:
      each element that fails its type gets the error keyed by its own
      index under the array field's path, no two elements share a key, no
      earlier error key is lost, and nothing else changes. */
  lemma {:induction false} LeafElements(node: Node, name: string, data: Target, elems: seq<Value>, index: nat,
                                        path: seq<string>, s: State, formats: Formats)
    requires index <= |elems| && node.items.Some? && LeafItems(node.items.value)
    requires Get(data, name, s.heap).Some?
    ensures var r := WalkElements(node, name, data, elems, index, path, s, formats);
      var p := PushName(path, Some(name));
      && !r.crashed && r.st.heap == s.heap && s.errors.Keys <= r.st.errors.Keys
      && HasElementErrors(r.st.errors, node.items.value, elems, index, p)
      && OnlyElementErrors(s.errors, r.st.errors, node.items.value, elems, index, p)
    decreases |elems| - index
  {
    var p := PushName(path, Some(name));
    var items := node.items.value;
    if index < |elems| {
      var key := IndexKey(index);
      var reason := "type must be " + items.typeName;
      var valid := IsValidType(items, Some(elems[index]));
      var s' := if valid then s else s.(errors := s.errors[ErrorKey(p, key) := reason]);
      LeafElementsStep(node, name, data, elems, index, path, s, formats);
      LeafElements(node, name, data, elems, index + 1, path, s', formats);
      var r := WalkElements(node, name, data, elems, index + 1, path, s', formats).st.errors;
      assert HasElementErrors(r, items, elems, index + 1, p);
      assert OnlyElementErrors(s'.errors, r, items, elems, index + 1, p);
      if !valid {
        assert ErrorKey(p, key) in r;
      }
      assert HasElementErrors(r, items, elems, index, p);
      forall k | k in r
        ensures (k in s.errors && r[k] == s.errors[k]) ||
                exists j | index <= j < |elems| :: k == ErrorKey(p, IndexKey(j)) && !IsValidType(items, Some(elems[j]))
      {
        if !valid && k == ErrorKey(p, key) {
          assert k == ErrorKey(p, IndexKey(index)) && !IsValidType(items, Some(elems[index]));
        }
      }
    }
  }

  /** The part every error key written at path `p` starts with: the joined
      path without its `root` entry, and a dot; nothing at the root. */
  function KeyPrefix(p: seq<string>): string
  {
    if |p| < 2 then "" else Join(p[1..], ".") + "."
  }

  /** `errors'` differs from `errors` only at keys starting with `prefix`:
      every other key it holds was already there, with the same message. */
  predicate ChangedOnlyUnder(errors: map<string, string>, errors': map<string, string>, prefix: string)
  {
    forall k | k in errors' :: (k in errors && errors'[k] == errors[k]) || prefix <= k
  }

  lemma UnderTrans(e1: map<string, string>, e2: map<string, string>, e3: map<string, string>, prefix: string)
    requires ChangedOnlyUnder(e1, e2, prefix) && ChangedOnlyUnder(e2, e3, prefix)
    ensures ChangedOnlyUnder(e1, e3, prefix)
  {
    forall k | k in e3 ensures (k in e1 && e3[k] == e1[k]) || prefix <= k {
      if !(prefix <= k) {
        assert k in e2 && e3[k] == e2[k];
      }
    }
  }

  lemma UnderWeaken(e: map<string, string>, e': map<string, string>, longer: string, prefix: string)
    requires ChangedOnlyUnder(e, e', longer) && prefix <= longer
    ensures ChangedOnlyUnder(e, e', prefix)
  {
    forall k | k in e' && longer <= k ensures prefix <= k {
      assert k[..|prefix|] == longer[..|prefix|];
    }
  }

  /** Every error key written at path `p` starts with `KeyPrefix(p)`. */
  lemma KeyUnderPrefix(p: seq<string>, name: string)
    ensures ErrorKey(p, name) == KeyPrefix(p) + name
  {
  }

  /** Pushing a non-empty name below the root extends the key prefix by the
      error key of that name and a dot. */
  lemma KeyPrefixPush(p: seq<string>, name: string)
    requires |p| > 0 && name != ""
    ensures KeyPrefix(p + [name]) == ErrorKey(p, name) + "."
    ensures KeyPrefix(p) <= KeyPrefix(p + [name])
  {
    if |p| == 1 {
      assert (p + [name])[1..] == [name];
    } else {
      assert (p + [name])[1..] == p[1..] + [name];
      JoinSnoc(p[1..], name, ".");
    }
    KeyUnderPrefix(p, name);
    var q := KeyPrefix(p) + name + ".";
    assert q[..|KeyPrefix(p)|] == KeyPrefix(p);
  }

  lemma {:induction false} VisitUnder(parentNode: Props, data: Target, nodeName: Option<string>,
                                      path: seq<string>, s: State, formats: Formats)
    ensures ChangedOnlyUnder(s.errors, WalkVisit(parentNode, data, nodeName, path, s, formats).st.errors,
                             KeyPrefix(PushName(path, nodeName)))
    decreases PropsSize(parentNode), 3
  {
    match parentNode
    case Missing =>
    case Declared(entries) =>
      var names := Names(entries);
      match data
      case Shared(o) =>
        var h := if o in s.heap then s.heap[o := Prune(s.heap[o], names)] else s.heap;
        FieldsUnder(parentNode, 0, data, PushName(path, nodeName), s.(heap := h), formats);
      case Local(m) =>
        FieldsUnder(parentNode, 0, Local(Prune(m, names)), PushName(path, nodeName), s, formats);
  }

  lemma {:induction false} FieldsUnder(parentNode: Props, i: nat, data: Target,
                                       path: seq<string>, s: State, formats: Formats)
    requires parentNode.Declared? && i <= |parentNode.entries|
    ensures ChangedOnlyUnder(s.errors, WalkFields(parentNode, i, data, path, s, formats).st.errors, KeyPrefix(path))
    decreases SizeFrom(parentNode, i), 2
  {
    if i < |parentNode.entries| {
      var r := WalkField(parentNode.entries[i].1, parentNode.entries[i].0, data, path, s, formats);
      FieldUnder(parentNode.entries[i].1, parentNode.entries[i].0, data, path, s, formats);
      if !r.crashed {
        FieldsUnder(parentNode, i + 1, data, path, r.st, formats);
        UnderTrans(s.errors, r.st.errors, WalkFields(parentNode, i + 1, data, path, r.st, formats).st.errors,
                   KeyPrefix(path));
      }
    }
  }

  /** A name pushed below a path keeps the walk under that path's prefix. */
  lemma {:induction false} VisitBelow(parentNode: Props, data: Target, name: string,
                                      path: seq<string>, s: State, formats: Formats)
    requires |path| > 0
    ensures ChangedOnlyUnder(s.errors, WalkVisit(parentNode, data, Some(name), path, s, formats).st.errors,
                             KeyPrefix(path))
    decreases PropsSize(parentNode), 4
  {
    VisitUnder(parentNode, data, Some(name), path, s, formats);
    if name != "" {
      KeyPrefixPush(path, name);
      UnderWeaken(s.errors, WalkVisit(parentNode, data, Some(name), path, s, formats).st.errors,
                  KeyPrefix(path + [name]), KeyPrefix(path));
    }
  }

  lemma {:induction false} FieldUnder(node: Node, name: string, data: Target,
                                      path: seq<string>, s: State, formats: Formats)
    ensures ChangedOnlyUnder(s.errors, WalkField(node, name, data, path, s, formats).st.errors, KeyPrefix(path))
    decreases NodeSize(node), 1
  {
    var value := Get(data, name, s.heap);
    match Check(node, value, formats)
    case Throws =>
    case Invalid(reason) =>
      KeyUnderPrefix(path, name);
      var k := ErrorKey(path, name);
      assert k[..|KeyPrefix(path)|] == KeyPrefix(path);
    case Valid =>
      if node.typeName == "object" {
        if |path| == 0 {
          VisitUnder(node.properties, ObjectData(value), Some(name), path, s, formats);
        } else {
          VisitBelow(node.properties, ObjectData(value), name, path, s, formats);
        }
      } else if node.typeName == "array" && value.Some? && value.value.Arr? {
        ElementsUnder(node, name, data, value.value.elems, 0, path, s, formats);
      }
  }

  lemma {:induction false} ElementsUnder(node: Node, name: string, data: Target, elems: seq<Value>,
                                         index: nat, path: seq<string>, s: State, formats: Formats)
    requires index <= |elems|
    ensures ChangedOnlyUnder(s.errors, WalkElements(node, name, data, elems, index, path, s, formats).st.errors,
                             KeyPrefix(path))
    decreases NodeSize(node), 0, |elems| - index
  {
    if index < |elems| && Get(data, name, s.heap).Some? && node.items.Some? {
      var key := IndexKey(index);
      ElementSchemaSmaller(node, key);
      var props := Declared([(key, node.items.value)]);
      var d := Local(map[key := elems[index]]);
      var r := WalkVisit(props, d, Some(name), path, s, formats);
      if |path| == 0 {
        VisitUnder(props, d, Some(name), path, s, formats);
      } else {
        VisitBelow(props, d, name, path, s, formats);
      }
      if !r.crashed {
        ElementsUnder(node, name, data, elems, index + 1, path, r.st, formats);
        UnderTrans(s.errors, r.st.errors, WalkElements(node, name, data, elems, index + 1, path, r.st, formats).st.errors,
                   KeyPrefix(path));
      }
    }
  }

  /** Walking the object or array field `name` at a path below the root
      adds or changes only error keys that start with the field's own error
      key and a dot: a nested field never overwrites the error of a sibling
      whose name does not start with `name.` (see `DottedNamesCollide`). */
  lemma NestedErrorsUnderField(parentNode: Props, data: Target, name: string,
                               path: seq<string>, s: State, formats: Formats)
    requires name != "" && |path| > 0
    ensures ChangedOnlyUnder(s.errors, WalkVisit(parentNode, data, Some(name), path, s, formats).st.errors,
                             ErrorKey(path, name) + ".")
  {
    VisitUnder(parentNode, data, Some(name), path, s, formats);
    KeyPrefixPush(path, name);
  }
}
