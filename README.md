# tiny-json-validator, modelled in Dafny

A model of the core of a small JSON-schema validator. A schema tree and a
data tree are walked together. Each schema key names one field of the data
object at hand. That field is checked for presence (`required`), type and
format, and each failure is recorded in one flat error map keyed by the
dotted path of the field. The walker deletes, in place, every key of the
caller's objects that the schema does not declare. It descends into valid
`object` fields. It walks each element of a valid `array` field under a
one-key schema `{index: items}`. The entry point returns `{isValid,
errors}`.

The model has nine modules, one per file:

- `Wrappers` (wrappers.dfy): the `Option` type.
- `Js` (js.dfy): the JavaScript the validator relies on. JSON-like values
  (`Value`), plain objects as a class `JsObject` whose `fields` map is
  updated in place, `undefined` as `None`, `typeof`, truthiness,
  `Array.isArray`, `Math.floor`, `join` and the decimal spelling of an
  array index.
- `Types` and `LibTypes` (types.dfy, lib_types.dfy): the five type
  predicates of `src/types.js` and of its compiled twin `lib/types.js`,
  each written as the JavaScript expression it is, and proved equal to a
  plain statement of which values it accepts. The two modules are proved to
  agree on every value.
- `Schema` (schema.dfy): schema nodes. `properties` keeps its keys in
  `Object.keys` order.
- `Validate` (validate.dfy): the single-field validator of
  `src/validate.js`, as the class `NodeValidator` with `AddError` and
  `IsValid`. Its verdict is specified by the function `Check`.
- `Validator` (validator.dfy): the tree walker of `lib/validator.js`, as
  the class `TreeWalker` with the fields `errors` and `path`, and the entry
  point `ValidatorFactory`. The walk is specified by the functions
  `WalkVisit`, `WalkFields`, `WalkField` and `WalkElements`. These thread
  an explicit heap, the properties of every caller object, so that a
  deletion made through one reference is seen through every other. Each
  `TreeWalker` method is proved to leave the objects and the error map
  exactly as these functions say, and to report a throw exactly when they
  do. The functions carry the path as a value. `Visit` and `VisitFields`
  also prove that the path stack is back to what it was when they return
  normally. After a throw the path stack is left as it was at the throw.
- `ValidatorProps` and `ValidatorExamples` (validator_props.dfy,
  validator_examples.dfy): properties of whole walks, and whole runs on the
  inputs of `spec/validator-spec.js`.

The source throws a TypeError in a few places. The model makes each throw
an explicit outcome: `Verdict.Throws` for one field, `Walk.crashed` for a
walk, and `None` from `ValidatorFactory`. These places are:

- a `format` name that has no entry in the format registry
  (src/validate.js:120-121);
- a valid `object` node without `properties` (`Object.keys(undefined)` at
  lib/validator.js:39);
- an optional `array` field that is absent (`undefined.keys()` at
  lib/validator.js:89);
- an `array` node without `items` and a non-empty array (the element is
  validated against an `undefined` node, whose `type` is read at
  src/validate.js:103);
- an array field deleted through an alias while its elements are walked
  (`data[name][index]` at lib/validator.js:94).

Three behaviours of the code shape the model:

- `validatorFactory` deletes undeclared keys from the caller's own objects
  and returns only `isValid` and `errors`, with no copy of the data
  (lib/validator.js:32, 120-123).
- Each element of an array is validated under its own index as the field
  name, so its errors are keyed `items.0`, `items.3`, or `0` for a root
  array, and two elements never share a key (lib/validator.js:93-95).
- An absent optional `array` field throws, because `data[name].keys()` is
  called on `undefined` (lib/validator.js:89).

## Model

| member | source | states |
|---|---|---|
| Js.ReadAfterDelete | lib/validator.js:43 | after `delete data[k]`, reading `data[k]` gives `undefined` and every other key reads as before |
| Js.TypeOf | src/types.js:17 | `typeof` is `'undefined'` exactly for `undefined` and `'object'` exactly for `null`, arrays and objects; it is one of five names |
| Js.Truthy | src/types.js:53 | `undefined` and `null` are falsy, arrays and objects truthy, a string truthy exactly when non-empty |
| Js.IsArray | src/types.js:41 | `Array.isArray` holds for every array and for no object and not for `null`; whatever it accepts has `typeof` `'object'` and is truthy |
| Js.MathFloor | src/types.js:17 | `Math.floor(x)` is a whole number, and the greatest one not above `x` |
| Js.Join | src/validate.js:47 | joining no parts gives the empty string; otherwise the result starts with the first part |
| Js.JoinSnoc | src/validate.js:46-47 | joining one more path segment appends the separator and the segment |
| Js.IndexKey | lib/validator.js:93-94 | an array index used as a property key is a non-empty string of decimal digits, at least two digits from 10 on |
| Js.IndexKeyInjective | lib/validator.js:93-94 | two different indices are spelled as two different keys |
| Types.Integer | src/types.js:16-18 | accepts exactly the numbers equal to their floor, so `'1337'` and `1.5` are rejected |
| Types.String | src/types.js:28-30 | accepts exactly the strings |
| Types.Array | src/types.js:40-42 | accepts exactly the arrays |
| Types.Object | src/types.js:52-54 | accepts exactly the objects; `null` and arrays are rejected even though `typeof` calls them objects |
| Types.Boolean | src/types.js:63-65 | accepts exactly `true` and `false` |
| Types.Exclusive | src/types.js:16-65 | no value is both an object and an array, nor both a string and an integer; a boolean passes no other predicate |
| Types.UndefinedHasNoType | src/types.js:16-65 | `undefined` passes none of the five predicates |
| Types.Examples | spec/validator-spec.js:100-121 | the type test cases: `'1337'` is not an integer, 1337 is not a string, `null` and `[]` are not objects |
| LibTypes.TypeOfHelper | lib/types.js:8 | `_typeof` never answers `'symbol'` on a JSON-like value; it is `'undefined'` exactly for `undefined` and `'object'` exactly for `null`, arrays and objects |
| LibTypes.Integer | lib/types.js:19-21 | accepts exactly the numbers with `Math.floor(v) === v` |
| LibTypes.String | lib/types.js:30-32 | accepts exactly the values whose `typeof` is `'string'` |
| LibTypes.Array | lib/types.js:41-43 | accepts exactly the arrays |
| LibTypes.Object | lib/types.js:52-54 | through the `_typeof` helper, accepts exactly the non-null, non-array objects |
| LibTypes.Boolean | lib/types.js:63-65 | accepts exactly `true` and `false` |
| LibTypes.AgreesWithSource | lib/types.js:8-65 | on every value, including `undefined`, each compiled predicate gives the same answer as its counterpart in src/types.js |
| Schema.Names | lib/validator.js:39 | the set of schema key names holds exactly the keys of the `properties` object |
| Schema.SingleName | lib/validator.js:118 | a one-key schema object such as `{root: schema}` or `{index: items}` declares exactly its one name |
| Schema.ElementSchemaSmaller | lib/validator.js:91-95 | the one-key schema `{index: items}` an element is walked under is smaller than the array's node, so the walk ends |
| Validate.SliceFrom1 | src/validate.js:45 | `path.slice(1)` is one element shorter than the path, or empty for an empty path, and holds the path's elements from the second on, in order |
| Validate.ErrorKey | src/validate.js:45-47 | the key of an error is the field's bare name at the root and just below it; deeper, it is the path without its first element, joined by dots, then a dot and the name |
| Validate.IsValidRequired | src/validate.js:91-93 | fails exactly when the value is absent and the node is required |
| Validate.IsValidType | src/validate.js:102-106 | fails for every unregistered type name and for `undefined`; for each registered name it holds exactly for values of that shape |
| Validate.HasFormat | src/validate.js:116 | a format check runs exactly when the node has a non-empty format name |
| Validate.Check | src/validate.js:58-82 | the verdict on one field: "is required" exactly when absent and required; absent and optional is valid with no other check; a present value of the wrong or an unregistered type fails with "type must be T"; the format check runs only on a present, well-typed value and fails with "format must be F"; it throws exactly for an unregistered format; every other case passes |
| Validate.ErrorMap.constructor | lib/validator.js:25 | the error map starts empty |
| Validate.NodeValidator.constructor | src/validate.js:28-35 | `validateFactory`/`init` keep their arguments and read the value once, as `data[name]` |
| Validate.NodeValidator.AddError | src/validate.js:44-49 | writes the error under the path without its first element, then the field name, joined by `.`; every other entry of the map is kept and the path is not changed |
| Validate.NodeValidator.IsValid | src/validate.js:58-82 | throws exactly when `Check` says so, returns true exactly for a pass, and writes the one error of a failure and nothing otherwise |
| Validate.Precedence | src/validate.js:58-82 | when several checks would fail, the reason reported is the first in the order required, type, format |
| Validate.RootKeys | src/validate.js:44-48 | errors of the synthetic root field are keyed `root`; errors of its direct children by their bare name |
| Validate.ChildKey | src/validate.js:44-48 | one level deeper, the key is the parent field's key, a dot and the child's name (`foo.bar`) |
| Validate.DottedNamesCollide | src/validate.js:45-47 | a field named `foo.bar` and the child `bar` of field `foo` get the same error key, since segments are joined with `.` unescaped |
| Validate.ElementKeysDistinct | lib/validator.js:93-95 | two elements of one array never share an error key |
| Validator.PushName | lib/validator.js:69-71 | a non-empty node name is pushed on the path and a missing or empty one is not; the path below it is kept |
| Validator.ObjectData | lib/validator.js:66 | the fallback to a fresh `{}` at the start of a visit: the caller's own object when the value is an object, a fresh empty object otherwise |
| Validator.WalkVisit | lib/validator.js:65-104 | a visit keeps the set of caller objects and loses no error key |
| Validator.WalkFields | lib/validator.js:75-98 | the loop over schema keys keeps the set of caller objects and loses no error key |
| Validator.WalkField | lib/validator.js:76-97 | one schema key keeps the set of caller objects and loses no error key |
| Validator.WalkElements | lib/validator.js:87-97 | the loop over array elements keeps the set of caller objects and loses no error key |
| Validator.Run | lib/validator.js:115-118 | a call keeps the set of caller objects; with no data and a required root schema it ends, without throwing, with exactly `{root: 'is required'}` |
| Validator.Prune | lib/validator.js:38-46 | what is left of an object after deleting the keys outside the schema: exactly its keys that the schema declares, each with its value |
| Validator.TreeWalker.constructor | lib/validator.js:24-27 | `init` leaves an empty error map and an empty path |
| Validator.TreeWalker.RemoveExtraNodes | lib/validator.js:38-46 | deletes, in the caller's object, exactly the keys the schema does not declare, and keeps every other key with its value |
| Validator.TreeWalker.Visit | lib/validator.js:65-104 | ends with the objects, the errors and the crash outcome `WalkVisit` gives; keeps the heap closed; on a normal return the path is what it was, since push and pop are guarded alike |
| Validator.TreeWalker.VisitFields | lib/validator.js:75-98 | the loop over the schema keys ends as `WalkFields` gives and leaves the path unchanged |
| Validator.TreeWalker.VisitField | lib/validator.js:76-97 | one schema key: validate, then descend into a valid object or walk a valid array, as `WalkField` gives |
| Validator.TreeWalker.VisitElements | lib/validator.js:87-97 | the loop over the indices of an array field ends as `WalkElements` gives; each iteration checks that `data[name]` is still there and takes the element from the array read at validation, which is what `data[name][index]` reads since a walk never changes a value, only deletes keys |
| Validator.ValidatorFactory | lib/validator.js:115-124 | the caller's objects end as the walk from `{root: schema}` / `{root: data}` leaves them; it throws exactly when that walk does; otherwise it returns that walk's errors, and `isValid` holds exactly when there are none |
| ValidatorProps.PruneIdempotent | lib/validator.js:38-46 | removing extra keys a second time removes nothing |
| ValidatorProps.VisitProgress | lib/validator.js:65-104 | a visit only deletes keys of the caller's objects, changes no value and loses no error key |
| ValidatorProps.FieldsProgress | lib/validator.js:75-98 | the same for the loop over schema keys |
| ValidatorProps.FieldProgress | lib/validator.js:76-97 | the same for one schema key |
| ValidatorProps.ElementsProgress | lib/validator.js:87-97 | the same for the loop over array elements |
| ValidatorProps.FieldsUnder | lib/validator.js:75-98 | the loop over schema keys at a path adds or changes only error keys that start with that path's key prefix |
| ValidatorProps.FieldUnder | lib/validator.js:76-97 | the same for one schema key |
| ValidatorProps.ElementsUnder | lib/validator.js:87-97 | the same for the loop over array elements |
| ValidatorProps.VisitUnder | lib/validator.js:65-104 | a visit adds or changes only error keys under the prefix of the path after its push |
| ValidatorProps.VisitBelow | lib/validator.js:83-95 | a visit that pushes a field name below the root stays under the prefix of the path it started from |
| ValidatorProps.NestedErrorsUnderField | lib/validator.js:83-95 | walking the object or array field `name` below the root adds or changes only keys that start with the field's own error key and a dot, so a nested error never overwrites the error of a sibling whose name does not start with `name.` |
| ValidatorProps.RunOnlyDeletes | lib/validator.js:115-118 | a whole call only deletes keys of the caller's objects and changes no value |
| ValidatorProps.ExtraLocalKeyIgnored | lib/validator.js:73-79 | a data key the schema does not declare changes neither the errors nor the outcome |
| ValidatorProps.ExtraSharedKeyIgnored | lib/validator.js:73-79 | the same for a key of a caller's object, whose deletion leaves the walk unchanged |
| ValidatorProps.InvalidFieldStops | lib/validator.js:77-81 | a field that fails records its one error and is neither descended into nor walked |
| ValidatorProps.LeafElementStep | lib/validator.js:91-95 | one element against a scalar `items` records at most its type error, under its own index |
| ValidatorProps.LeafElementsStep | lib/validator.js:89-96 | one iteration of the element loop over a scalar `items` |
| ValidatorProps.LeafElements | lib/validator.js:87-97 | over a scalar `items`, every failing element has its error under `<array path>.<index>`, no earlier error key is lost, no other entry appears and nothing throws |
| ValidatorExamples.MissingRootIsRequired | spec/validator-spec.js:86-91 | a required string with no data gives `{root: 'is required'}` |
| ValidatorExamples.RootArrayElementKey | spec/validator-spec.js:109-113 | `['1337']` against an array of integers gives `{0: 'type must be integer'}` |
| ValidatorExamples.RootFormatError | spec/validator-spec.js:124-128 | a string failing its format test gives `{root: 'format must be date-time'}` |
| ValidatorExamples.UnknownFormatThrows | src/validate.js:115-122 | a format name with no registry entry makes the call throw |
| ValidatorExamples.UnknownTypeReported | src/validate.js:102-106 | an unregistered type name gives `{root: 'type must be bad_type'}` and does not throw |
| ValidatorExamples.RootTypeError | spec/validator-spec.js:101-103 | an array against an object schema gives `{root: 'type must be object'}` |
| ValidatorExamples.NestedRequiredKey | spec/validator-spec.js:59-66 | `{foo: {}}` with a required `foo.bar` gives `{'foo.bar': 'is required'}` |
| ValidatorExamples.AbsentOptionalObjectDescends | lib/validator.js:66-84 | an absent optional object is walked as `{}`, so its required child is still reported as `foo.bar` |
| ValidatorExamples.AbsentOptionalArrayThrows | lib/validator.js:87-89 | an absent optional array field makes the call throw |
| ValidatorExamples.ExtraKeyDeletedInPlace | lib/validator.js:38-46 | `{foo: '1337', bar: 123}` against `{foo: string}` is valid and `bar` is deleted from the caller's object |
| ValidatorExamples.MixedArrayKeys | spec/validator-spec.js:241-246 | `['1337', 1337, '1337', 700, 'foo']` against an array of strings reports the two numbers, under `1` and `3` |
| ValidatorExamples.AliasedFirstElement | lib/validator.js:91-95 | walking element 0, the object itself against `{}`, deletes every key of the object through the alias and reports nothing |
| ValidatorExamples.AliasedArrayThrows | lib/validator.js:87-96 | an object holding itself twice in an array field: walking element 0 deletes the field through the alias, and reading element 1 throws |
| ValidatorExamples.ExtraKeyExample | lib/validator.js:115-124 | the imperative entry point on a fresh `{foo: '1337', bar: 123}` returns `{isValid: true, errors: {}}` and leaves the object as `{foo: '1337'}` |
| ValidatorExamples.AliasedArrayExample | lib/validator.js:115-124 | the imperative entry point throws on the self-aliasing object above |

## Left out

- The format regular expressions (`src/formats.js`) are not part of this model. The registry is a parameter `Formats`, mapping a format name to an arbitrary test of the value. The string coercion that `RegExp.prototype.test` applies is part of that test.
- Numbers are finite reals. NaN, the infinities and negative zero of IEEE 754 are left out, so `Infinity` passing `integer` is not modelled.
- The Symbol branch of `_typeof` (lib/types.js:8) is left out: JSON-like values hold no Symbol, and the helper is `typeof` on every modelled value.
- Names that objects inherit from `Object.prototype`, such as `constructor` or `__proto__`, used as type names, format names or field names, are left out. A lookup sees only own keys.
- A schema's `required` is a boolean and its `format` an optional string. Other JavaScript values there, which the source would test for truthiness, are left out; an empty format counts as no format, as in the source.
- A schema is a finite tree. A schema object that contains itself would make the source recurse without end; it is left out.
- Arrays are sequences: holes and extra non-index properties of arrays are left out.
- `Object.create` delegation, `require`, `module.exports` and the exported `proto` are left out; each object is a Dafny class with the same fields.
- Thrown TypeErrors are outcomes, not exceptions. The model records that a call threw and the state of the objects at that point, not the error message.
- The test assertions on `res.data` and on the input staying unchanged (spec/validator-spec.js:20, 222, 230, 238, 245) target a result the code does not produce; `ExtraKeyDeletedInPlace` states what the code does.
- The test at spec/validator-spec.js:68-76 expects no error for an absent optional object; the code reports `foo.bar`, as `AbsentOptionalObjectDescends` states.
- The test at spec/validator-spec.js:48 calls the validator with no arguments; it is left out.
- The objects the walker allocates itself (the `{}` for an absent object and the `{index: element}` wrappers) are values in the model, since nothing else refers to them.
- Field names holding a dot collide with nested keys, in the source and in the model alike: the error of a field `foo.bar` and that of the child `bar` of a field `foo` share the key `foo.bar`, and whichever is written later wins (`DottedNamesCollide`).
- A schema's `properties` is taken to have distinct names, as a JavaScript object has. A schema value with a repeated name would make the model check that field twice; the source cannot express one.
- ValidatorProps.LeafElements: covers arrays whose `items` is a scalar type without a format; for other `items` the element walk is only stated through `WalkElements` and the progress lemmas.
