# JSON Schema resolver of kloadgen, in Dafny

kloadgen generates Kafka load from a schema. Its JSON Schema resolver,
`JSONSchemaParser`, compiles a parsed JSON Schema document into a tree of
`Field` nodes:

- field kinds: integer, number, string, date, uuid, enum, boolean, array, object and map;
- draft-07 keywords: `definitions`, in-document `$ref`, `anyOf`/`allOf`/`oneOf`, `additionalProperties`, `format`, and the numeric and string constraints.

It works in two passes:

1. A definitions pre-pass fills a name → field cache, `definitionsMap`. A cycle guard, `cyclingSet`, stops self-references.
2. A properties walk dispatches every node on its shape: `$ref`, explicit `type`, combinator, has-`properties`, or error.

This project models that resolver, the two field classes `EnumField` and `UUIDField`, and the list merge (`mergeValue`/`checkExists`) of the serialised-subject property editor. It proves their contracts.

Modules, one per file:

- `Wrappers`: `Option` and `Result`.
- `JavaText`: the `java.lang` string and number operations the resolver calls: `Long.parseLong`, `Integer.parseInt`, `equalsIgnoreCase`, `lastIndexOf`, `isBlank`, `trim`, `Boolean.parseBoolean`, and the truncation of a decimal text to an integer that `(int) Double.parseDouble` performs.
- `Json`: the parsed document and the Jackson accessors (`get`/`path`, `fields`, `elements`, `asText`, `asInt`, `textValue`, `isEmpty`, `findPath`). `JMissing` is Jackson's missing node.
- `FieldModel`: the `Field` datatype, one variant per field class, plus `NullField` for a Java `null` stored where a field is expected. It also holds `cloneField`, `getProperties` and the `EnumField`/`UUIDField` constructors.
- `ParserSupport`: the error kinds with their messages, the keyword tests, `extractRefName`, `getSafeType`/`getNonNUll`, `safeGetNumber` and the scalar builders. The random branch choice is the `Selector` parameter: a function that, for a branch count `n > 0`, returns an index in `[0, n)`.
- `PropertyWalk`: the properties walk (`buildProperty`, `buildField`, `buildArrayField`, `buildObjectField`, `chooseAnyOf`, `buildCombinedField`). It only reads the cache.
- `DefinitionWalk`: the definition path (`buildDefinition`, `extractDefinition`, `chooseAnyOfDefinition`, `buildDefinitionArrayField`, `buildDefinitionObjectField`) and one step of `processDefinitions`. Each threads the resolver state `State(defs, cycling)` through as a value. A Java exception becomes an `Err` together with the state reached so far.
- `Resolver`: the class `JsonSchemaParser` with the fields `definitionsMap` and `cyclingSet`.
  - Its methods `ProcessDefinitions`, `Parse`, `ParseText` and `BuildCombinedField` run the source's loops in place.
  - Each method is proved equal to the functional specification in the modules above.
  - Properties of the whole `parse` are proved about that specification, `ParseSpec`.
- `SubjectEditor`: `mergeValue` as a method with a loop, `checkExists` as a first-match function, and the properties of the merge.

All source paths below are relative to the repository root. `JSONSchemaParser.java` stands for
`src/main/java/net/coru/kloadgen/extractor/parser/impl/JSONSchemaParser.java`. In the table every
path is written out in full.

## Model

| member | source | states |
|---|---|---|
| FieldModel.NewEnumField | src/main/java/net/coru/kloadgen/model/json/EnumField.java:28-33 | the constructor's field has kind tag "enum" and keeps name, default value and value list unchanged |
| FieldModel.NewUUIDField | src/main/java/net/coru/kloadgen/model/json/UUIDField.java:26-31 | the constructor's field has kind tag "uuid" and keeps name, regex and format unchanged |
| FieldModel.CloneField | src/main/java/net/coru/kloadgen/model/json/EnumField.java:35-38 | `cloneField(n)` is a field of the same kind named `n` that differs from the original in nothing but the name |
| FieldModel.EnumCloneField | src/main/java/net/coru/kloadgen/model/json/EnumField.java:35-38 | cloning an enum field under `n` gives the enum built by the constructor from `n`, the same default and the same values |
| FieldModel.UUIDCloneField | src/main/java/net/coru/kloadgen/model/json/UUIDField.java:33-36 | cloning a uuid field under `n` gives the uuid field built by the constructor from `n`, the same regex and the same format |
| FieldModel.CloneFieldIdempotent | src/main/java/net/coru/kloadgen/model/json/EnumField.java:18-38 | cloning twice under one name equals cloning once (value equality); in general the last name wins |
| FieldModel.CloneFieldRoundTrip | src/main/java/net/coru/kloadgen/model/json/UUIDField.java:33-36 | cloning back under the original name restores the original field |
| FieldModel.GetProperties | src/main/java/net/coru/kloadgen/model/json/EnumField.java:40-43 | a scalar field (enum, uuid and the rest) lists exactly itself; object, array and map list their children |
| ParserSupport.CheckRequiredCollection | src/main/java/net/coru/kloadgen/extractor/parser/impl/JSONSchemaParser.java:652-655 | true exactly when `isParentObject` or `required` is true, a null in either counting as false |
| ParserSupport.PropagateRequired | src/main/java/net/coru/kloadgen/extractor/parser/impl/JSONSchemaParser.java:657-682 | an object takes `required` as its requiredness; an array or map takes exactly `checkRequiredCollection(isParentObject, required)`, never null; name, kind and contents are unchanged and every other field is returned as it is |
| ParserSupport.NonEmptyTexts | src/main/java/net/coru/kloadgen/extractor/parser/impl/JSONSchemaParser.java:609-613 | the `required` names kept are exactly the non-empty text elements of the list |
| ParserSupport.ExtractRefName | src/main/java/net/coru/kloadgen/extractor/parser/impl/JSONSchemaParser.java:348-355 | the result is the suffix after the last `/`, contains no `/`, and is the whole reference when it has no `/` |
| ParserSupport.DefinitionRefName | src/main/java/net/coru/kloadgen/extractor/parser/impl/JSONSchemaParser.java:348-355 | the name extracted from `#/definitions/n` is `n` whenever `n` holds no slash |
| ParserSupport.FirstNonNullFinds | src/main/java/net/coru/kloadgen/extractor/parser/impl/JSONSchemaParser.java:258-267 | the type found is the text of the first element not equal, ignoring case, to "null"; none exactly when every element is "null" |
| ParserSupport.GetNonNull | src/main/java/net/coru/kloadgen/extractor/parser/impl/JSONSchemaParser.java:258-267 | the iterator loop returns the first non-"null" text, as `FirstNonNull` specifies it |
| ParserSupport.GetSafeType | src/main/java/net/coru/kloadgen/extractor/parser/impl/JSONSchemaParser.java:246-256 | the `type` that `findPath` finds decides: a text is lower-cased, a list gives its first non-"null" entry, anything else (a missing or non-text `type`) is the NullPointerException |
| ParserSupport.GetSafeTypeOwn | src/main/java/net/coru/kloadgen/extractor/parser/impl/JSONSchemaParser.java:248-252 | a node's own `type` entry is the one used when no earlier entry is named `type` or holds one at any depth |
| ParserSupport.GetSafeTypeNested | src/main/java/net/coru/kloadgen/extractor/parser/impl/JSONSchemaParser.java:248-252 | a `type` nested in an earlier property wins over the node's own later `type`: `{"properties": {"a": {"type": "integer"}}, "type": "object"}` has type "integer" |
| Json.FindPathOwnEntry | src/main/java/net/coru/kloadgen/extractor/parser/impl/JSONSchemaParser.java:248-252 | `findPath` returns an entry named as the key when no earlier entry has that name or holds it at any depth |
| ParserSupport.TypedIsContainer | src/main/java/net/coru/kloadgen/extractor/parser/impl/JSONSchemaParser.java:246-256 | a node whose type lookup succeeds is an object or an array, since `findPath` finds nothing in a scalar |
| ParserSupport.SafeGetNumber | src/main/java/net/coru/kloadgen/extractor/parser/impl/JSONSchemaParser.java:574-582 | a literal with `.` is a decimal; otherwise it is the integer `Long.parseLong` reads, and a NumberFormatException when it reads none |
| ParserSupport.SafeGetNumberOfLong | src/main/java/net/coru/kloadgen/extractor/parser/impl/JSONSchemaParser.java:574-582 | every long, written in decimal, reads back as that integer |
| ParserSupport.BuildNumberField | src/main/java/net/coru/kloadgen/extractor/parser/impl/JSONSchemaParser.java:556-572 | the build succeeds exactly when all five bounds read by `safeGetNumber` do, and then holds them in order (maximum, minimum, exclusive maximum, exclusive minimum, multipleOf); otherwise the first failing bound's error is the result |
| ParserSupport.NumberFieldDefaults | src/main/java/net/coru/kloadgen/extractor/parser/impl/JSONSchemaParser.java:556-572 | with no numeric keyword every bound defaults to the integer 0 |
| ParserSupport.NumberFieldDecimals | src/main/java/net/coru/kloadgen/extractor/parser/impl/JSONSchemaParser.java:556-582 | each of the five bounds is decimal exactly when its literal contains `.` |
| ParserSupport.EnumValues | src/main/java/net/coru/kloadgen/extractor/parser/impl/JSONSchemaParser.java:472-486 | the values are the texts of the `enum` array's elements in order, and none when `enum` is not an array |
| ParserSupport.BuildEnumField | src/main/java/net/coru/kloadgen/extractor/parser/impl/JSONSchemaParser.java:472-478 | succeeds exactly when there is at least one value, otherwise IndexOutOfBounds; the default is one of the values |
| ParserSupport.BuildStringField | src/main/java/net/coru/kloadgen/extractor/parser/impl/JSONSchemaParser.java:432-454 | a string build gives a string, date, uuid or enum field with the given name |
| ParserSupport.StringFieldDispatch | src/main/java/net/coru/kloadgen/extractor/parser/impl/JSONSchemaParser.java:432-470 | `enum` gives an enum (default = first value); a date-time/time/date format gives a date field with that format; "uuid" a uuid field; any other format a string field with only the format; no format a string field with pattern and lengths, 0 by default |
| ParserSupport.BuildArrayFieldWith | src/main/java/net/coru/kloadgen/extractor/parser/impl/JSONSchemaParser.java:590-601 | the array holds exactly the given element field, with the given name and requiredness; `minItems` is `Integer.parseInt` of `asText("0")` and its NumberFormatException is the only failure; `uniqueItems` is `Boolean.parseBoolean` of `asText("false")` |
| PropertyWalk.Cached | src/main/java/net/coru/kloadgen/extractor/parser/impl/JSONSchemaParser.java:371-373 | `definitionsMap.get` is the cached field, or null for an uncached name |
| PropertyWalk.BuildProperty | src/main/java/net/coru/kloadgen/extractor/parser/impl/JSONSchemaParser.java:365-394 | every property built successfully is a non-null field carrying the property's name |
| PropertyWalk.PropertyDispatch | src/main/java/net/coru/kloadgen/extractor/parser/impl/JSONSchemaParser.java:365-394 | a property is dispatched in the source's order: `$ref`, then `type`, then a combinator, then `properties`; a node with none of them fails with "Not supported file" |
| PropertyWalk.BuildField | src/main/java/net/coru/kloadgen/extractor/parser/impl/JSONSchemaParser.java:400-426 | every typed field built successfully carries the given name |
| PropertyWalk.FieldDispatch | src/main/java/net/coru/kloadgen/extractor/parser/impl/JSONSchemaParser.java:400-426 | a missing or non-text type is a NullPointerException; otherwise the lower-cased type decides: integer, number, boolean, array (with array requiredness), object, and a string build for every other type |
| PropertyWalk.BuildArrayField | src/main/java/net/coru/kloadgen/extractor/parser/impl/JSONSchemaParser.java:584-601 | an array field with the given name and requiredness and exactly one element field |
| PropertyWalk.ArrayItems | src/main/java/net/coru/kloadgen/extractor/parser/impl/JSONSchemaParser.java:584-588 | the single element is `items` built with no name, required exactly when the `minItems` text is present, not blank and not "0" (so -1, `null` and `0.0` make it required); its failure is the array's failure |
| PropertyWalk.BuildObjectField | src/main/java/net/coru/kloadgen/extractor/parser/impl/JSONSchemaParser.java:603-642 | every object, map or combined field built successfully carries the given name |
| PropertyWalk.ObjectFieldCases | src/main/java/net/coru/kloadgen/extractor/parser/impl/JSONSchemaParser.java:607-642 | a combinator object is `chooseAnyOf`; a non-empty `additionalProperties` gives a map of it built as the internal map field, not required; otherwise an object of the resolved `properties` with the `required` list and the given requiredness; errors pass through |
| PropertyWalk.ChooseAnyOf | src/main/java/net/coru/kloadgen/extractor/parser/impl/JSONSchemaParser.java:492-521 | every combinator result carries the given name |
| PropertyWalk.BuildCombinedField | src/main/java/net/coru/kloadgen/extractor/parser/impl/JSONSchemaParser.java:527-554 | a merged combinator is an object field with the given name, no required list, and requiredness false |
| PropertyWalk.PropertyFields | src/main/java/net/coru/kloadgen/extractor/parser/impl/JSONSchemaParser.java:612-618 | one field per property, in order, each named after its key |
| PropertyWalk.PropertyFieldsPointwise | src/main/java/net/coru/kloadgen/extractor/parser/impl/JSONSchemaParser.java:612-618 | the property list succeeds exactly when every property builds, and then field i is the build of property i with its own requiredness |
| PropertyWalk.CombinedFieldsAppend | src/main/java/net/coru/kloadgen/extractor/parser/impl/JSONSchemaParser.java:531-551 | the fields merged from two branch lists are the fields of the first followed by those of the second; an error in the first wins |
| PropertyWalk.RefBranchFields | src/main/java/net/coru/kloadgen/extractor/parser/impl/JSONSchemaParser.java:535-542 | a `$ref` branch of an uncached name is a NullPointerException; a typed branch contributes the renamed clone, an untyped one the clone's properties |
| PropertyWalk.RefProperty | src/main/java/net/coru/kloadgen/extractor/parser/impl/JSONSchemaParser.java:366-377 | a `$ref` not starting with `#` fails with "Reference not Supported" and the ref name; an uncached one is a NullPointerException; otherwise the cached definition cloned under the use-site name: an object with its properties and list and the given requiredness, an array or map with its contents and `checkRequiredCollection` as requiredness, a scalar unchanged but for the name, and for type "array" an array built around the clone |
| PropertyWalk.BuildRefProperty | src/main/java/net/coru/kloadgen/extractor/parser/impl/JSONSchemaParser.java:366-377 | a successful `$ref` property carries the use-site name (an array of the definition when typed "array") |
| PropertyWalk.RefUnderObject | src/main/java/net/coru/kloadgen/extractor/parser/impl/JSONSchemaParser.java:366-377 | a `$ref` property under an object parent is required when it is an array or a map, and an object one keeps the requiredness it is given |
| PropertyWalk.ObjectUnderObject | src/main/java/net/coru/kloadgen/extractor/parser/impl/JSONSchemaParser.java:607-628 | under an object parent a map is always required and an object keeps the given requiredness |
| PropertyWalk.TypedUnderObject | src/main/java/net/coru/kloadgen/extractor/parser/impl/JSONSchemaParser.java:400-426 | under an object parent a typed array or map is always required and an object keeps the given requiredness |
| PropertyWalk.RequirednessUnderObject | src/main/java/net/coru/kloadgen/extractor/parser/impl/JSONSchemaParser.java:365-394 | arrays and maps reached through `$ref` or `type` under an object parent are required; objects keep the property's requiredness |
| PropertyWalk.ObjectProperties | src/main/java/net/coru/kloadgen/extractor/parser/impl/JSONSchemaParser.java:607-623 | a plain object has one property per entry, named after it, required exactly when listed in `required`, and array/map members marked required |
| PropertyWalk.ChooseAnyOfOutcome | src/main/java/net/coru/kloadgen/extractor/parser/impl/JSONSchemaParser.java:492-521 | mixed branches fail with "types and properties mixed"; all-scalar `allOf` fails with "Incorrect type in combination"; structural `allOf` merges every branch; structural `anyOf`/`oneOf` merges only the branch the selector picks and an all-scalar one builds that branch as a typed field; an empty `anyOf`/`oneOf` is IndexOutOfBounds |
| DefinitionWalk.GrowsTransitive | src/main/java/net/coru/kloadgen/extractor/parser/impl/JSONSchemaParser.java:101-105 | the cache only gains entries and the guard only gains names, transitively |
| DefinitionWalk.BuildDefinition | src/main/java/net/coru/kloadgen/extractor/parser/impl/JSONSchemaParser.java:187-238 | resolving a definition keeps every cached entry and every guarded name |
| DefinitionWalk.DefinitionTypedDispatch | src/main/java/net/coru/kloadgen/extractor/parser/impl/JSONSchemaParser.java:189-213 | a typed definition: a non-text type is a NullPointerException, an empty type list "Not type object found"; integer, number, boolean, array (with array requiredness), object, and a string build for every other type |
| DefinitionWalk.DefinitionUntypedDispatch | src/main/java/net/coru/kloadgen/extractor/parser/impl/JSONSchemaParser.java:226-236 | a definition with neither `type` nor `$ref` is a combinator resolved by `chooseAnyOfDefinition`, or otherwise an object definition with no requiredness |
| DefinitionWalk.ExtractDefinition | src/main/java/net/coru/kloadgen/extractor/parser/impl/JSONSchemaParser.java:269-277 | the resolved target is stored in the cache under its own name; the guard only grows |
| DefinitionWalk.ChooseAnyOfDefinition | src/main/java/net/coru/kloadgen/extractor/parser/impl/JSONSchemaParser.java:279-293 | resolving a combinator definition keeps the cache and the guard |
| DefinitionWalk.ChooseAnyOfDefinitionCases | src/main/java/net/coru/kloadgen/extractor/parser/impl/JSONSchemaParser.java:279-293 | `anyOf`/`oneOf` resolves the branch the selector picks, without requiredness, and a list that is not a non-empty array is a NullPointerException; any other combinator resolves the list node itself |
| DefinitionWalk.BuildDefinitionArrayField | src/main/java/net/coru/kloadgen/extractor/parser/impl/JSONSchemaParser.java:295-299 | an array field with the given name and requiredness |
| DefinitionWalk.DefinitionArrayItems | src/main/java/net/coru/kloadgen/extractor/parser/impl/JSONSchemaParser.java:295-299 | the single element is `items` resolved with no name, required exactly when the `minItems` text is present, not blank and not "0" (so -1, `null` and `0.0` make it required); its failure is the array's failure |
| DefinitionWalk.BuildDefinitionObjectField | src/main/java/net/coru/kloadgen/extractor/parser/impl/JSONSchemaParser.java:305-337 | resolving an object definition keeps the cache and the guard |
| DefinitionWalk.DefinitionObjectCases | src/main/java/net/coru/kloadgen/extractor/parser/impl/JSONSchemaParser.java:307-318 | a node with `properties` is an object of them resolved in order against its `required` list, with the given requiredness; the first failure is the result |
| DefinitionWalk.DefinitionMapCases | src/main/java/net/coru/kloadgen/extractor/parser/impl/JSONSchemaParser.java:319-321 | otherwise a non-empty `additionalProperties` gives a map of it resolved as the internal map field, with array requiredness |
| DefinitionWalk.DefinitionObjectFallback | src/main/java/net/coru/kloadgen/extractor/parser/impl/JSONSchemaParser.java:322-336 | otherwise a cached `$ref` is a renamed clone (a cached null is a NullPointerException), a guarded one is null, and a node without `$ref` is an object of its own entries built as plain properties |
| DefinitionWalk.DefinitionProperties | src/main/java/net/coru/kloadgen/extractor/parser/impl/JSONSchemaParser.java:312-313 | one field per property, keeping the cache and the guard |
| DefinitionWalk.DefinitionPropertiesAllOk | src/main/java/net/coru/kloadgen/extractor/parser/impl/JSONSchemaParser.java:308-313 | the properties of an object definition all resolve exactly when each one does, in the state the earlier ones left |
| DefinitionWalk.DefinitionPropertiesPointwise | src/main/java/net/coru/kloadgen/extractor/parser/impl/JSONSchemaParser.java:308-313 | field i is property i resolved, required when listed and with an object parent, in the state the earlier properties left |
| DefinitionWalk.DefinitionPropertiesFinalState | src/main/java/net/coru/kloadgen/extractor/parser/impl/JSONSchemaParser.java:308-313 | the state after the list is the state the last property left |
| DefinitionWalk.PutIfAbsent | src/main/java/net/coru/kloadgen/extractor/parser/impl/JSONSchemaParser.java:162 | `putIfAbsent`: an entry already cached with a non-null field stays; otherwise the key is set |
| DefinitionWalk.ProcessEntry | src/main/java/net/coru/kloadgen/extractor/parser/impl/JSONSchemaParser.java:160-178 | one pre-pass step never takes a name off the guard that was there before it |
| DefinitionWalk.ProcessAll | src/main/java/net/coru/kloadgen/extractor/parser/impl/JSONSchemaParser.java:158-181 | the whole pre-pass never takes a name off the guard that was there before it |
| DefinitionWalk.NestedRefGuard | src/main/java/net/coru/kloadgen/extractor/parser/impl/JSONSchemaParser.java:214-225 | a nested `$ref` returns the cached field with nothing changed, a guarded name gives null, and a name resolved now is cached and taken off the guard again |
| DefinitionWalk.ObjectRefLeavesGuard | src/main/java/net/coru/kloadgen/extractor/parser/impl/JSONSchemaParser.java:322-330 | a `$ref` inside an object definition leaves its name in the guard after resolving it |
| DefinitionWalk.AllOfDefinitionIsEmpty | src/main/java/net/coru/kloadgen/extractor/parser/impl/JSONSchemaParser.java:279-293 | an `allOf` definition resolves the branch array itself, giving an object with no properties |
| DefinitionWalk.FirstWriterWins | src/main/java/net/coru/kloadgen/extractor/parser/impl/JSONSchemaParser.java:161-162 | a plain definition fails the pass exactly when its build fails; an already cached key keeps its field (first writer wins); otherwise the new field is stored |
| DefinitionWalk.RefEntryFailures | src/main/java/net/coru/kloadgen/extractor/parser/impl/JSONSchemaParser.java:163-177 | a ref entry to an uncached target that is itself a `$ref`, or is guarded, fails with "Missing definition" and changes nothing; an unsupported ref is passed over |
| DefinitionWalk.RefEntryResolved | src/main/java/net/coru/kloadgen/extractor/parser/impl/JSONSchemaParser.java:168-171 | a resolved ref entry stores the target's field under the entry's key and takes the target off the guard |
| DefinitionWalk.RefEntryCached | src/main/java/net/coru/kloadgen/extractor/parser/impl/JSONSchemaParser.java:163-166 | a supported ref entry whose target is cached rebuilds the entry's own node and puts it under the key, overwriting; for an untyped node that is the target's cached field |
| DefinitionWalk.MissingTargetIsEmptyObject | src/main/java/net/coru/kloadgen/extractor/parser/impl/JSONSchemaParser.java:168-171 | a ref entry to a name the definitions do not declare stores an empty object under the key, not "Missing definition" |
| DefinitionWalk.MutualReferencesFail | src/main/java/net/coru/kloadgen/extractor/parser/impl/JSONSchemaParser.java:158-181 | two definitions that only refer to each other fail the pre-pass with "Missing definition" |
| Resolver.TopRequired | src/main/java/net/coru/kloadgen/extractor/parser/impl/JSONSchemaParser.java:136-137 | one entry per top-level `required` element, its text (null for a non-text) |
| Resolver.DottedRequired | src/main/java/net/coru/kloadgen/extractor/parser/impl/JSONSchemaParser.java:139-140 | one `prop.child` path per nested `required` element of a property |
| Resolver.AllDottedMembers | src/main/java/net/coru/kloadgen/extractor/parser/impl/JSONSchemaParser.java:139-140 | a path is among the dotted ones exactly when it is `prop.child` for some property and one of its listed names |
| Resolver.RootRequiredMembers | src/main/java/net/coru/kloadgen/extractor/parser/impl/JSONSchemaParser.java:136-140 | the required list contains exactly the top-level names and the dotted nested names, and begins with the top-level ones in their order |
| Resolver.RootProperties | src/main/java/net/coru/kloadgen/extractor/parser/impl/JSONSchemaParser.java:142-144 | one field per top-level property, in order, each named after its key |
| Resolver.RootPropertiesPointwise | src/main/java/net/coru/kloadgen/extractor/parser/impl/JSONSchemaParser.java:142-144 | field i is property i built as required exactly when its name is in the required list, under an object parent exactly when the root type is "object" |
| Resolver.ParseSpec | src/main/java/net/coru/kloadgen/extractor/parser/impl/JSONSchemaParser.java:120-156 | a parsed schema has a root type, one field per top-level property named after it, and the cache as its descriptions |
| Resolver.ParseKeepsGuard | src/main/java/net/coru/kloadgen/extractor/parser/impl/JSONSchemaParser.java:101 | `parse` never clears the cycle guard |
| Resolver.ParseStopsAtDefinitions | src/main/java/net/coru/kloadgen/extractor/parser/impl/JSONSchemaParser.java:127-128 | a failing pre-pass fails the parse with its error before any property is built |
| Resolver.CollectRequiredFields | src/main/java/net/coru/kloadgen/extractor/parser/impl/JSONSchemaParser.java:136-140 | the nested loops build exactly the required list `RootRequired` specifies |
| Resolver.AppendDotted | src/main/java/net/coru/kloadgen/extractor/parser/impl/JSONSchemaParser.java:139-140 | the inner loop appends exactly the dotted paths of one property, after what was collected before |
| Resolver.ResolveProperties | src/main/java/net/coru/kloadgen/extractor/parser/impl/JSONSchemaParser.java:142-144 | the property loop builds exactly the list `RootProperties` specifies, stopping at the first error |
| Resolver.BuildPropertyList | src/main/java/net/coru/kloadgen/extractor/parser/impl/JSONSchemaParser.java:545-548 | the inner loop over a branch's properties builds exactly the list `PropertyFields` specifies |
| Resolver.JsonSchemaParser.constructor | src/main/java/net/coru/kloadgen/extractor/parser/impl/JSONSchemaParser.java:101-105 | a new resolver has an empty cache and an empty guard |
| Resolver.JsonSchemaParser.ProcessDefinitions | src/main/java/net/coru/kloadgen/extractor/parser/impl/JSONSchemaParser.java:158-181 | the in-place loop leaves the cache, the guard and the failure exactly as `ProcessAll` specifies |
| Resolver.JsonSchemaParser.ProcessDefinition | src/main/java/net/coru/kloadgen/extractor/parser/impl/JSONSchemaParser.java:160-178 | one iteration of the pre-pass leaves the cache and the guard as one pre-pass step says, and reports its failure |
| Resolver.JsonSchemaParser.Parse | src/main/java/net/coru/kloadgen/extractor/parser/impl/JSONSchemaParser.java:119-156 | the result and the new cache and guard are exactly those of `ParseSpec` from the old guard |
| Resolver.JsonSchemaParser.ParseText | src/main/java/net/coru/kloadgen/extractor/parser/impl/JSONSchemaParser.java:107-117 | an unreadable document is "Wrong Json Schema" with the cache cleared; a readable one is parsed |
| Resolver.JsonSchemaParser.BuildCombinedField | src/main/java/net/coru/kloadgen/extractor/parser/impl/JSONSchemaParser.java:527-554 | the branch loop builds exactly the merged object `PropertyWalk.BuildCombinedField` specifies |
| SubjectEditor.CheckExists | src/main/java/net/coru/kloadgen/property/editor/SerialisedSubjectPropertyEditor.java:210-214 | the result is the first row with equal field name and field type; none exactly when no row has them |
| SubjectEditor.MergeValue | src/main/java/net/coru/kloadgen/property/editor/SerialisedSubjectPropertyEditor.java:175-208 | a non-list or empty table returns the fresh list; otherwise the result has its length, and position i has the name and type of fresh mapping i |
| SubjectEditor.CheckExistsByKey | src/main/java/net/coru/kloadgen/property/editor/SerialisedSubjectPropertyEditor.java:210-214 | two mappings with equal name and type find the same row |
| SubjectEditor.MergePointwise | src/main/java/net/coru/kloadgen/property/editor/SerialisedSubjectPropertyEditor.java:194-207 | position i is the first matching row when one exists, and fresh mapping i otherwise |
| SubjectEditor.MergeKeepsKeys | src/main/java/net/coru/kloadgen/property/editor/SerialisedSubjectPropertyEditor.java:194-214 | the merge keeps the length, and every position keeps the (name, type) pair of the fresh mapping there |
| SubjectEditor.MergeDrawsFromInputs | src/main/java/net/coru/kloadgen/property/editor/SerialisedSubjectPropertyEditor.java:194-207 | every merged mapping is a table row or the fresh mapping at that position |
| SubjectEditor.MergeIdempotent | src/main/java/net/coru/kloadgen/property/editor/SerialisedSubjectPropertyEditor.java:175-214 | merging the result against the same table again changes nothing |
| Json.AsIntExponent | src/main/java/net/coru/kloadgen/extractor/parser/impl/JSONSchemaParser.java:456-462 | `asInt` of a double rendered in E notation, such as 1.0E10, truncates it and saturates it to the int range |
| Json.AsIntDecimalText | src/main/java/net/coru/kloadgen/extractor/parser/impl/JSONSchemaParser.java:456-462 | a text such as "3.5" that is not an integer is read as a double and truncated |
| Json.AsIntPaddedText | src/main/java/net/coru/kloadgen/extractor/parser/impl/JSONSchemaParser.java:456-462 | a text is trimmed before it is read, so " 12 " reads as 12 |
| Json.AsIntOfInt | src/main/java/net/coru/kloadgen/extractor/parser/impl/JSONSchemaParser.java:456-462 | every int written in decimal, as a number or as a text, reads back as itself |

## Behaviour of the code worth noting

The model follows the code in each case below, and a lemma states each behaviour.

- **`allOf` in a definition.** `chooseAnyOfDefinition` passes the whole branch array to `buildDefinition` (JSONSchemaParser.java:289) rather than one branch. That array has no `type`, `$ref`, combinator or entries, so the result is an object with no properties. Lemma: `DefinitionWalk.AllOfDefinitionIsEmpty`.
- **Unsupported `$ref` in `definitions`.** `processDefinitions` has no branch for such an entry (JSONSchemaParser.java:161-178), so it is skipped rather than rejected. Lemma: `DefinitionWalk.RefEntryFailures`.
- **A reference entry whose target is missing.** The code resolves the missing node. It has no type, reference or entries, so it becomes an empty object field instead of a "Missing definition" error. Lemma: `DefinitionWalk.MissingTargetIsEmptyObject`.
- **A reference entry whose target is cached.** The entry's own `$ref` node is rebuilt and `put` under its key, overwriting whatever was there (JSONSchemaParser.java:165-166). Lemma: `DefinitionWalk.RefEntryCached`.
- **Cycle guard scope.** The guard is a static set that `parse` never clears. A `$ref` resolved inside an object definition adds its name to the guard without removing it (JSONSchemaParser.java:326-327). A later `$ref` to that name nested inside a definition, in the same or a later parse, therefore yields `null` unless the name is cached (JSONSchemaParser.java:216-223, 322-329). A `$ref` entry of the pre-pass whose target is guarded and not cached fails with "Missing definition" instead (JSONSchemaParser.java:167-176; `DefinitionWalk.RefEntryFailures`), and a `$ref` in the properties walk reads only the cache, never the guard (JSONSchemaParser.java:369-373). Lemmas: `DefinitionWalk.ObjectRefLeavesGuard`, `Resolver.ParseKeepsGuard`.
- **`getSafeType` uses `findPath`.** The lookup searches descendants depth-first, entry by entry. A `type` nested in an earlier property therefore wins over the node's own later `type` entry (JSONSchemaParser.java:248-252). Lemmas: `ParserSupport.GetSafeTypeNested`, `ParserSupport.GetSafeTypeOwn`.
- **A type list in a definition is not lower-cased.** `getSafeType` lower-cases a text `type` but not the entry it picks from a list, and `buildDefinition` switches on it as it is, while `buildField` lower-cases it again. Lemmas: `DefinitionWalk.DefinitionTypedDispatch`, `PropertyWalk.FieldDispatch`.

Two parts of the model are written twice, on purpose:

- `Resolver.JsonSchemaParser.ProcessDefinition` is the in-place rendering of one pre-pass step. It updates the object's fields and is proved to leave them exactly as the functional `DefinitionWalk.ProcessEntry` says.
- `Resolver.JsonSchemaParser.BuildCombinedField` and `Resolver.BuildPropertyList` are loop renderings of `buildCombinedField` and of its inner property loop. They stand alone: `Parse` reaches the combinator through the functional walk, and each loop is proved equal to the function it renders.

## Left out

- Jackson text parsing (`ObjectMapper.readTree`): `ParseText` takes the document already parsed, or `None` for text Jackson rejects, which is the IOException case.
- Duplicate keys in a JSON object are not modelled: Jackson keeps the last one, while `Json.Lookup` returns the first.
- `Float.parseFloat`: a decimal bound keeps its literal text (`Dec`); floating-point rounding is not modelled. A JSON number with a fraction or an exponent is a double, which Jackson renders with a dot (`1e5` as `100000.0`), so it takes this path. A text without a dot, such as the string `"1e5"`, goes to `Long.parseLong` and fails, as in the code.
- SafeGetNumber: a text with a dot that is not a float, such as `"a.b"`, is accepted as `Dec("a.b")`; the code's `Float.parseFloat` throws a NumberFormatException for it.
- AsInt: a double is read exactly from its text rather than rounded to the nearest double first, so literals with more than 17 significant digits may read differently. Texts that `Double.parseDouble` accepts beyond sign, digits, dot and exponent (`Infinity`, hexadecimal forms, an `f` or `d` suffix) read as 0, where Java reads the saturated or truncated double.
- Randomness (`RandomUtils.nextInt`): replaced by the `Selector` parameter, which returns an index in `[0, n)`. The selector is a function of the combinator node and the branch count, so two equal combinator nodes always pick the same branch; `nextInt` draws independently on every call.
- DefinitionWalk.ChooseAnyOfDefinition: requires that the combinator key is present, as the only call site guarantees.
- PropertyWalk.BuildArrayField: requires an object or array node; only nodes whose `type` lookup succeeded reach it, and `TypedIsContainer` proves those are such nodes.
- DefinitionWalk.BuildDefinitionArrayField: requires an object or array node, for the same reason.
- Case folding, whitespace and decimal digits in `JavaText` cover ASCII only. `Long.parseLong` and `Integer.parseInt` also accept other Unicode decimal digits (through `Character.digit`), so a bound or `minItems` such as "٣" reads as 3 in Java but is a NumberFormatException in the model.
- The static `cyclingSet` is a field of the instance. Its sharing between instances and threads is not modelled.
- The `descriptions` of a schema are the cache as a map: the iteration order of `HashMap.values()` is not modelled.
- `ObjectField`, `ArrayField`, `MapField` and the other field classes not shown are datatype variants holding the values the resolver sets. Builder defaults are taken as empty lists and `null` requiredness.
- `getProperties` and `cloneField` of `ObjectField`, `ArrayField`, `MapField` and the other classes not shown are assumed to behave like those of `EnumField` and `UUIDField`: `cloneField` copies the field under the new name, and `getProperties` of a container lists its children.
- BuildProperty: its own contract gives only the name of the result; the dispatch on `$ref`, `type`, combinator and `properties` is stated by `PropertyDispatch`.
- BuildField: its own contract gives only the name; the type dispatch is stated by `FieldDispatch`.
- BuildArrayField: its own contract gives the shape; the element is stated by `ArrayItems`.
- BuildObjectField: its own contract gives only the name; the combinator, map and object cases are stated by `ObjectFieldCases`.
- ChooseAnyOf: its own contract gives only the name; the outcomes are stated by `ChooseAnyOfOutcome`.
- BuildDefinition: its own contract states only that the cache and the guard grow; the typed dispatch is stated by `DefinitionTypedDispatch`, the combinator and object fallback by `DefinitionUntypedDispatch`, and the `$ref` case by `NestedRefGuard`.
- ChooseAnyOfDefinition: its own contract states only that the state grows; the branch choice is stated by `ChooseAnyOfDefinitionCases`.
- BuildDefinitionArrayField: its own contract gives the shape; the element is stated by `DefinitionArrayItems`.
- BuildDefinitionObjectField: its own contract states only that the state grows; the outcomes are stated by `DefinitionObjectCases`, `DefinitionMapCases` and `DefinitionObjectFallback`.
- DefinitionProperties: its own contract gives the count and the state; the fields are stated by `DefinitionPropertiesAllOk`, `DefinitionPropertiesPointwise` and `DefinitionPropertiesFinalState`.
- ProcessEntry: its own contract states only that the guard keeps its names; the outcomes are stated by `FirstWriterWins`, `RefEntryFailures`, `RefEntryResolved`, `RefEntryCached` and `MissingTargetIsEmptyObject`.
- Logging is not modelled.
- `FieldValueMapping` is modelled with the columns the merge compares plus representative user columns. A `null` field name or type, which would be a NullPointerException in `checkExists`, is not modelled.
- `TableValue`: an `ArrayList` holding elements that are not `FieldValueMapping` (a ClassCastException when compared) is not modelled.
- The rest of `SerialisedSubjectPropertyEditor` (Swing widgets, JMeter GUI reflection, the schema-registry fetch) is not part of this model.
