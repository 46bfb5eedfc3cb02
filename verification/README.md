# warmongo schema engine in Dafny

warmongo is a small Python object-document mapper for MongoDB. A model class is
made from a JSON-Schema-like dictionary. Each instance wraps a dictionary of
fields. Constructing an instance fills in declared defaults (fresh instances
only), casts the fields toward the schema, and validates the whole document.
Assigning an attribute validates the new value against its property schema.

This project models that core as pure functions over immutable data:

- `Values`: the dynamically typed values a document holds. This includes
  Python's `isinstance` (where `bool` is a subclass of `int`), `int()` on
  floats (truncation toward zero) and truthiness.
- `Schemas`: schema nodes. A key that is absent is `None`. The `properties`
  mapping is `Absent` or `Declared` as a sequence kept in iteration order. The
  module also holds the `ValidTypes` table.
- `Errors`: the exceptions the engine raises, as structured values
  (ValidationError, InvalidSchemaException, AttributeError, and KeyError on a
  schema with no `properties`).
- `Validator`: `validate_field`, `validate_array`, `validate_object` and
  `validate_simple`. These are fail-fast walks that return the first violation.
- `Caster`: `cast`, with the behaviour its documentation and its tests promise
  (see Findings).
- `LiteralCast`: `cast` exactly as written, over the raw schema dictionary.
- `CastValidation`: casting never changes the validator's verdict.
- `Documents`: `Model(fields, from_find)`, `get`, `__getattr__` and
  `__setattr__`.
- `Factory`: the `_id` injection of `model_factory`.
- `Naming`: `collection_name` (snake case, then a pluralizer given as a
  parameter) and `database_name`.
- `Scenarios`: scenarios from the repository's unit tests (tests/test_casting.py,
  tests/test_validation.py and tests/test_creating.py), plus a few cases read
  directly off model.py, stated as lemmas.

The constructor and `__setattr__` raise exceptions in the source. Here they
return `Result`, and the validator returns `Check = Pass | Fail(error)`.

A few behaviours of the code are easy to misread:

- `model_factory` checks neither a `name` nor non-empty `properties`, and does
  not copy the schema. It only adds `_id` to the caller's own `properties`
  mapping, and raises KeyError when there is none (warmongo/__init__.py:21-24,
  `Factory.InjectId`).
- `__setattr__` stores an undeclared name unchecked, unless the root sets
  `additionalProperties` to false. In that case it raises a ValidationError
  (warmongo/model.py:349-356, `Documents.SetAttr`).
- `cast` never coerces `date` or `object_id` values, and neither does
  `Caster.Cast`.

## Model

| member | source | states |
|---|---|---|
| Schemas.ValidType | warmongo/model.py:30-37 | The type table knows exactly the six primitive names integer, boolean, number, string, object_id and date. |
| Schemas.FindProp | warmongo/model.py:275-277 | A key is found in a `properties` mapping exactly when it is one of its names. The index returned holds that name, and no earlier entry does. |
| Schemas.NamesCons | warmongo/model.py:286 | The key set of a mapping is its first key plus the keys of the rest. |
| Values.TruncateTowardZero | warmongo/model.py:331 | `int()` of a float lies within one of the float, on the side of zero. |
| Validator.ValidateField | warmongo/model.py:242-252 | An absent type means `object`. An `array` node refuses a non-list, and an `object` node refuses a non-mapping, each with a type mismatch naming the key. `any` accepts everything. A type name that is neither a container nor in the type table fails with InvalidSchemaException. |
| Validator.ValidateArray | warmongo/model.py:254-264 | A non-list fails with an `array` type mismatch. A list with no truthy `items` passes. Otherwise it passes exactly when every element validates against `items`. |
| Validator.ValidateItems | warmongo/model.py:259-261 | Passes exactly when every element validates. On failure, the error is that of the first failing element, and every element before it passes. |
| Validator.ValidateObject | warmongo/model.py:266-290 | A non-mapping fails with an `object` type mismatch. Empty or absent `properties` passes anything. Otherwise the mapping passes exactly when every declared property is satisfied and, if `additionalProperties` is false, its keys are among the declared names. With every property satisfied, a failure names exactly the extra keys. |
| Validator.ValidateProps | warmongo/model.py:275-282 | Walking the declared properties from index i passes exactly when each one is present and valid, or absent and not demanded (not `required`, or the data came from a find). |
| Validator.PropOk | warmongo/model.py:278-282 | An unsatisfied property has an error. A present field is satisfied exactly when its own validation passes. An absent field that is not satisfied reports a missing required field. A document loaded by a find is never short of a field. |
| Validator.ValidatePropsFirstFailure | warmongo/model.py:275-282 | A failing property walk has a first unsatisfied property: every property before it is satisfied, and the walk's error is that property's own error (its field's validation error, or a missing required field). |
| Validator.ValidateSimple | warmongo/model.py:292-311 | `any` accepts everything. `number` and `integer` accept ints, floats and booleans. `string`, `boolean`, `date` and `object_id` accept exactly their class. Null, lists and mappings pass only under `any`. An unknown type name fails with InvalidSchemaException. A known type fails only with a type mismatch naming the key, the type and the value. |
| Validator.RelaxedField | warmongo/model.py:278-282 | The relaxed walk (`_from_find` set) and the strict one agree, except where the strict walk stopped at a missing required property. The relaxed walk never reports one. |
| Validator.RelaxedAcceptsMore | warmongo/model.py:278-282 | Whatever validates strictly validates when loaded from the store. A relaxed failure is also a strict failure, and is never a missing-required error. |
| Validator.RequiredMissingFailsStrict | warmongo/model.py:278-282 | A required property missing from a fresh document's mapping always makes validation fail. |
| Caster.CastEntry | warmongo/model.py:321-324 | A key that is not declared at an object node with properties passes through unchanged. So does any key at a node without properties. |
| Caster.DeclaredEntryCast | warmongo/model.py:321-324 | A declared key is cast against its own property schema. |
| Caster.Cast | warmongo/model.py:313-333 | Casting keeps the kind of a value. A mapping keeps its keys, and each entry is cast per key. A list keeps its length, and its elements are cast against `items` at an array node. At an `integer` node a float becomes its truncation. Every other value is returned as is. |
| Caster.CastIdempotent | warmongo/model.py:313-333 | Casting an already cast value changes nothing. |
| CastValidation.CastKeepsVerdict | warmongo/model.py:53-54 | For a schema whose property mappings have distinct keys, validating the cast value gives exactly the verdict, and error, of validating the uncast value. |
| CastValidation.CastItemsKeepVerdict | warmongo/model.py:259-261 | The same holds element by element for an array's items. |
| CastValidation.CastPropsKeepVerdict | warmongo/model.py:275-282 | The same holds for the property walk over a mapping whose entries were cast per key. |
| Documents.InsertDefaults | warmongo/model.py:47-51 | The filled-in fields are the given fields plus every name with a `default`. Given values are never overwritten. Every added key carries the default of a property of that name. |
| Documents.InsertDefaultsStep | warmongo/model.py:49-51 | One iteration of the default-filling loop keeps the three properties above. |
| Documents.Prefilled | warmongo/model.py:47-51 | A document from a find keeps its fields as given. A fresh one gains exactly the defaulted names. Either way, every given value is kept. |
| Documents.Construct | warmongo/model.py:41-54 | A fresh model whose schema has no `properties` fails with KeyError. A constructed instance holds the cast of the (defaulted) fields, and that cast validates. Its keys are the raw keys plus the defaulted names (fresh only). Each raw value is cast per key, and each added value is the cast default of a property of that name. Construction succeeds exactly when the cast fields validate. |
| Documents.CastOfPrefilled | warmongo/model.py:47-53 | The cast fields hold the raw keys plus, for a fresh instance, the defaulted names. Each raw value is cast per key. Each added value is the cast default of a property of that name. |
| Documents.ConstructVerdictIgnoresCast | warmongo/model.py:53-54 | Construction succeeds exactly when the uncast, defaulted fields validate. It fails with their validation error. |
| Documents.ReloadRoundTrip | warmongo/model.py:157 | Rebuilding an instance from its stored fields with `from_find` set, as the finders do, succeeds and returns the same fields. |
| Documents.Get | warmongo/model.py:83-85 | `get` returns the stored value, or the default when the field is unset. |
| Documents.GetAttr | warmongo/model.py:335-341 | `_fields` reads the stored mapping, and `_from_find` the flag unless it was reassigned. Any other private instance attribute is returned as set. Otherwise reading succeeds exactly when the name is declared and present, and returns the stored value. Any other read raises AttributeError (KeyError without `properties`). |
| Documents.SetAttr | warmongo/model.py:343-357 | Private names bypass the schema. Assigning `_fields` replaces the stored mapping. Assigning `_from_find` switches the validation mode by the value's truthiness. Any other private name is stored as an instance attribute. A declared name succeeds exactly when the value validates against its own property schema (relaxed for found instances), and fails with that error. An undeclared name is refused exactly when the root forbids additional properties. A success stores the value as given and changes no other field. |
| Documents.SetThenGet | warmongo/model.py:338-339 | After a successful assignment of a declared field, reading it back by attribute or by `get` yields the assigned value. |
| Documents.PrivateSetThenGet | warmongo/model.py:346-347 | A private attribute reads back as assigned, including `_fields` and `_from_find`. |
| Documents.SetAttrPreservesValidity | warmongo/model.py:343-357 | A successful assignment keeps a valid document valid in the instance's (possibly new) mode. This holds for every name except `_fields`, and for `_from_find` only when set to a truthy value, since only the relaxed mode is weaker. |
| Documents.FieldSetPreservesValidity | warmongo/model.py:349-356 | Assigning a public name that passed its own check keeps the whole document valid. |
| Factory.InjectId | warmongo/__init__.py:21-24 | Injection fails with KeyError exactly when the schema has no `properties`. Otherwise `_id` is declared afterwards, and nothing but `properties` changes. A schema that already declares `_id` is untouched. Otherwise `{"type": "object_id"}` is appended under `_id`. |
| Factory.InjectIdProperties | warmongo/__init__.py:23-24 | After injection, `_id` is found, and every other name is found exactly where it was before. |
| Factory.FindPropAppend | warmongo/__init__.py:24 | Adding an entry to a mapping changes the lookup only for a name it did not declare. |
| Factory.InjectIdIdempotent | warmongo/__init__.py:23 | Injecting twice is the same as injecting once. |
| Factory.InjectIdWellFormed | warmongo/__init__.py:23-24 | Injection keeps every property mapping free of duplicate keys. |
| Naming.ToLower | warmongo/model.py:221 | Lower-casing maps an upper-case letter to its lower-case letter and leaves every other character alone. |
| Naming.Lower | warmongo/model.py:221 | `lower()` keeps the length and lower-cases each character. |
| Naming.UnderscoreCapitalsLength | warmongo/model.py:221 | Inserting `_` before capitals lengthens a string by its number of capitals. |
| Naming.UnderscoreCapitalsNoCapitals | warmongo/model.py:221 | A string without capitals gets no underscores. |
| Naming.UnderscoreCapitals | warmongo/model.py:221 | Every character of the input is kept in order: `s[i]` lands after one inserted `_` per capital in `s[..i+1]`, and a capital has a `_` right before it. Every capital in the result comes right after a `_`. |
| Naming.SnakeCase | warmongo/model.py:221 | The snake-cased name starts with the lower-cased first character and has no capitals. |
| Naming.SnakeCaseKeepsCharacters | warmongo/model.py:221 | Every character of the name appears lower-cased and in order: `name[i]` sits after one `_` per capital in `name[1..i+1]`, and each capital after the first position has a `_` right before it. With `SnakeCaseLength`, this fixes every character of the result. |
| Naming.SnakeCaseLength | warmongo/model.py:221 | The snake-cased name is the original length plus one per capital after the first character. |
| Naming.SnakeCaseOfLowerCase | warmongo/model.py:221 | A name without capitals is its own snake case. |
| Naming.SnakeCaseIdempotent | warmongo/model.py:221 | Snake-casing twice is the same as once. |
| Naming.CollectionName | warmongo/model.py:208-224 | A truthy `collectionName` is used verbatim. Otherwise the pluralized snake case of the truthy schema `name` is used, else that of the class name. |
| Naming.DatabaseName | warmongo/model.py:226-232 | The result is the `databaseName` when that is truthy, and None otherwise. |
| LiteralCast.CastAsWritten | warmongo/model.py:313-333 | A schema that is not a dictionary casts nothing. A `type` other than object, array or integer returns the value as is. At an `integer` node a float becomes its truncation. A scalar that is neither a string nor a float comes back unchanged whenever the cast returns (it can raise, for instance on an int at an array node with truthy `items`). |
| LiteralCast.HasItemsIsTruthiness | warmongo/model.py:325 | A node has `items` for the caster and the validator exactly when its `items` dictionary is truthy, counting keys the engine never reads. |
| LiteralCast.SchemaDictOfObjectNode | warmongo/model.py:321 | An object node with properties, read as a raw dictionary, takes the object branch. |
| LiteralCast.PlainDictCastsNothing | warmongo/model.py:319-333 | The literal caster returns any value unchanged against a dictionary with neither `type` nor `properties`. |
| LiteralCast.AsWrittenSkipsChildren | warmongo/model.py:319-324 | As written, a mapping at an object node with properties comes back unchanged, whenever the node declares a property called `type` or none called `properties`. Declared integer fields below it are never truncated. |
| LiteralCast.OtherTypeCastsNothing | warmongo/model.py:319-333 | A dictionary whose `type` entry is itself a dictionary (a property called `type`, read as a schema) matches no branch and returns any value unchanged. |
| LiteralCast.InertCastsEachNothing | warmongo/model.py:322-324 | Against a dictionary that casts nothing, the comprehension over a mapping returns that mapping. |
| LiteralCast.ObjectBranchRaisesOnNonMapping | warmongo/model.py:321-323 | A dictionary that reads as an object node with truthy `properties` raises on any value that is not a mapping. |
| LiteralCast.AsWrittenRaisesBelow | warmongo/model.py:321-324 | As written, if one value of the mapping raises when cast against the property mapping, the whole cast raises. |
| LiteralCast.IntendedCastTruncatesChildren | warmongo/model.py:321-331 | The intended caster truncates a float stored under a property declared `integer`. |
| Scenarios.ModelWithIsInjected | warmongo/__init__.py:21-24 | The test schemas get their `_id` entry from the factory. |
| Scenarios.TruncatesFivePointTwo | tests/test_casting.py:58-78 | `int(5.2)` is 5, the value the casting tests expect. |
| Scenarios.TruncatesSevenPointEight | tests/test_validation.py:196-216 | `int(7.8)` is 7, the value the integer validation test expects. |
| Scenarios.CastWithObject | tests/test_casting.py:7-31 | A float in an integer property nested under an object property becomes its truncation. |
| Scenarios.CastWithArray | tests/test_casting.py:33-56 | Each float in an integer array is truncated. Ints are kept. |
| Scenarios.IntendedBasicCast | tests/test_casting.py:58-78 | The intended caster turns `{"field": 5.2, "other_field": "5"}` into `{"field": 5, "other_field": "5"}`. |
| Scenarios.AsWrittenBasicCast | tests/test_casting.py:58-78 | The caster as written leaves that mapping unchanged, for every dictionary iteration order. |
| Scenarios.StringAtArrayNodeFails | tests/test_validation.py:10-33 | A string where an array of strings is declared is refused with an `array` type mismatch. |
| Scenarios.IntegerFieldStoresTruncated | tests/test_validation.py:196-216 | 7.8 under an integer field constructs, and is stored as 7. |
| Scenarios.ExtraKeyRefused | warmongo/model.py:284-290 | With `additionalProperties` false, an undeclared key is refused, and the error names exactly that key. |
| Scenarios.DeclaredKeysAccepted | tests/test_creating.py:9-22 | Under the Country schema (without its union-typed field), a mapping holding only declared keys is accepted. |
| Scenarios.DescribedItemsAreChecked | warmongo/model.py:254-261 | An `items` dictionary holding only a `description` is truthy, so it is applied: the string `"a"` in the list fails as a non-mapping. |
| Scenarios.RequiredOnlyWhenFresh | warmongo/model.py:278 | A missing required field fails a fresh document and passes one loaded by a find. |
| Scenarios.AsWrittenTypeField | warmongo/model.py:319-324 | As written, a document with a field called `type` comes back unchanged. |
| Scenarios.AsWrittenPropertiesFieldRaises | warmongo/model.py:321-323 | As written, `{"properties": 5.2}` under a property called `properties` declared `integer` raises: the property mapping reads as an object node and `.items()` is called on 5.2. |

## Left out

- Storage operations are not modelled: `reload`, `save`, `delete`, `bulk_create`, `find_or_create`, `find`, `find_by_id`, `find_latest`, `find_one`, `count` and `collection` (model.py:56-206). They are I/O against MongoDB. warmongo/database.py is not part of this model. Their one pure part, rebuilding an instance with `from_find=True`, is `Documents.ReloadRoundTrip`.
- `find_one` builds instances without `from_find`, so defaults are re-inserted and `required` is enforced. That is just `Construct` with `fromFind` false, and needs no separate member.
- `to_dict` and `validate` are one-line delegations: the stored fields, and `ValidateField("", root, …)`.
- warlock's `model_factory` wrapper (attribute-style access to the schema) is a library outside the model. Only the `_id` injection before it is modelled.
- Union types (`"type": ["string", "null"]`) are not modelled. The source compares them to strings, and unhashable lists reach `in ValidTypes`.
- The schema keys the engine reads (type, properties, items, additionalProperties, required, default, name, collectionName, databaseName) are typed fields. Every other key is kept as a raw value in `others`. The engine reads such keys only through the truthiness of the dictionary holding them.
- Error messages are structured values, not strings. `str(value)` and `type(value)` in the messages are not modelled. Neither is the unspecified order of the extra keys joined into the message at model.py:290.
- Floats are exact reals. IEEE rounding, NaN and infinities are not modelled. Python 2's `long` is folded into `Int`; what that changes is stated under `Validator.ValidateSimple` and `CastValidation.CastKeepsVerdict` below. `basestring` is `Str` (no separate unicode class).
- `Naming.Lower`: lower-cases ASCII letters only. Python's `lower()` also folds non-ASCII letters, and `[A-Z]` in the regex is ASCII only, as modelled.
- `Naming.CollectionName`: the English pluralizer (inflect) is a parameter `plural`. Its rules are not modelled. An empty class name is excluded, since Python class names are never empty.
- `deepcopy` of the input fields (model.py:45) and the aliasing `__setattr__` relies on (`self._fields[attr] = value` stores the caller's object) disappear with immutable values.
- Python's attribute lookup order is only partly modelled. Class attributes and methods (`save`, `collection`, …) shadow fields of the same name before `__getattr__` runs. Only the instance attributes set through the `_` bypass are modelled, with `_fields` and `_from_find` being the document's own state.
- `Documents.GetAttr`: the docstring of `__getattr__` (model.py:336-337) says a missing field reads as None. The code raises AttributeError (model.py:341), and the model follows the code.
- `Documents.SetAttr`: assigning a non-mapping to `_fields` is refused at once with an AttributeError (`NotAMapping`). The source stores it, and the AttributeError comes only at the next `get`, read or validation that treats it as a mapping.
- `Validator.ValidateSimple`: every `Int` is accepted at `integer` and `number` nodes. In Python 2, an integer beyond `sys.maxint` is a `long`, which is neither `int` nor `float`, so model.py:301 refuses it. The model has no integer bound and does not model that refusal.
- `CastValidation.CastKeepsVerdict`: holds only because integers are unbounded. In the source, a float of magnitude 2^63 or more under an `integer` property passes validation uncast (it is a `float`), but `int()` at model.py:331 turns it into a `long`, which then fails. So `{"field": 1e19}` passes uncast and fails cast.
- `CastValidation.CastItemsKeepVerdict`: the same bound, element by element. A float of magnitude 2^63 or more in an array of `integer` passes uncast and fails once cast to a `long`.
- `CastValidation.CastPropsKeepVerdict`: the same bound, for the walk over declared properties.
- `Documents.ConstructVerdictIgnoresCast`: holds only because integers are unbounded. In the source, `{"field": 1e19}` under an `integer` property validates uncast, but construction validates the cast fields (model.py:53-54), where it is a `long`, and fails. `Documents.Construct` itself, which states that the stored cast fields validate, is not affected.
- `validate_simple`'s default `"any"` (model.py:294) is unreachable, because `validate_field` already defaulted the type to `object`. The model keeps only the reachable behaviour.
- `Caster.Cast`: at an `object` node with properties, a non-mapping is returned unchanged (the source raises AttributeError on `.items()`). At an `array` node with items, a non-list is returned unchanged (the source iterates strings and dictionaries). At the object node, such a value fails validation right after, so construction fails either way, with a ValidationError here instead of an AttributeError. At the array node, the outcomes can differ. The source turns a string into the list of its characters and a mapping into the list of its keys, and that list may then validate (a string under an array of strings, say). The model refuses both with an `array` type mismatch. Any other non-list makes the source raise TypeError, and the model fails validation instead. The model keeps this guard on purpose. With the model.py:323 correction and no guard, `{"field": "hi"}` under an array of strings would be split into `["h", "i"]` and accepted, while tests/test_validation.py:31-33 expects a ValidationError (`Scenarios.StringAtArrayNodeFails`).

## Findings

| source | as written | input that shows it | evidently intended | confidence | as-written member | corrected member |
|---|---|---|---|---|---|---|
| warmongo/model.py:323 | each value of a mapping is cast against `schema["properties"]`, the whole property mapping, rather than against its own property schema | the schema of testBasicCast, `{"properties": {"field": {"type": "integer"}, "other_field": {"type": "string"}}}`, with fields `{"field": 5.2, "other_field": "5"}`: the property mapping has no `type` or `properties` key, so every value passes through and `field` stays 5.2 | cast each value against `schema["properties"][key]` when the key is declared, so `field` becomes 5 as the test asserts | not executed | LiteralCast.AsWrittenSkipsChildren | Caster.Cast |

`Scenarios.AsWrittenBasicCast` and `Scenarios.IntendedBasicCast` state the two
outcomes on that input. The same line makes a field called `properties` raise
(`Scenarios.AsWrittenPropertiesFieldRaises`). `LiteralCast.IntendedCastTruncatesChildren` states the
corrected behaviour in general. The rest of the model (`Documents.Construct`)
uses the corrected caster.
