/**
 The scenarios of the repository's unit tests (tests/test_casting.py,
 tests/test_validation.py and tests/test_creating.py), plus a few cases read
 directly off model.py, stated over the model. Each root schema goes through
 the factory's `_id` injection first, as `model_factory` does.
 */
module Scenarios {
  import opened Wrappers
  import opened Values
  import opened Schemas
  import opened Errors
  import opened Validator
  import opened Caster
  import opened Documents
  import opened Factory
  import opened LiteralCast

  function Typed(t: string): Schema {
    EmptySchema.(typeName := Some(t))
  }

  /** `{"name": "Model", "properties": {"field": <field>}}` after `_id` injection. */
  function ModelWith(field: Schema): Schema {
    Schema(None, Declared([Prop("field", field), Prop("_id", ObjectIdSchema)]),
           None, None, None, None, Some("Model"), None, None, map[])
  }

  lemma ModelWithIsInjected(field: Schema)
    ensures InjectId(ModelWith(field).(properties := Declared([Prop("field", field)]))) == Success(ModelWith(field))
  {
    var ps := [Prop("field", field)];
    NamesCons(Prop("field", field), []);
    assert [Prop("field", field)] + [] == ps;
    assert Names(ps) == {"field"};
    assert ps + [Prop("_id", ObjectIdSchema)] == [Prop("field", field), Prop("_id", ObjectIdSchema)];
  }

  /** testBasicCast, testCastWithObject and testCastWithArray expect Python's `int(5.2)`, which is 5. */
  lemma TruncatesFivePointTwo()
    ensures TruncateTowardZero(5.2) == 5
  {
  }

  /** testValidateInteger expects `int(7.8)`, which is 7. */
  lemma TruncatesSevenPointEight()
    ensures TruncateTowardZero(7.8) == 7
  {
  }

  /** testCastWithObject: a nested integer property is truncated. */
  lemma CastWithObject()
    ensures var root := ModelWith(EmptySchema.(typeName := Some("object"),
                                               properties := Declared([Prop("subfield", Typed("integer"))])));
      Cast(root, Dict(map["field" := Dict(map["subfield" := Float(5.2)])]))
        == Dict(map["field" := Dict(map["subfield" := Int(5)])])
  {
    var inner := EmptySchema.(typeName := Some("object"), properties := Declared([Prop("subfield", Typed("integer"))]));
    var root := ModelWith(inner);
    TruncatesFivePointTwo();
    var c := Cast(root, Dict(map["field" := Dict(map["subfield" := Float(5.2)])]));
    assert FindProp(root.properties.entries, "field") == Some(0);
    assert FindProp(inner.properties.entries, "subfield") == Some(0);
    assert c.entries["field"] == Dict(map["subfield" := Int(5)]);
  }

  /** testCastWithArray: each element of an `integer` array is truncated. */
  lemma CastWithArray()
    ensures var root := ModelWith(EmptySchema.(typeName := Some("array"), items := Some(Typed("integer"))));
      Cast(root, Dict(map["field" := List([Float(5.2), Int(7)])])) == Dict(map["field" := List([Int(5), Int(7)])])
  {
    var root := ModelWith(EmptySchema.(typeName := Some("array"), items := Some(Typed("integer"))));
    TruncatesFivePointTwo();
    assert FindProp(root.properties.entries, "field") == Some(0);
    var c := Cast(root, Dict(map["field" := List([Float(5.2), Int(7)])]));
    assert c.entries["field"].items == [Int(5), Int(7)];
  }

  /** The schema of testBasicCast, after `_id` injection. */
  function BasicRoot(): Schema {
    Schema(None, Declared([Prop("field", Typed("integer")), Prop("other_field", Typed("string")),
                           Prop("_id", ObjectIdSchema)]),
           None, None, None, None, Some("Model"), None, None, map[])
  }

  function BasicFields(): map<string, Value> {
    map["field" := Float(5.2), "other_field" := Str("5")]
  }

  /** The two entries of testBasicCast, each against its own property schema. */
  lemma BasicEntries()
    ensures CastEntry(BasicRoot(), "field", Float(5.2)) == Int(5)
    ensures CastEntry(BasicRoot(), "other_field", Str("5")) == Str("5")
  {
    var ps := BasicRoot().properties.entries;
    assert FindProp(ps, "field") == Some(0) by {
      assert ps[0].name == "field";
    }
    assert FindProp(ps, "other_field") == Some(1) by {
      assert ps[1].name == "other_field";
      assert ps[0].name != "other_field";
    }
    TruncatesFivePointTwo();
  }

  /** testBasicCast: the intended caster truncates "field" and leaves the string "5" alone. */
  lemma IntendedBasicCast()
    ensures Cast(BasicRoot(), Dict(BasicFields())) == Dict(map["field" := Int(5), "other_field" := Str("5")])
  {
    BasicEntries();
    var c := Cast(BasicRoot(), Dict(BasicFields()));
    assert c.entries == map["field" := Int(5), "other_field" := Str("5")];
  }

  /** testBasicCast against the caster as written: "field" stays 5.2, so the test's first assertion would fail. */
  lemma AsWrittenBasicCast(keyOrder: map<string, Value> -> seq<string>)
    ensures CastAsWritten(SchemaDict(BasicRoot()), Dict(BasicFields()), keyOrder) == Some(Dict(BasicFields()))
  {
    var ps := BasicRoot().properties.entries;
    NamesCons(ps[2], []);
    assert [ps[2]] + [] == ps[2..];
    NamesCons(ps[1], ps[2..]);
    assert [ps[1]] + ps[2..] == ps[1..];
    NamesCons(ps[0], ps[1..]);
    assert [ps[0]] + ps[1..] == ps;
    assert Names(ps) == {"field", "other_field", "_id"};
    AsWrittenSkipsChildren(BasicRoot(), BasicFields(), keyOrder);
  }

  /** `{"properties": {<name>: <field>, "_id": {"type": "object_id"}}}` */
  function OneField(name: string, field: Schema): Schema {
    EmptySchema.(properties := Declared([Prop(name, field), Prop("_id", ObjectIdSchema)]))
  }

  lemma OneFieldNames(name: string, field: Schema)
    ensures Names(OneField(name, field).properties.entries) == {name, "_id"}
  {
    var ps := OneField(name, field).properties.entries;
    NamesCons(ps[1], []);
    assert [ps[1]] + [] == ps[1..];
    NamesCons(ps[0], ps[1..]);
    assert [ps[0]] + ps[1..] == ps;
  }

  /** As written, a document with a field called `type` is returned as is: the property mapping's `type` entry is a schema, not a type name. */
  lemma AsWrittenTypeField(keyOrder: map<string, Value> -> seq<string>)
    ensures var m := map["type" := Str("x")];
      CastAsWritten(SchemaDict(OneField("type", Typed("string"))), Dict(m), keyOrder) == Some(Dict(m))
  {
    OneFieldNames("type", Typed("string"));
    AsWrittenSkipsChildren(OneField("type", Typed("string")), map["type" := Str("x")], keyOrder);
  }

  /** The property mapping of a model with a field called `properties`, read as a schema: an object node with truthy `properties`. */
  lemma PropertiesFieldDict()
    ensures var pd := PropertyDict(OneField("properties", Typed("integer")));
      && "type" !in pd.entries && "properties" in pd.entries && Truthy(pd.entries["properties"])
  {
    var root := OneField("properties", Typed("integer"));
    OneFieldNames("properties", Typed("integer"));
    var pd := PropertyDict(root);
    var ps := root.properties.entries;
    assert FindProp(ps, "properties") == Some(0) by { assert ps[0].name == "properties"; }
    var inner := SchemaDict(Typed("integer"));
    assert pd.entries["properties"] == inner;
    assert "type" in inner.entries;
    assert |inner.entries| > 0;
  }

  /**
   As written, a field called `properties` makes the property mapping read as an
   object node with properties, so its non-mapping value has `.items()` called on it and the cast raises.
   */
  lemma AsWrittenPropertiesFieldRaises(keyOrder: map<string, Value> -> seq<string>)
    ensures CastAsWritten(SchemaDict(OneField("properties", Typed("integer"))), Dict(map["properties" := Float(5.2)]), keyOrder)
      == None
  {
    var root := OneField("properties", Typed("integer"));
    PropertiesFieldDict();
    ObjectBranchRaisesOnNonMapping(PropertyDict(root), Float(5.2), keyOrder);
    OneFieldNames("properties", Typed("integer"));
    assert HasProperties(root) by { assert root.properties.entries[0].name == "properties"; }
    AsWrittenRaisesBelow(root, map["properties" := Float(5.2)], "properties", keyOrder);
  }

  /** testValidateArray: a string where an array of strings is declared is refused. */
  lemma StringAtArrayNodeFails()
    ensures var root := ModelWith(EmptySchema.(typeName := Some("array"), items := Some(Typed("string"))));
      Construct(root, map["field" := Str("hi")], false) == Failure(TypeMismatch("field", "array", Str("hi")))
  {
    var arr := EmptySchema.(typeName := Some("array"), items := Some(Typed("string")));
    var root := ModelWith(arr);
    var m := map["field" := Str("hi")];
    assert FindProp(root.properties.entries, "field") == Some(0);
    assert Prefilled(root, m, false) == m;
    assert Cast(root, Dict(m)).entries["field"] == Str("hi");
    assert Cast(root, Dict(m)) == Dict(m);
    assert ValidateField("field", arr, Str("hi"), false) == Fail(TypeMismatch("field", "array", Str("hi")));
    assert ValidateProps(root, 0, m, false) == Fail(TypeMismatch("field", "array", Str("hi")));
    assert ValidateField("", root, Dict(m), false) == Fail(TypeMismatch("field", "array", Str("hi")));
  }

  /**
   An `items` dictionary holding only keys the engine never reads is still truthy:
   each element is validated as an `object`, so a string element is refused.
   */
  lemma DescribedItemsAreChecked()
    ensures var arr := EmptySchema.(typeName := Some("array"), items := Some(EmptySchema.(others := map["description" := Str("tags")])));
      ValidateField("field", arr, List([Str("a")]), false) == Fail(TypeMismatch("field", "object", Str("a")))
  {
    var item := EmptySchema.(others := map["description" := Str("tags")]);
    assert "description" !in ReadKeys;
    assert !IsEmptyDict(item);
    assert ValidateField("field", item, Str("a"), false) == Fail(TypeMismatch("field", "object", Str("a")));
  }

  /** testValidateInteger: 7.8 is accepted for an integer field and stored as 7. */
  lemma IntegerFieldStoresTruncated()
    ensures Construct(ModelWith(Typed("integer")), map["field" := Float(7.8)], false)
      == Success(Document(map["field" := Int(7)], map[], false))
  {
    var root := ModelWith(Typed("integer"));
    var m := map["field" := Float(7.8)];
    assert DefaultedNames(root.properties.entries) == {};
    assert Prefilled(root, m, false) == m;
    IntegerFieldCast();
    IntegerFieldValid();
  }

  lemma IntegerFieldCast()
    ensures Cast(ModelWith(Typed("integer")), Dict(map["field" := Float(7.8)])) == Dict(map["field" := Int(7)])
  {
    var root := ModelWith(Typed("integer"));
    var ps := root.properties.entries;
    assert CastEntry(root, "field", Float(7.8)) == Int(7) by {
      assert FindProp(ps, "field") == Some(0) by { assert ps[0].name == "field"; }
      TruncatesSevenPointEight();
    }
    assert Cast(root, Dict(map["field" := Float(7.8)])).entries == map["field" := Int(7)];
  }

  lemma IntegerFieldValid()
    ensures ValidateField("", ModelWith(Typed("integer")), Dict(map["field" := Int(7)]), false) == Pass
  {
    var root := ModelWith(Typed("integer"));
    var m' := map["field" := Int(7)];
    assert ValidateProps(root, 2, m', false) == Pass;
    assert ValidateProps(root, 1, m', false) == Pass;
    assert ValidateProps(root, 0, m', false) == Pass;
  }

  /** The Country schema of tests/test_creating.py without its union-typed field, after `_id` injection. */
  function Country(): Schema {
    Schema(None, Declared([Prop("name", Typed("string")), Prop("abbreviation", Typed("string")),
                           Prop("_id", ObjectIdSchema)]),
           None, Some(false), None, None, Some("Country"), None, None, map[])
  }

  lemma CountryNames()
    ensures Names(Country().properties.entries) == {"name", "abbreviation", "_id"}
  {
    var ps := Country().properties.entries;
    NamesCons(ps[2], []);
    assert [ps[2]] + [] == ps[2..];
    NamesCons(ps[1], ps[2..]);
    assert [ps[1]] + ps[2..] == ps[1..];
    NamesCons(ps[0], ps[1..]);
    assert [ps[0]] + ps[1..] == ps;
  }

  /** With `additionalProperties: false`, an undeclared key is refused and named in the error. */
  lemma ExtraKeyRefused()
    ensures ValidateField("", Country(), Dict(map["name" := Str("Canada"), "abbreviation" := Str("CA"), "overlord" := Str("x")]), false)
      == Fail(AdditionalProperties({"overlord"}))
  {
    var m := map["name" := Str("Canada"), "abbreviation" := Str("CA"), "overlord" := Str("x")];
    CountryNames();
    assert m.Keys - Names(Country().properties.entries) == {"overlord"};
    assert ValidateProps(Country(), 3, m, false) == Pass;
    assert ValidateProps(Country(), 2, m, false) == Pass;
    assert ValidateProps(Country(), 1, m, false) == Pass;
    assert ValidateProps(Country(), 0, m, false) == Pass;
  }

  /** Exactly the declared keys are accepted. */
  lemma DeclaredKeysAccepted()
    ensures ValidateField("", Country(), Dict(map["name" := Str("Canada"), "abbreviation" := Str("CA")]), false) == Pass
  {
    var m := map["name" := Str("Canada"), "abbreviation" := Str("CA")];
    CountryNames();
    assert m.Keys <= Names(Country().properties.entries);
    assert ValidateProps(Country(), 3, m, false) == Pass;
    assert ValidateProps(Country(), 2, m, false) == Pass;
    assert ValidateProps(Country(), 1, m, false) == Pass;
    assert ValidateProps(Country(), 0, m, false) == Pass;
  }

  /** A missing required field fails a fresh construction and passes a construction from a find. */
  lemma RequiredOnlyWhenFresh()
    ensures var root := ModelWith(Typed("string").(required := Some(true)));
      && ValidateField("", root, Dict(map[]), false) == Fail(RequiredMissing("field"))
      && ValidateField("", root, Dict(map[]), true) == Pass
  {
    var root := ModelWith(Typed("string").(required := Some(true)));
    assert IsRequired(root.properties.entries[0].schema);
    assert !IsRequired(root.properties.entries[1].schema);
    assert ValidateProps(root, 0, map[], false) == Fail(RequiredMissing("field"));
    assert ValidateProps(root, 2, map[], true) == Pass;
    assert ValidateProps(root, 1, map[], true) == Pass;
    assert ValidateProps(root, 0, map[], true) == Pass;
  }
}
