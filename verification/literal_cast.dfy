/**
 The caster exactly as model.py:313-333 is written, for comparison with the
 intended caster of module Caster. The schema is the raw dictionary the source
 reads (`SchemaDict` renders a schema node as one). Line 323 casts each value
 of a mapping against `schema["properties"]`, the whole property mapping read
 as if it were a schema, rather than against `schema["properties"][key]`; and
 the branches do not look at the kind of the value first. `None` stands for a
 raised exception (`.get` or `.items()` on a non-dictionary, iterating a
 non-iterable). Python 2 iterates a dictionary in an unspecified order, which
 is the parameter `keyOrder`.
 */
module LiteralCast {
  import opened Wrappers
  import opened Values
  import opened Schemas
  import opened Caster

  /** `m`, with `key` set to the value when there is one. */
  function Entry(m: map<string, Value>, key: string, v: Option<Value>): (r: map<string, Value>)
    ensures m.Keys <= r.Keys
    ensures v.Some? ==> key in r
    ensures v.None? ==> r == m
  {
    if v.Some? then m[key := v.value] else m
  }

  function StrOf(s: Option<string>): Option<Value> {
    if s.Some? then Some(Str(s.value)) else None
  }

  function BoolOf(b: Option<bool>): Option<Value> {
    if b.Some? then Some(Bool(b.value)) else None
  }

  /** The schema node as the dictionary the source holds: one key per field that is present. */
  function SchemaDict(s: Schema): (r: Value)
    decreases s, 2
    ensures r.Dict?
    ensures "type" in r.entries <==> s.typeName.Some?
    ensures s.typeName.Some? ==> r.entries["type"] == Str(s.typeName.value)
    ensures "properties" in r.entries <==> s.properties.Declared?
    ensures s.properties.Declared? ==> r.entries["properties"] == PropertyDict(s)
    ensures r.entries == map[] <==> IsEmptyDict(s)
  {
    var m := OtherKeys(s);
    var m := if s.properties.Declared? then m["properties" := PropertyDict(s)] else m;
    var m := if s.typeName.Some? then m["type" := Str(s.typeName.value)] else m;
    Dict(m)
  }

  /** The keys the engine never reads, as they stand in the dictionary. */
  function Unread(s: Schema): (r: map<string, Value>)
    ensures r.Keys == s.others.Keys - ReadKeys
    ensures forall k | k in r :: r[k] == s.others[k]
  {
    map k | k in s.others && k !in ReadKeys :: s.others[k]
  }

  /** The keys of a schema dictionary other than `type` and `properties`. */
  function OtherKeys(s: Schema): (r: map<string, Value>)
    decreases s, 0
    ensures "type" !in r && "properties" !in r
    ensures (s.others.Keys - ReadKeys) <= r.Keys
    ensures r == map[] <==>
      && s.items.None? && s.additionalProperties.None? && s.required.None? && s.defaultValue.None?
      && s.name.None? && s.collectionName.None? && s.databaseName.None? && s.others.Keys <= ReadKeys
  {
    var items := if s.items.Some? then Some(SchemaDict(s.items.value)) else None;
    var m := Entry(Unread(s), "items", items);
    var m := Entry(m, "additionalProperties", BoolOf(s.additionalProperties));
    var m := Entry(m, "required", BoolOf(s.required));
    var m := Entry(m, "default", s.defaultValue);
    var m := Entry(m, "name", StrOf(s.name));
    var m := Entry(m, "collectionName", StrOf(s.collectionName));
    Entry(m, "databaseName", StrOf(s.databaseName))
  }

  /** The `properties` mapping as a dictionary from field name to schema dictionary. */
  function PropertyDict(s: Schema): (r: Value)
    requires s.properties.Declared?
    decreases s, 1
    ensures r.Dict? && r.entries.Keys == Names(s.properties.entries)
  {
    var ps := s.properties.entries;
    Dict(map k | k in Names(ps) :: SchemaDict(ps[FindProp(ps, k).value].schema))
  }

  /** What `for x in fields` walks through, if `fields` is iterable. */
  function Iterate(fields: Value, keyOrder: map<string, Value> -> seq<string>): Option<seq<Value>> {
    match fields
    case List(xs) => Some(xs)
    case Str(s) => Some(seq(|s|, i requires 0 <= i < |s| => Str([s[i]])))
    case Dict(m) => var ks := keyOrder(m); Some(seq(|ks|, i requires 0 <= i < |ks| => Str(ks[i])))
    case _ => None
  }

  /** `cast(fields, schema)` as written. */
  function CastAsWritten(schema: Value, fields: Value, keyOrder: map<string, Value> -> seq<string>): (r: Option<Value>)
    decreases schema, 0
    ensures !schema.Dict? ==> r == None
    ensures schema.Dict? && "type" in schema.entries && schema.entries["type"] !in {Str("object"), Str("array"), Str("integer")} ==>
      r == Some(fields)
    ensures schema.Dict? && "type" in schema.entries && schema.entries["type"] == Str("integer") && fields.Float? ==>
      r == Some(Int(TruncateTowardZero(fields.f)))
    ensures r.Some? && !fields.Dict? && !fields.List? && !fields.Str? && !fields.Float? ==> r == Some(fields)
  {
    if !schema.Dict? then None
    else
      var sd := schema.entries;
      var t := if "type" in sd then sd["type"] else Str("object");
      if t == Str("object") && "properties" in sd && Truthy(sd["properties"]) then
        if !fields.Dict? then None
        else
          match CastEachAsWritten(sd["properties"], fields.entries, keyOrder)
          case Some(m) => Some(Dict(m))
          case None => None
      else if t == Str("array") && "items" in sd && Truthy(sd["items"]) then
        match Iterate(fields, keyOrder)
        case None => None
        case Some(xs) =>
          match CastAllAsWritten(sd["items"], xs, keyOrder)
          case Some(ys) => Some(List(ys))
          case None => None
      else if t == Str("integer") && fields.Float? then Some(Int(TruncateTowardZero(fields.f)))
      else Some(fields)
  }

  /** `{key: cast(value, schema) for key, value in fields.items()}`; raises if any cast raises. */
  function CastEachAsWritten(schema: Value, m: map<string, Value>, keyOrder: map<string, Value> -> seq<string>)
    : Option<map<string, Value>>
    decreases schema, 1
  {
    if forall k | k in m :: CastAsWritten(schema, m[k], keyOrder).Some? then
      Some(map k | k in m :: CastAsWritten(schema, m[k], keyOrder).value)
    else None
  }

  /** `[cast(value, schema) for value in xs]`; raises if any cast raises. */
  function CastAllAsWritten(schema: Value, xs: seq<Value>, keyOrder: map<string, Value> -> seq<string>)
    : Option<seq<Value>>
    decreases schema, 1
  {
    if forall i | 0 <= i < |xs| :: CastAsWritten(schema, xs[i], keyOrder).Some? then
      Some(seq(|xs|, i requires 0 <= i < |xs| => CastAsWritten(schema, xs[i], keyOrder).value))
    else None
  }

  /** The model's `HasItems` is exactly the truthiness of the `items` dictionary the source tests (model.py:259, model.py:325). */
  lemma HasItemsIsTruthiness(s: Schema)
    ensures HasItems(s) <==> s.items.Some? && Truthy(SchemaDict(s.items.value))
  {
    if s.items.Some? {
      var d := SchemaDict(s.items.value);
      assert Truthy(d) <==> d.entries != map[] by {
        if d.entries != map[] {
          var k :| k in d.entries;
          assert |d.entries| > 0;
        }
      }
    }
  }

  /** A dictionary without `type` and `properties` keys reads as an object node with nothing to cast. */
  lemma PlainDictCastsNothing(schema: Value, x: Value, keyOrder: map<string, Value> -> seq<string>)
    requires schema.Dict? && "type" !in schema.entries && "properties" !in schema.entries
    ensures CastAsWritten(schema, x, keyOrder) == Some(x)
  {
    assert Str("object") != Str("array") && Str("object") != Str("integer");
  }

  /**
   A dictionary whose `type` is none of the three names the caster branches on
   (such as a schema dictionary, when a property is called `type`) casts nothing.
   */
  lemma OtherTypeCastsNothing(schema: Value, x: Value, keyOrder: map<string, Value> -> seq<string>)
    requires schema.Dict? && "type" in schema.entries && schema.entries["type"].Dict?
    ensures CastAsWritten(schema, x, keyOrder) == Some(x)
  {
  }

  /** A dictionary read as a schema that returns every value as is: one of the two cases above. */
  predicate Inert(schema: Value) {
    && schema.Dict?
    && (if "type" in schema.entries then schema.entries["type"].Dict? else "properties" !in schema.entries)
  }

  /** Every value of a mapping cast against an inert dictionary comes back unchanged. */
  lemma InertCastsEachNothing(schema: Value, m: map<string, Value>, keyOrder: map<string, Value> -> seq<string>)
    requires Inert(schema)
    ensures CastEachAsWritten(schema, m, keyOrder) == Some(m)
  {
    forall k | k in m ensures CastAsWritten(schema, m[k], keyOrder) == Some(m[k]) {
      if "type" in schema.entries {
        OtherTypeCastsNothing(schema, m[k], keyOrder);
      } else {
        PlainDictCastsNothing(schema, m[k], keyOrder);
      }
    }
    var cm := map k | k in m :: CastAsWritten(schema, m[k], keyOrder).value;
    assert cm == m;
  }

  /** A dictionary that reads as an object node with truthy `properties` raises on anything but a mapping (`.items()`). */
  lemma ObjectBranchRaisesOnNonMapping(schema: Value, x: Value, keyOrder: map<string, Value> -> seq<string>)
    requires schema.Dict? && "type" !in schema.entries
    requires "properties" in schema.entries && Truthy(schema.entries["properties"])
    requires !x.Dict?
    ensures CastAsWritten(schema, x, keyOrder) == None
  {
  }

  /** As written, one value whose cast against the property mapping raises makes the whole cast raise. */
  lemma AsWrittenRaisesBelow(s: Schema, m: map<string, Value>, k: string, keyOrder: map<string, Value> -> seq<string>)
    requires TypeName(s) == "object" && HasProperties(s)
    requires k in m && CastAsWritten(PropertyDict(s), m[k], keyOrder) == None
    ensures CastAsWritten(SchemaDict(s), Dict(m), keyOrder) == None
  {
    SchemaDictOfObjectNode(s);
    assert CastEachAsWritten(PropertyDict(s), m, keyOrder) == None;
  }

  /** The object branch of the literal caster: taken when the node reads as an object with truthy `properties`. */
  lemma AsWrittenObjectBranch(schema: Value, m: map<string, Value>, m': map<string, Value>,
                               keyOrder: map<string, Value> -> seq<string>)
    requires schema.Dict? && "properties" in schema.entries && Truthy(schema.entries["properties"])
    requires "type" in schema.entries ==> schema.entries["type"] == Str("object")
    requires CastEachAsWritten(schema.entries["properties"], m, keyOrder) == Some(m')
    ensures CastAsWritten(schema, Dict(m), keyOrder) == Some(Dict(m'))
  {
  }

  /** A schema node of type object with properties reads, as a dictionary, as an object node with truthy `properties`. */
  lemma SchemaDictOfObjectNode(s: Schema)
    requires TypeName(s) == "object" && HasProperties(s)
    ensures "properties" in SchemaDict(s).entries && SchemaDict(s).entries["properties"] == PropertyDict(s)
    ensures Truthy(PropertyDict(s))
    ensures "type" in SchemaDict(s).entries ==> SchemaDict(s).entries["type"] == Str("object")
  {
    var pd := PropertyDict(s);
    assert s.properties.entries[0].name in pd.entries;
    assert |pd.entries.Keys| > 0;
  }

  /**
   As written, a mapping at a node with properties comes back unchanged: its
   values are cast against the property mapping read as a schema. Without a
   property called `type` it reads as an object node, and without one called
   `properties` there is nothing to recurse into; with a property called `type`,
   that entry is a schema dictionary and matches no branch. No declared integer
   field below the node is ever truncated.
   */
  lemma AsWrittenSkipsChildren(s: Schema, m: map<string, Value>, keyOrder: map<string, Value> -> seq<string>)
    requires TypeName(s) == "object" && HasProperties(s)
    requires "type" in Names(s.properties.entries) || "properties" !in Names(s.properties.entries)
    ensures CastAsWritten(SchemaDict(s), Dict(m), keyOrder) == Some(Dict(m))
  {
    SchemaDictOfObjectNode(s);
    var pd := PropertyDict(s);
    if "type" in pd.entries {
      var ps := s.properties.entries;
      assert pd.entries["type"] == SchemaDict(ps[FindProp(ps, "type").value].schema);
    }
    InertCastsEachNothing(pd, m, keyOrder);
    AsWrittenObjectBranch(SchemaDict(s), m, m, keyOrder);
  }

  /**
   The intended caster does truncate: at an object node, a float stored under a
   property declared `integer` is truncated toward zero.
   */
  lemma IntendedCastTruncatesChildren(s: Schema, m: map<string, Value>, j: nat)
    requires TypeName(s) == "object" && HasProperties(s) && DistinctNames(s.properties.entries)
    requires j < |s.properties.entries| && TypeName(s.properties.entries[j].schema) == "integer"
    requires s.properties.entries[j].name in m && m[s.properties.entries[j].name].Float?
    ensures Cast(s, Dict(m)).entries[s.properties.entries[j].name]
      == Int(TruncateTowardZero(m[s.properties.entries[j].name].f))
  {
    DeclaredEntryCast(s, j, m[s.properties.entries[j].name]);
  }
}
