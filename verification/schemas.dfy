/**
 Schema nodes: the JSON-Schema-like dictionaries a model is built from. Every key
 of the source's dictionaries that the engine reads is a field here; `None`
 means the key is absent. The remaining keys (`description`, `maximum`, …) are
 kept with their values in `others`: the engine never reads them, but they make
 a dictionary non-empty, and so truthy.
 */
module Schemas {
  import opened Wrappers
  import opened Values

  /** One entry of a `properties` mapping: a field name and its schema. */
  datatype Prop = Prop(name: string, schema: Schema)

  /** The `properties` key: absent, or a mapping kept in a fixed iteration order. */
  datatype Properties = Absent | Declared(entries: seq<Prop>)

  datatype Schema = Schema(
    typeName: Option<string>,
    properties: Properties,
    items: Option<Schema>,
    additionalProperties: Option<bool>,
    required: Option<bool>,
    defaultValue: Option<Value>,
    name: Option<string>,
    collectionName: Option<string>,
    databaseName: Option<string>,
    others: map<string, Value>)

  /** The keys the engine reads; `others` holds the rest (a read key found there is ignored). */
  const ReadKeys: set<string> :=
    {"type", "properties", "items", "additionalProperties", "required", "default",
     "name", "collectionName", "databaseName"}

  /** The empty dictionary `{}`, which Python treats as false. */
  const EmptySchema := Schema(None, Absent, None, None, None, None, None, None, None, map[])

  /** The node's dictionary has no key at all. */
  predicate IsEmptyDict(s: Schema) {
    && s.typeName.None? && s.properties.Absent? && s.items.None?
    && s.additionalProperties.None? && s.required.None? && s.defaultValue.None?
    && s.name.None? && s.collectionName.None? && s.databaseName.None?
    && s.others.Keys <= ReadKeys
  }

  /** `{"type": "object_id"}`, the schema of the identifier field. */
  const ObjectIdSchema := EmptySchema.(typeName := Some("object_id"))

  /** `schema.get("type", "object")` (model.py:245 and model.py:319). */
  function TypeName(s: Schema): string {
    s.typeName.GetOr("object")
  }

  /** The declared properties, in iteration order; none when the key is absent. */
  function DeclaredProps(s: Schema): seq<Prop> {
    match s.properties
    case Absent => []
    case Declared(ps) => ps
  }

  /** `schema.get("properties")` is truthy: present and not an empty mapping. */
  predicate HasProperties(s: Schema) {
    s.properties.Declared? && |s.properties.entries| > 0
  }

  /** `schema.get("items")` is truthy: present and not the empty dictionary. */
  predicate HasItems(s: Schema) {
    s.items.Some? && !IsEmptyDict(s.items.value)
  }

  /** `schema.get("additionalProperties", True)`. */
  predicate AllowsAdditional(s: Schema) {
    s.additionalProperties.GetOr(true)
  }

  /** `schema.get("required", False)`. */
  predicate IsRequired(s: Schema) {
    s.required.GetOr(false)
  }

  /** The keys of a `properties` mapping. */
  function Names(ps: seq<Prop>): set<string> {
    set i | 0 <= i < |ps| :: ps[i].name
  }

  /** The keys of a mapping with one more entry in front. */
  lemma NamesCons(p: Prop, ps: seq<Prop>)
    ensures Names([p] + ps) == {p.name} + Names(ps)
  {
    var qs := [p] + ps;
    forall k | k in Names(qs) ensures k in {p.name} + Names(ps) {
      var i :| 0 <= i < |qs| && qs[i].name == k;
      if i > 0 { assert ps[i - 1] == qs[i]; }
    }
    forall k | k in Names(ps) ensures k in Names(qs) {
      var i :| 0 <= i < |ps| && ps[i].name == k;
      assert qs[i + 1] == ps[i];
    }
    assert qs[0].name == p.name;
  }

  /** Where `name` sits in a `properties` mapping (its first occurrence). */
  function FindProp(ps: seq<Prop>, name: string): (r: Option<nat>)
    ensures r.Some? <==> name in Names(ps)
    ensures r.Some? ==> r.value < |ps| && ps[r.value].name == name
    ensures r.Some? ==> forall j | 0 <= j < r.value :: ps[j].name != name
  {
    if |ps| == 0 then None
    else if ps[0].name == name then Some(0)
    else match FindProp(ps[1..], name)
      case None =>
        assert Names(ps) == {ps[0].name} + Names(ps[1..]) by {
          forall k | k in Names(ps) ensures k in {ps[0].name} + Names(ps[1..]) {
            var i :| 0 <= i < |ps| && ps[i].name == k;
            if i > 0 { assert ps[1..][i - 1].name == k; }
          }
        }
        None
      case Some(j) => Some(j + 1)
  }

  /** A Python dictionary never holds a key twice. */
  predicate DistinctNames(ps: seq<Prop>) {
    forall i, j | 0 <= i < j < |ps| :: ps[i].name != ps[j].name
  }

  /** Every `properties` mapping in the tree has distinct keys, as any dictionary does. */
  predicate WellFormed(s: Schema)
    decreases s
  {
    && (match s.properties
        case Absent => true
        case Declared(ps) =>
          && DistinctNames(ps)
          && forall i | 0 <= i < |ps| :: WellFormed(ps[i].schema))
    && (s.items.Some? ==> WellFormed(s.items.value))
  }

  /** The `ValidTypes` table: primitive type name to the Python class it must be an instance of. */
  function ValidType(typeName: string): (r: Option<PyClass>)
    ensures r.Some? <==> typeName in {"integer", "boolean", "number", "string", "object_id", "date"}
  {
    match typeName
    case "integer" => Some(IntClass)
    case "boolean" => Some(BoolClass)
    case "number" => Some(FloatClass)
    case "string" => Some(StrClass)
    case "object_id" => Some(ObjectIdClass)
    case "date" => Some(DateClass)
    case _ => None
  }
}
