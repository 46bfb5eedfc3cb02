/**
 A model instance over a fixed root schema (the class attribute `_schema`):
 construction, `get`, and attribute-style reads and writes (model.py:41-54,
 83-85, 335-357). Instances are values; an operation returns the new instance
 or the error it raises.
 */
module Documents {
  import opened Wrappers
  import opened Values
  import opened Schemas
  import opened Errors
  import opened Validator
  import opened Caster
  import opened CastValidation

  datatype Document = Document(
    /** `_fields`: the document's data. */
    fields: map<string, Value>,
    /** Instance attributes written through the underscore bypass of `__setattr__`. */
    attributes: map<string, Value>,
    /** `_from_find`: the instance came from a storage read. */
    fromFind: bool)

  /** The names whose property schema carries a `default`. */
  function DefaultedNames(ps: seq<Prop>): set<string> {
    set i | 0 <= i < |ps| && ps[i].schema.defaultValue.Some? :: ps[i].name
  }

  /** Some property named `k` carries the default `v`. */
  predicate DefaultFor(ps: seq<Prop>, k: string, v: Value) {
    exists i | 0 <= i < |ps| :: ps[i].name == k && ps[i].schema.defaultValue == Some(v)
  }

  lemma DefaultedNamesSplit(ps: seq<Prop>)
    requires |ps| > 0
    ensures DefaultedNames(ps) == (if ps[0].schema.defaultValue.Some? then {ps[0].name} else {}) + DefaultedNames(ps[1..])
  {
    forall k | k in DefaultedNames(ps)
      ensures k in (if ps[0].schema.defaultValue.Some? then {ps[0].name} else {}) + DefaultedNames(ps[1..])
    {
      var i :| 0 <= i < |ps| && ps[i].schema.defaultValue.Some? && ps[i].name == k;
      if i > 0 { assert ps[1..][i - 1] == ps[i]; }
    }
    forall k | k in DefaultedNames(ps[1..]) ensures k in DefaultedNames(ps) {
      var i :| 0 <= i < |ps[1..]| && ps[1..][i].schema.defaultValue.Some? && ps[1..][i].name == k;
      assert ps[i + 1] == ps[1..][i];
    }
  }

  lemma DefaultForTail(ps: seq<Prop>, k: string, v: Value)
    requires |ps| > 0 && DefaultFor(ps[1..], k, v)
    ensures DefaultFor(ps, k, v)
  {
    var i :| 0 <= i < |ps[1..]| && ps[1..][i].name == k && ps[1..][i].schema.defaultValue == Some(v);
    assert ps[i + 1] == ps[1..][i];
  }

  /** Insert each property's `default` where the key is absent (model.py:48-51). */
  function InsertDefaults(ps: seq<Prop>, fields: map<string, Value>): (r: map<string, Value>)
    decreases |ps|
    ensures r.Keys == fields.Keys + DefaultedNames(ps)
    ensures forall k | k in fields :: r[k] == fields[k]
    ensures forall k | k in r && k !in fields :: DefaultFor(ps, k, r[k])
  {
    if |ps| == 0 then fields
    else
      var p := ps[0];
      var next := if p.schema.defaultValue.Some? && p.name !in fields
                  then fields[p.name := p.schema.defaultValue.value] else fields;
      var r := InsertDefaults(ps[1..], next);
      InsertDefaultsStep(ps, fields, next, r);
      r
  }

  /** One step of InsertDefaults: what the tail's result promises about `next` carries over to `fields`. */
  lemma InsertDefaultsStep(ps: seq<Prop>, fields: map<string, Value>, next: map<string, Value>, r: map<string, Value>)
    requires |ps| > 0
    requires next == if ps[0].schema.defaultValue.Some? && ps[0].name !in fields
                     then fields[ps[0].name := ps[0].schema.defaultValue.value] else fields
    requires r.Keys == next.Keys + DefaultedNames(ps[1..])
    requires forall k | k in next :: r[k] == next[k]
    requires forall k | k in r && k !in next :: DefaultFor(ps[1..], k, r[k])
    ensures r.Keys == fields.Keys + DefaultedNames(ps)
    ensures forall k | k in fields :: r[k] == fields[k]
    ensures forall k | k in r && k !in fields :: DefaultFor(ps, k, r[k])
  {
    DefaultedNamesSplit(ps);
    forall k | k in r && k !in fields ensures DefaultFor(ps, k, r[k]) {
      if k in next {
        assert ps[0].name == k && ps[0].schema.defaultValue == Some(r[k]);
      } else {
        DefaultForTail(ps, k, r[k]);
      }
    }
  }

  /** The fields about to be cast: the raw fields, with defaults filled in unless the data came from a find. */
  function Prefilled(root: Schema, raw: map<string, Value>, fromFind: bool): (r: map<string, Value>)
    ensures fromFind ==> r == raw
    ensures !fromFind ==> r.Keys == raw.Keys + DefaultedNames(DeclaredProps(root))
    ensures forall k | k in raw :: r[k] == raw[k]
  {
    if fromFind then raw else InsertDefaults(DeclaredProps(root), raw)
  }

  /**
   `Model(fields, from_find)`: fill in defaults (only for fresh instances), cast,
   then validate the whole document from the root key "" (relaxed iff `fromFind`).
   */
  function Construct(root: Schema, raw: map<string, Value>, fromFind: bool): (r: Result<Document, Error>)
    ensures !fromFind && root.properties.Absent? ==> r == Failure(MissingProperties)
    ensures r.Success? ==> r.value.fromFind == fromFind && r.value.attributes == map[]
    ensures r.Success? ==> Dict(r.value.fields) == Cast(root, Dict(Prefilled(root, raw, fromFind)))
    ensures r.Success? ==> ValidateField("", root, Dict(r.value.fields), fromFind) == Pass
    ensures r.Success? ==> r.value.fields.Keys == raw.Keys + (if fromFind then {} else DefaultedNames(DeclaredProps(root)))
    ensures r.Success? ==> forall k | k in raw :: r.value.fields[k] == CastEntry(root, k, raw[k])
    ensures r.Success? && !fromFind ==> forall k | k in r.value.fields && k !in raw ::
      exists i | 0 <= i < |DeclaredProps(root)| ::
        && DeclaredProps(root)[i].name == k
        && DeclaredProps(root)[i].schema.defaultValue.Some?
        && r.value.fields[k] == CastEntry(root, k, DeclaredProps(root)[i].schema.defaultValue.value)
    ensures (fromFind || root.properties.Declared?) ==>
      (r.Success? <==> ValidateField("", root, Cast(root, Dict(Prefilled(root, raw, fromFind))), fromFind).Pass?)
  {
    if !fromFind && root.properties.Absent? then Failure(MissingProperties)
    else
      var filled := Prefilled(root, raw, fromFind);
      var stored := Cast(root, Dict(filled));
      match ValidateField("", root, stored, fromFind)
      case Fail(e) => Failure(e)
      case Pass =>
        CastOfPrefilled(root, raw, fromFind);
        Success(Document(stored.entries, map[], fromFind))
  }

  /** The cast of the filled-in fields: raw keys are cast per key, added keys hold the cast default of their property. */
  lemma CastOfPrefilled(root: Schema, raw: map<string, Value>, fromFind: bool)
    ensures var c := Cast(root, Dict(Prefilled(root, raw, fromFind))).entries;
      && c.Keys == raw.Keys + (if fromFind then {} else DefaultedNames(DeclaredProps(root)))
      && (forall k | k in raw :: c[k] == CastEntry(root, k, raw[k]))
      && (!fromFind ==> forall k | k in c && k !in raw ::
            exists i | 0 <= i < |DeclaredProps(root)| ::
              && DeclaredProps(root)[i].name == k
              && DeclaredProps(root)[i].schema.defaultValue.Some?
              && c[k] == CastEntry(root, k, DeclaredProps(root)[i].schema.defaultValue.value))
  {
    var filled := Prefilled(root, raw, fromFind);
    var c := Cast(root, Dict(filled)).entries;
    if !fromFind {
      var ps := DeclaredProps(root);
      forall k | k in c && k !in raw
        ensures exists i | 0 <= i < |ps| ::
          && ps[i].name == k && ps[i].schema.defaultValue.Some?
          && c[k] == CastEntry(root, k, ps[i].schema.defaultValue.value)
      {
        assert DefaultFor(ps, k, filled[k]);
        var i :| 0 <= i < |ps| && ps[i].name == k && ps[i].schema.defaultValue == Some(filled[k]);
      }
    }
  }

  /**
   With unbounded integers, casting before validating never changes the outcome:
   construction fails exactly when the uncast (defaulted) fields fail validation,
   and with the same error.
   */
  lemma ConstructVerdictIgnoresCast(root: Schema, raw: map<string, Value>, fromFind: bool)
    requires WellFormed(root)
    requires fromFind || root.properties.Declared?
    ensures Construct(root, raw, fromFind).Success? <==>
      ValidateField("", root, Dict(Prefilled(root, raw, fromFind)), fromFind).Pass?
    ensures Construct(root, raw, fromFind).Failure? ==>
      ValidateField("", root, Dict(Prefilled(root, raw, fromFind)), fromFind) == Fail(Construct(root, raw, fromFind).error)
  {
    CastKeepsVerdict("", root, Dict(Prefilled(root, raw, fromFind)), fromFind);
  }

  /**
   The find path: rebuilding an instance from the stored fields of a valid
   instance, as the finders do with `from_find=True`, gives back the same fields.
   */
  lemma ReloadRoundTrip(root: Schema, raw: map<string, Value>, fromFind: bool)
    requires Construct(root, raw, fromFind).Success?
    ensures Construct(root, Construct(root, raw, fromFind).value.fields, true)
      == Success(Document(Construct(root, raw, fromFind).value.fields, map[], true))
  {
    var d := Construct(root, raw, fromFind).value;
    CastIdempotent(root, Dict(Prefilled(root, raw, fromFind)));
    assert Cast(root, Dict(d.fields)) == Dict(d.fields);
    RelaxedAcceptsMore("", root, Dict(d.fields));
  }

  /** `get(field, default)`: the stored value, or `default` when the field is unset. */
  function Get(d: Document, field: string, default: Value): (r: Value)
    ensures field in d.fields ==> r == d.fields[field]
    ensures field !in d.fields ==> r == default
  {
    if field in d.fields then d.fields[field] else default
  }

  /**
   The two instance attributes `__init__` itself sets through the underscore
   bypass (model.py:43, model.py:53); they are the instance's state.
   */
  predicate IsStateName(attr: string) {
    attr == "_fields" || attr == "_from_find"
  }

  /**
   Reading `d.attr`: Python's ordinary lookup finds `_fields`, then any instance
   attribute set through the underscore bypass, then `_from_find`; only when it
   fails does `__getattr__` answer, with the field when the name is both
   declared and present, and with AttributeError otherwise.
   */
  function GetAttr(root: Schema, d: Document, attr: string): (r: Result<Value, Error>)
    ensures attr == "_fields" ==> r == Success(Dict(d.fields))
    ensures attr != "_fields" && attr in d.attributes ==> r == Success(d.attributes[attr])
    ensures attr == "_from_find" && attr !in d.attributes ==> r == Success(Bool(d.fromFind))
    ensures !IsStateName(attr) && attr !in d.attributes && root.properties.Declared? ==>
      (r.Success? <==> attr in Names(root.properties.entries) && attr in d.fields)
    ensures !IsStateName(attr) && attr !in d.attributes && r.Success? ==> attr in d.fields && r.value == d.fields[attr]
    ensures r.Failure? ==> r.error == (if root.properties.Absent? then MissingProperties else NoAttribute(attr))
    ensures r.Failure? ==> r.error.Kind() == (if root.properties.Absent? then KeyError else AttributeError)
  {
    if attr == "_fields" then Success(Dict(d.fields))
    else if attr in d.attributes then Success(d.attributes[attr])
    else if attr == "_from_find" then Success(Bool(d.fromFind))
    else if root.properties.Absent? then Failure(MissingProperties)
    else if attr in Names(root.properties.entries) && attr in d.fields then Success(d.fields[attr])
    else Failure(NoAttribute(attr))
  }

  /** Names starting with `_` are private instance state, not fields. */
  predicate IsPrivate(attr: string) {
    |attr| > 0 && attr[0] == '_'
  }

  /**
   Assigning `d.attr = value`: private names bypass the schema. Assigning
   `_fields` replaces the whole field mapping, unchecked; assigning `_from_find`
   switches the mode by the value's truthiness. A declared name is validated
   against its own property schema (relaxed iff the instance came from a find)
   and stored as given, without casting; an undeclared name is refused when the
   root forbids additional properties and stored unchecked otherwise.
   */
  function SetAttr(root: Schema, d: Document, attr: string, value: Value): (r: Result<Document, Error>)
    ensures IsPrivate(attr) && !IsStateName(attr) ==> r == Success(d.(attributes := d.attributes[attr := value]))
    ensures attr == "_fields" ==> (r.Success? <==> value.Dict?)
    ensures attr == "_fields" && r.Success? ==> r.value == d.(fields := value.entries)
    ensures attr == "_fields" && r.Failure? ==> r.error == NotAMapping(value) && r.error.Kind() == AttributeError
    ensures attr == "_from_find" ==>
      r == Success(d.(fromFind := Truthy(value), attributes := d.attributes[attr := value]))
    ensures !IsPrivate(attr) && root.properties.Absent? ==> r == Failure(MissingProperties)
    ensures !IsPrivate(attr) && root.properties.Declared? && attr in Names(root.properties.entries) ==>
      var p := root.properties.entries[FindProp(root.properties.entries, attr).value];
      && (r.Success? <==> ValidateField(attr, p.schema, value, d.fromFind).Pass?)
      && (r.Failure? ==> Fail(r.error) == ValidateField(attr, p.schema, value, d.fromFind))
    ensures !IsPrivate(attr) && root.properties.Declared? && attr !in Names(root.properties.entries) ==>
      (r.Success? <==> AllowsAdditional(root)) && (r.Failure? ==> r.error == AdditionalProperty(attr))
    ensures r.Success? && !IsPrivate(attr) ==> r.value == d.(fields := d.fields[attr := value])
  {
    if attr == "_fields" then
      if value.Dict? then Success(d.(fields := value.entries)) else Failure(NotAMapping(value))
    else if attr == "_from_find" then
      Success(d.(fromFind := Truthy(value), attributes := d.attributes[attr := value]))
    else if IsPrivate(attr) then Success(d.(attributes := d.attributes[attr := value]))
    else if root.properties.Absent? then Failure(MissingProperties)
    else
      var ps := root.properties.entries;
      match FindProp(ps, attr)
      case Some(j) =>
        (match ValidateField(attr, ps[j].schema, value, d.fromFind)
         case Fail(e) => Failure(e)
         case Pass => Success(d.(fields := d.fields[attr := value])))
      case None =>
        if !AllowsAdditional(root) then Failure(AdditionalProperty(attr))
        else Success(d.(fields := d.fields[attr := value]))
  }

  /** A successful assignment to a private name reads back the assigned value. */
  lemma PrivateSetThenGet(root: Schema, d: Document, attr: string, value: Value)
    requires IsPrivate(attr)
    requires SetAttr(root, d, attr, value).Success?
    ensures GetAttr(root, SetAttr(root, d, attr, value).value, attr) == Success(value)
  {
  }

  /** After a successful assignment of a declared field, reading it back yields the assigned value. */
  lemma SetThenGet(root: Schema, d: Document, attr: string, value: Value, default: Value)
    requires !IsPrivate(attr) && attr !in d.attributes
    requires root.properties.Declared? && attr in Names(root.properties.entries)
    requires SetAttr(root, d, attr, value).Success?
    ensures GetAttr(root, SetAttr(root, d, attr, value).value, attr) == Success(value)
    ensures Get(SetAttr(root, d, attr, value).value, attr, default) == value
  {
  }

  /**
   Assignment keeps an instance valid: if the whole document validated before
   and the assignment succeeds, the whole document still validates in the
   instance's new mode, except after replacing `_fields` or switching to strict
   mode, which the source does without validating anything.
   */
  lemma SetAttrPreservesValidity(root: Schema, d: Document, attr: string, value: Value)
    requires root.properties.Declared? && DistinctNames(root.properties.entries)
    requires ValidateField("", root, Dict(d.fields), d.fromFind).Pass?
    requires SetAttr(root, d, attr, value).Success?
    ensures var d' := SetAttr(root, d, attr, value).value;
      attr != "_fields" && (attr == "_from_find" ==> Truthy(value)) ==>
        ValidateField("", root, Dict(d'.fields), d'.fromFind).Pass?
  {
    if attr == "_from_find" {
      RelaxedAcceptsMore("", root, Dict(d.fields));
    } else if !IsPrivate(attr) {
      FieldSetPreservesValidity(root, d, attr, value);
    }
  }

  /** The public case: an assigned field passed its own check, and every other property is as before. */
  lemma FieldSetPreservesValidity(root: Schema, d: Document, attr: string, value: Value)
    requires !IsPrivate(attr)
    requires root.properties.Declared? && DistinctNames(root.properties.entries)
    requires ValidateField("", root, Dict(d.fields), d.fromFind).Pass?
    requires SetAttr(root, d, attr, value).Success?
    ensures ValidateField("", root, Dict(d.fields[attr := value]), d.fromFind).Pass?
  {
    var fields' := d.fields[attr := value];
    if TypeName(root) == "object" && HasProperties(root) {
      var ps := root.properties.entries;
      forall j | 0 <= j < |ps| ensures PropOk(ps[j], fields', d.fromFind) {
        assert PropOk(ps[j], d.fields, d.fromFind);
        if ps[j].name == attr {
          assert attr in Names(ps);
          assert FindProp(ps, attr).value == j;
        }
      }
    }
  }
}
