/**
 The recursive validator of model.py (`validate_field`, `validate_array`,
 `validate_object`, `validate_simple`). It walks a schema node and a value
 together and stops at the first violation. `fromFind` is the model's
 `_from_find` flag: when set, a missing `required` property is not an error.
 */
module Validator {
  import opened Wrappers
  import opened Values
  import opened Schemas
  import opened Errors

  /** The type names `validate_simple` knows; any other name is a schema error. */
  const SimpleTypes: set<string> := {"any", "number", "integer", "boolean", "string", "object_id", "date"}

  /** Dispatch on the node's type; an absent type means `object`. */
  function ValidateField(key: string, s: Schema, v: Value, fromFind: bool): (r: Check)
    decreases s, 3, 0
    ensures TypeName(s) == "array" && !v.List? ==> r == Fail(TypeMismatch(key, "array", v))
    ensures TypeName(s) == "object" && !v.Dict? ==> r == Fail(TypeMismatch(key, "object", v))
    ensures TypeName(s) == "any" ==> r == Pass
    ensures TypeName(s) !in SimpleTypes + {"array", "object"} ==> r == Fail(UnknownType(TypeName(s)))
  {
    var t := TypeName(s);
    if t == "array" then ValidateArray(key, s, v, fromFind)
    else if t == "object" then ValidateObject(key, s, v, fromFind)
    else ValidateSimple(key, t, v)
  }

  /** An array node: the value must be a list; a non-empty `items` schema checks every element. */
  function ValidateArray(key: string, s: Schema, v: Value, fromFind: bool): (r: Check)
    decreases s, 2, 0
    ensures !v.List? ==> r == Fail(TypeMismatch(key, "array", v))
    ensures v.List? && !HasItems(s) ==> r == Pass
    ensures v.List? && HasItems(s) ==>
      (r.Pass? <==> forall i | 0 <= i < |v.items| :: ValidateField(key, s.items.value, v.items[i], fromFind).Pass?)
  {
    if !v.List? then Fail(TypeMismatch(key, "array", v))
    else if HasItems(s) then ValidateItems(key, s.items.value, v.items, fromFind)
    else Pass
  }

  /** Every element against the `items` schema, in order; the first failing element decides. */
  function ValidateItems(key: string, item: Schema, xs: seq<Value>, fromFind: bool): (r: Check)
    decreases item, 4, |xs|
    ensures r.Pass? <==> forall i | 0 <= i < |xs| :: ValidateField(key, item, xs[i], fromFind).Pass?
    ensures r.Fail? ==> exists i | 0 <= i < |xs| ::
      && ValidateField(key, item, xs[i], fromFind) == r
      && forall j | 0 <= j < i :: ValidateField(key, item, xs[j], fromFind).Pass?
  {
    if |xs| == 0 then Pass
    else
      var c := ValidateField(key, item, xs[0], fromFind);
      if c.Fail? then c
      else
        var rest := ValidateItems(key, item, xs[1..], fromFind);
        assert forall i | 1 <= i < |xs| :: xs[i] == xs[1..][i - 1];
        rest
  }

  /** The error an unsatisfied property reports: its own validation error, or a missing required field. */
  function PropError(p: Prop, m: map<string, Value>, fromFind: bool): Check
    decreases p.schema, 4, 0
  {
    if p.name in m then ValidateField(p.name, p.schema, m[p.name], fromFind) else Fail(RequiredMissing(p.name))
  }

  /**
   One declared property is satisfied by the mapping: present and valid, or
   absent and not demanded (it is not `required`, or the data came from a find).
   */
  predicate PropOk(p: Prop, m: map<string, Value>, fromFind: bool)
    decreases p.schema, 4, 1
    ensures !PropOk(p, m, fromFind) ==> PropError(p, m, fromFind).Fail?
    ensures p.name in m ==> (PropOk(p, m, fromFind) <==> PropError(p, m, fromFind).Pass?)
    ensures p.name !in m && !PropOk(p, m, fromFind) ==> PropError(p, m, fromFind) == Fail(RequiredMissing(p.name))
    ensures fromFind && p.name !in m ==> PropOk(p, m, fromFind)
  {
    if p.name in m then ValidateField(p.name, p.schema, m[p.name], fromFind).Pass?
    else !IsRequired(p.schema) || fromFind
  }

  /**
   An object node: the value must be a mapping; with a non-empty `properties`
   mapping every declared property must be satisfied, and then, when
   `additionalProperties` is false, no other key may occur.
   */
  function ValidateObject(key: string, s: Schema, v: Value, fromFind: bool): (r: Check)
    decreases s, 2, 0
    ensures !v.Dict? ==> r == Fail(TypeMismatch(key, "object", v))
    ensures v.Dict? && !HasProperties(s) ==> r == Pass
    ensures v.Dict? && HasProperties(s) ==>
      (r.Pass? <==>
        && (forall j | 0 <= j < |s.properties.entries| :: PropOk(s.properties.entries[j], v.entries, fromFind))
        && (AllowsAdditional(s) || v.entries.Keys <= Names(s.properties.entries)))
    ensures v.Dict? && HasProperties(s) && !AllowsAdditional(s)
            && (forall j | 0 <= j < |s.properties.entries| :: PropOk(s.properties.entries[j], v.entries, fromFind))
            && r.Fail? ==>
      r.error == AdditionalProperties(v.entries.Keys - Names(s.properties.entries))
  {
    if !v.Dict? then Fail(TypeMismatch(key, "object", v))
    else if !HasProperties(s) then Pass
    else
      var c := ValidateProps(s, 0, v.entries, fromFind);
      if c.Fail? then c
      else if !AllowsAdditional(s) then
        var extra := v.entries.Keys - Names(s.properties.entries);
        if |extra| > 0 then Fail(AdditionalProperties(extra))
        else
          assert v.entries.Keys <= Names(s.properties.entries) by {
            forall k | k in v.entries ensures k in Names(s.properties.entries) {
              assert k !in extra;
            }
          }
          Pass
      else Pass
  }

  /** The declared properties from index `i` on, in order; the first unsatisfied one decides. */
  function ValidateProps(s: Schema, i: nat, m: map<string, Value>, fromFind: bool): (r: Check)
    requires s.properties.Declared? && i <= |s.properties.entries|
    decreases s, 1, |s.properties.entries| - i
    ensures r.Pass? <==> forall j | i <= j < |s.properties.entries| :: PropOk(s.properties.entries[j], m, fromFind)
  {
    var ps := s.properties.entries;
    if i == |ps| then Pass
    else
      var p := ps[i];
      if p.name in m then
        var c := ValidateField(p.name, p.schema, m[p.name], fromFind);
        if c.Fail? then
          assert !PropOk(p, m, fromFind);
          c
        else
          assert PropOk(p, m, fromFind);
          ValidateProps(s, i + 1, m, fromFind)
      else if IsRequired(p.schema) && !fromFind then
        assert !PropOk(p, m, fromFind);
        Fail(RequiredMissing(p.name))
      else
        assert PropOk(p, m, fromFind);
        ValidateProps(s, i + 1, m, fromFind)
  }

  /** One step of the scan: a satisfied property passes on to the next, an unsatisfied one reports its error. */
  lemma ValidatePropsStep(s: Schema, i: nat, m: map<string, Value>, fromFind: bool)
    requires s.properties.Declared? && i < |s.properties.entries|
    ensures PropOk(s.properties.entries[i], m, fromFind) ==> ValidateProps(s, i, m, fromFind) == ValidateProps(s, i + 1, m, fromFind)
    ensures !PropOk(s.properties.entries[i], m, fromFind) ==>
      ValidateProps(s, i, m, fromFind) == PropError(s.properties.entries[i], m, fromFind)
  {
  }

  /** `j` is the first unsatisfied property at or after `i`. */
  predicate FirstUnsatisfied(ps: seq<Prop>, i: nat, j: nat, m: map<string, Value>, fromFind: bool) {
    && i <= j < |ps|
    && !PropOk(ps[j], m, fromFind)
    && forall k | i <= k < j :: PropOk(ps[k], m, fromFind)
  }

  /** A satisfied property in front of the first unsatisfied one keeps it first. */
  lemma FirstUnsatisfiedExtend(ps: seq<Prop>, i: nat, j: nat, m: map<string, Value>, fromFind: bool)
    requires i < |ps| && PropOk(ps[i], m, fromFind) && FirstUnsatisfied(ps, i + 1, j, m, fromFind)
    ensures FirstUnsatisfied(ps, i, j, m, fromFind)
  {
    assert forall k | i <= k < j :: PropOk(ps[k], m, fromFind) by {
      forall k | i <= k < j ensures PropOk(ps[k], m, fromFind) {
        if k > i {
          assert i + 1 <= k < j;
        }
      }
    }
  }

  /** The index of the first unsatisfied property of a failing scan, and the error it reports. */
  lemma {:induction false} FirstFailureIndex(s: Schema, i: nat, m: map<string, Value>, fromFind: bool) returns (j: nat)
    requires s.properties.Declared? && i <= |s.properties.entries|
    requires ValidateProps(s, i, m, fromFind).Fail?
    decreases |s.properties.entries| - i
    ensures FirstUnsatisfied(s.properties.entries, i, j, m, fromFind)
    ensures ValidateProps(s, i, m, fromFind) == PropError(s.properties.entries[j], m, fromFind)
  {
    var ps := s.properties.entries;
    ValidatePropsStep(s, i, m, fromFind);
    if PropOk(ps[i], m, fromFind) {
      j := FirstFailureIndex(s, i + 1, m, fromFind);
      FirstUnsatisfiedExtend(ps, i, j, m, fromFind);
    } else {
      j := i;
    }
  }

  /** A failure is the error of the first unsatisfied property: every one before it is satisfied. */
  lemma ValidatePropsFirstFailure(s: Schema, i: nat, m: map<string, Value>, fromFind: bool)
    requires s.properties.Declared? && i <= |s.properties.entries|
    requires ValidateProps(s, i, m, fromFind).Fail?
    ensures exists j: nat ::
      && FirstUnsatisfied(s.properties.entries, i, j, m, fromFind)
      && ValidateProps(s, i, m, fromFind) == PropError(s.properties.entries[j], m, fromFind)
  {
    var j := FirstFailureIndex(s, i, m, fromFind);
  }

  /** Any other node: `any` accepts everything, the numeric types accept ints and floats, the rest consult the type table. */
  function ValidateSimple(key: string, t: string, v: Value): (r: Check)
    ensures t == "any" ==> r == Pass
    ensures (t == "number" || t == "integer") ==> (r.Pass? <==> v.Int? || v.Float? || v.Bool?)
    ensures t == "string" ==> (r.Pass? <==> v.Str?)
    ensures t == "boolean" ==> (r.Pass? <==> v.Bool?)
    ensures t == "date" ==> (r.Pass? <==> v.Date?)
    ensures t == "object_id" ==> (r.Pass? <==> v.ObjectId?)
    ensures (v.Null? || v.List? || v.Dict?) ==> (r.Pass? <==> t == "any")
    ensures t !in SimpleTypes ==> r == Fail(UnknownType(t))
    ensures t in SimpleTypes && r.Fail? ==> r.error == TypeMismatch(key, t, v) && r.error.Kind() == ValidationError
    ensures t !in SimpleTypes ==> r.Fail? && r.error.Kind() == InvalidSchemaException
  {
    if t == "any" then Pass
    else if t == "number" || t == "integer" then
      if !IsInstance(v, IntClass) && !IsInstance(v, FloatClass) then Fail(TypeMismatch(key, t, v)) else Pass
    else
      match ValidType(t)
      case Some(c) => if !IsInstance(v, c) then Fail(TypeMismatch(key, t, v)) else Pass
      case None => Fail(UnknownType(t))
  }

  /**
   How the strict verdict (`fromFind` false) and the relaxed one (`fromFind`
   true) on the same data relate: the relaxed walk never reports a missing
   required property, and the two agree unless the strict walk stopped at one.
   */
  predicate Relaxes(strict: Check, relaxed: Check) {
    && (relaxed.Fail? ==> !relaxed.error.RequiredMissing?)
    && (strict == relaxed || (strict.Fail? && strict.error.RequiredMissing?))
  }

  /** Relaxed mode disables the required-property check and nothing else. */
  lemma {:induction false} RelaxedField(key: string, s: Schema, v: Value)
    decreases s, 3, 0
    ensures Relaxes(ValidateField(key, s, v, false), ValidateField(key, s, v, true))
  {
    var t := TypeName(s);
    if t == "array" {
      if v.List? && HasItems(s) {
        RelaxedItems(key, s.items.value, v.items);
      }
    } else if t == "object" {
      if v.Dict? && HasProperties(s) {
        RelaxedProps(s, 0, v.entries);
      }
    }
  }

  lemma {:induction false} RelaxedItems(key: string, item: Schema, xs: seq<Value>)
    decreases item, 4, |xs|
    ensures Relaxes(ValidateItems(key, item, xs, false), ValidateItems(key, item, xs, true))
  {
    if |xs| > 0 {
      RelaxedField(key, item, xs[0]);
      RelaxedItems(key, item, xs[1..]);
    }
  }

  lemma {:induction false} RelaxedProps(s: Schema, i: nat, m: map<string, Value>)
    requires s.properties.Declared? && i <= |s.properties.entries|
    decreases s, 1, |s.properties.entries| - i
    ensures Relaxes(ValidateProps(s, i, m, false), ValidateProps(s, i, m, true))
  {
    var ps := s.properties.entries;
    if i < |ps| {
      var p := ps[i];
      if p.name in m {
        RelaxedField(p.name, p.schema, m[p.name]);
      }
      RelaxedProps(s, i + 1, m);
    }
  }

  /** Data that validates strictly also validates in relaxed mode, and the relaxed walk never reports a missing required property. */
  lemma RelaxedAcceptsMore(key: string, s: Schema, v: Value)
    ensures ValidateField(key, s, v, false).Pass? ==> ValidateField(key, s, v, true).Pass?
    ensures ValidateField(key, s, v, true).Fail? ==>
      ValidateField(key, s, v, false).Fail? && !ValidateField(key, s, v, true).error.RequiredMissing?
  {
    RelaxedField(key, s, v);
  }

  /**
   At an object node, a `required` property missing from the mapping fails the
   strict walk (possibly at an earlier violation), whatever else the mapping holds.
   */
  lemma RequiredMissingFailsStrict(key: string, s: Schema, m: map<string, Value>, j: nat)
    requires TypeName(s) == "object" && HasProperties(s)
    requires j < |s.properties.entries|
    requires IsRequired(s.properties.entries[j].schema) && s.properties.entries[j].name !in m
    ensures ValidateField(key, s, Dict(m), false).Fail?
  {
    assert !PropOk(s.properties.entries[j], m, false);
  }
}
