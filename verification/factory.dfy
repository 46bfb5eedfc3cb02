/**
 The schema rewrite `model_factory` performs before binding a model class
 (warmongo/__init__.py:21-24): every model has an `_id` property.
 */
module Factory {
  import opened Wrappers
  import opened Schemas
  import opened Errors

  /** Add `"_id": {"type": "object_id"}` to `properties` unless `_id` is already declared. */
  function InjectId(s: Schema): (r: Result<Schema, Error>)
    ensures r.Failure? <==> s.properties.Absent?
    ensures r.Failure? ==> r.error == MissingProperties
    ensures r.Success? ==> r.value.properties.Declared? && "_id" in Names(r.value.properties.entries)
    ensures r.Success? ==> r.value == s.(properties := r.value.properties)
    ensures r.Success? && "_id" in Names(DeclaredProps(s)) ==> r.value == s
    ensures r.Success? && "_id" !in Names(DeclaredProps(s)) ==>
      r.value.properties.entries == s.properties.entries + [Prop("_id", ObjectIdSchema)]
  {
    match s.properties
    case Absent => Failure(MissingProperties)
    case Declared(ps) =>
      if "_id" in Names(ps) then Success(s)
      else
        var ps' := ps + [Prop("_id", ObjectIdSchema)];
        assert ps'[|ps|].name == "_id";
        Success(s.(properties := Declared(ps')))
  }

  /**
   After injection `_id` is declared with its original schema when it was
   declared before, and with exactly `{"type": "object_id"}` otherwise; every
   other property keeps its schema.
   */
  lemma InjectIdProperties(s: Schema, k: string)
    requires s.properties.Declared?
    ensures var ps' := InjectId(s).value.properties.entries;
      && FindProp(ps', "_id").Some?
      && ps'[FindProp(ps', "_id").value].schema ==
           (if "_id" in Names(s.properties.entries)
            then s.properties.entries[FindProp(s.properties.entries, "_id").value].schema
            else ObjectIdSchema)
    ensures k != "_id" ==> FindProp(InjectId(s).value.properties.entries, k) == FindProp(s.properties.entries, k)
  {
    var ps := s.properties.entries;
    if "_id" !in Names(ps) {
      var ps' := ps + [Prop("_id", ObjectIdSchema)];
      FindPropAppend(ps, Prop("_id", ObjectIdSchema), "_id");
      FindPropAppend(ps, Prop("_id", ObjectIdSchema), k);
    }
  }

  /** Looking a name up after appending a property: the old answer if it had one, else the new last slot if the name matches. */
  lemma {:induction false} FindPropAppend(ps: seq<Prop>, p: Prop, k: string)
    ensures FindProp(ps + [p], k) ==
      (if k in Names(ps) then FindProp(ps, k) else if p.name == k then Some(|ps|) else None)
  {
    if |ps| > 0 && ps[0].name != k {
      assert (ps + [p])[1..] == ps[1..] + [p];
      FindPropAppend(ps[1..], p, k);
      assert k in Names(ps) <==> k in Names(ps[1..]) by {
        if k in Names(ps) {
          var i :| 0 <= i < |ps| && ps[i].name == k;
          assert ps[1..][i - 1].name == k;
        }
        if k in Names(ps[1..]) {
          var i :| 0 <= i < |ps[1..]| && ps[1..][i].name == k;
          assert ps[i + 1].name == k;
        }
      }
    } else if |ps| > 0 {
      assert ps[0].name == k;
      assert k in Names(ps);
    }
  }

  /** Injecting twice is injecting once. */
  lemma InjectIdIdempotent(s: Schema)
    requires s.properties.Declared?
    ensures InjectId(InjectId(s).value) == InjectId(s)
  {
  }

  /** Injection keeps every `properties` mapping free of duplicate keys. */
  lemma InjectIdWellFormed(s: Schema)
    requires WellFormed(s) && s.properties.Declared?
    ensures WellFormed(InjectId(s).value)
  {
    var ps := s.properties.entries;
    if "_id" !in Names(ps) {
      var ps' := InjectId(s).value.properties.entries;
      forall i, j | 0 <= i < j < |ps'| ensures ps'[i].name != ps'[j].name {
        if j == |ps| {
          assert ps[i].name in Names(ps);
        }
      }
      assert WellFormed(ObjectIdSchema);
      assert forall i | 0 <= i < |ps'| :: WellFormed(ps'[i].schema) by {
        forall i | 0 <= i < |ps'| ensures WellFormed(ps'[i].schema) {
          if i < |ps| { assert ps'[i] == ps[i]; }
        }
      }
    }
  }
}
