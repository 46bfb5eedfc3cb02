/**
 The caster of model.py (`cast`): best-effort normalisation of stored values
 toward the schema, never failing. Its one real conversion is float to int at an
 `integer` node (the store keeps every number as a double).

 This is the behaviour the method's doc comment and its tests promise, which
 deviates from the literal text of model.py in two ways:
 - model.py:323 passes the whole `properties` mapping as each child's schema;
   here each key is cast against its own property schema, `properties[key]`,
   and keys with no declared property pass through unchanged. The literal
   behaviour is modelled in module LiteralCast.
 - with per-key schemas, the object and array branches fire only when the value
   is a mapping or a list respectively; any other value passes through
   unchanged and is left for the validator to reject (a string at an `array`
   node is not split into characters).
 */
module Caster {
  import opened Wrappers
  import opened Values
  import opened Schemas

  /** Cast one entry of a mapping that sits at node `s`: against its declared property schema, if any. */
  function CastEntry(s: Schema, key: string, x: Value): (r: Value)
    decreases s, 0
    ensures TypeName(s) != "object" || !HasProperties(s) || key !in Names(s.properties.entries) ==> r == x
  {
    if TypeName(s) == "object" && HasProperties(s) then
      var ps := s.properties.entries;
      match FindProp(ps, key)
      case Some(j) => Cast(ps[j].schema, x)
      case None => x
    else x
  }

  /** With distinct property names, a declared key is cast against its own property schema. */
  lemma DeclaredEntryCast(s: Schema, i: nat, x: Value)
    requires TypeName(s) == "object" && HasProperties(s) && DistinctNames(s.properties.entries)
    requires i < |s.properties.entries|
    ensures CastEntry(s, s.properties.entries[i].name, x) == Cast(s.properties.entries[i].schema, x)
  {
    var ps := s.properties.entries;
    assert ps[i].name in Names(ps);
    var j := FindProp(ps, ps[i].name).value;
    assert j == i;
  }

  function Cast(s: Schema, v: Value): (r: Value)
    decreases s, 1
    ensures r.Dict? <==> v.Dict?
    ensures v.Dict? ==> r.entries.Keys == v.entries.Keys
    ensures v.Dict? ==> forall k | k in v.entries :: r.entries[k] == CastEntry(s, k, v.entries[k])
    ensures r.List? <==> v.List?
    ensures v.List? ==> |r.items| == |v.items|
    ensures v.List? && TypeName(s) == "array" && HasItems(s) ==>
      forall i | 0 <= i < |v.items| :: r.items[i] == Cast(s.items.value, v.items[i])
    ensures v.List? && !(TypeName(s) == "array" && HasItems(s)) ==> r == v
    ensures v.Float? && TypeName(s) == "integer" ==> r == Int(TruncateTowardZero(v.f))
    ensures v.Float? && TypeName(s) != "integer" ==> r == v
    ensures !v.Float? && !v.Dict? && !v.List? ==> r == v
  {
    var t := TypeName(s);
    if t == "object" && HasProperties(s) && v.Dict? then
      Dict(map k | k in v.entries :: CastEntry(s, k, v.entries[k]))
    else if t == "array" && HasItems(s) && v.List? then
      List(seq(|v.items|, i requires 0 <= i < |v.items| => Cast(s.items.value, v.items[i])))
    else if t == "integer" && v.Float? then
      Int(TruncateTowardZero(v.f))
    else
      v
  }

  /** Casting a second time changes nothing. */
  lemma {:induction false} CastIdempotent(s: Schema, v: Value)
    decreases s
    ensures Cast(s, Cast(s, v)) == Cast(s, v)
  {
    var c := Cast(s, v);
    if v.Dict? {
      var cc := Cast(s, c);
      forall k | k in v.entries ensures cc.entries[k] == c.entries[k] {
        if TypeName(s) == "object" && HasProperties(s) {
          var ps := s.properties.entries;
          match FindProp(ps, k)
          case Some(j) => CastIdempotent(ps[j].schema, v.entries[k]);
          case None =>
        }
      }
      assert cc.entries == c.entries;
    } else if v.List? && TypeName(s) == "array" && HasItems(s) {
      var cc := Cast(s, c);
      forall i | 0 <= i < |v.items| ensures cc.items[i] == c.items[i] {
        CastIdempotent(s.items.value, v.items[i]);
      }
      assert cc.items == c.items;
    }
  }
}
