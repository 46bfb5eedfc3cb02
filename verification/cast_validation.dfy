/**
 How the caster and the validator fit together: casting runs just before
 validation (model.py:53-54) and, with integers unbounded as they are here,
 never changes its verdict, so it cannot make bad data pass nor good data fail.
 */
module CastValidation {
  import opened Wrappers
  import opened Values
  import opened Schemas
  import opened Errors
  import opened Validator
  import opened Caster

  /** Validating the cast value gives exactly the verdict (and the error) that validating the raw value gives. */
  lemma {:induction false} CastKeepsVerdict(key: string, s: Schema, v: Value, fromFind: bool)
    requires WellFormed(s)
    decreases s, 3, 0
    ensures ValidateField(key, s, Cast(s, v), fromFind) == ValidateField(key, s, v, fromFind)
  {
    var t := TypeName(s);
    if t == "array" {
      if v.List? && HasItems(s) {
        CastItemsKeepVerdict(key, s.items.value, v.items, Cast(s, v).items, fromFind);
      }
    } else if t == "object" {
      if v.Dict? && HasProperties(s) {
        CastPropsKeepVerdict(s, 0, v.entries, Cast(s, v).entries, fromFind);
      }
    }
  }

  lemma {:induction false} CastItemsKeepVerdict(key: string, item: Schema, xs: seq<Value>, ys: seq<Value>, fromFind: bool)
    requires WellFormed(item)
    requires |ys| == |xs| && forall i | 0 <= i < |xs| :: ys[i] == Cast(item, xs[i])
    decreases item, 4, |xs|
    ensures ValidateItems(key, item, ys, fromFind) == ValidateItems(key, item, xs, fromFind)
  {
    if |xs| > 0 {
      CastKeepsVerdict(key, item, xs[0], fromFind);
      CastItemsKeepVerdict(key, item, xs[1..], ys[1..], fromFind);
    }
  }

  lemma {:induction false} CastPropsKeepVerdict(s: Schema, i: nat, m: map<string, Value>, cm: map<string, Value>, fromFind: bool)
    requires WellFormed(s) && TypeName(s) == "object" && HasProperties(s)
    requires i <= |s.properties.entries|
    requires cm.Keys == m.Keys && forall k | k in m :: cm[k] == CastEntry(s, k, m[k])
    decreases s, 1, |s.properties.entries| - i
    ensures ValidateProps(s, i, cm, fromFind) == ValidateProps(s, i, m, fromFind)
  {
    var ps := s.properties.entries;
    if i < |ps| {
      var p := ps[i];
      CastPropsKeepVerdict(s, i + 1, m, cm, fromFind);
      if p.name in m {
        DeclaredEntryCast(s, i, m[p.name]);
        assert WellFormed(p.schema);
        CastKeepsVerdict(p.name, p.schema, m[p.name], fromFind);
      }
    }
  }
}
