/**
 Where a model's documents live (model.py:208-232): the collection name and
 the optional database name. The pluralizer is a third-party English inflector
 and is a parameter here.
 */
module Naming {
  import opened Wrappers
  import opened Schemas

  predicate IsUpper(c: char) {
    'A' <= c <= 'Z'
  }

  /** ASCII lower-casing of one character. */
  function ToLower(c: char): (r: char)
    ensures !IsUpper(r)
    ensures IsUpper(c) ==> r as int == c as int + 32
    ensures !IsUpper(c) ==> r == c
  {
    if IsUpper(c) then (c as int + 32) as char else c
  }

  /** `s.lower()` */
  function Lower(s: string): (r: string)
    ensures |r| == |s|
    ensures forall i | 0 <= i < |s| :: r[i] == ToLower(s[i])
  {
    seq(|s|, i requires 0 <= i < |s| => ToLower(s[i]))
  }

  /** `re.sub('([A-Z])', r'_\1', s)`: an underscore before every capital letter. */
  function UnderscoreCapitals(s: string): (r: string)
    decreases |s|
    ensures forall i | 0 <= i < |r| :: IsUpper(r[i]) ==> 0 < i && r[i - 1] == '_'
    ensures forall i | 0 <= i < |s| ::
      && Placed(s, i) < |r|
      && r[Placed(s, i)] == s[i]
      && (IsUpper(s[i]) ==> 0 < Placed(s, i) && r[Placed(s, i) - 1] == '_')
  {
    if |s| == 0 then []
    else
      var head := if IsUpper(s[0]) then ['_', s[0]] else [s[0]];
      var rest := UnderscoreCapitals(s[1..]);
      assert forall i | |head| <= i < |head + rest| :: (head + rest)[i] == rest[i - |head|];
      assert Placed(s, 0) == |head| - 1 by { CountCapitalsPrefix(s, 0); }
      assert forall i | 1 <= i < |s| :: Placed(s, i) == |head| + Placed(s[1..], i - 1) by {
        forall i | 1 <= i < |s| ensures Placed(s, i) == |head| + Placed(s[1..], i - 1) {
          CountCapitalsPrefix(s, i);
        }
      }
      head + rest
  }

  /** Where `s[i]` lands once an underscore is put before every capital: after one underscore per capital up to and including it. */
  function Placed(s: string, i: nat): nat
    requires i < |s|
  {
    i + CountCapitals(s[..i + 1])
  }

  /** `(name[0] + re.sub('([A-Z])', r'_\1', name[1:])).lower()` (model.py:221) */
  function SnakeCase(name: string): (r: string)
    requires |name| > 0
    ensures |r| > 0 && r[0] == ToLower(name[0])
    ensures NoCapitals(r)
  {
    Lower([name[0]] + UnderscoreCapitals(name[1..]))
  }

  /**
   The snake-cased name keeps every character of the name, lower-cased and in order:
   `name[i]` sits after one underscore per capital in `name[1..i+1]`, and a capital
   after the first position has an underscore right before it.
   */
  lemma SnakeCaseKeepsCharacters(name: string)
    requires |name| > 0
    ensures forall i | 0 <= i < |name| ::
      && i + CountCapitals(name[1..i + 1]) < |SnakeCase(name)|
      && SnakeCase(name)[i + CountCapitals(name[1..i + 1])] == ToLower(name[i])
    ensures forall i | 1 <= i < |name| && IsUpper(name[i]) ::
      SnakeCase(name)[i + CountCapitals(name[1..i + 1]) - 1] == '_'
  {
    forall i | 0 <= i < |name|
      ensures && i + CountCapitals(name[1..i + 1]) < |SnakeCase(name)|
              && SnakeCase(name)[i + CountCapitals(name[1..i + 1])] == ToLower(name[i])
    {
      SnakeCaseAt(name, i);
    }
    forall i | 1 <= i < |name| && IsUpper(name[i])
      ensures SnakeCase(name)[i + CountCapitals(name[1..i + 1]) - 1] == '_'
    {
      SnakeCaseAt(name, i);
    }
  }

  /** One position of `SnakeCaseKeepsCharacters`. */
  lemma SnakeCaseAt(name: string, i: nat)
    requires i < |name|
    ensures i + CountCapitals(name[1..i + 1]) < |SnakeCase(name)|
    ensures SnakeCase(name)[i + CountCapitals(name[1..i + 1])] == ToLower(name[i])
    ensures 1 <= i && IsUpper(name[i]) ==> SnakeCase(name)[i + CountCapitals(name[1..i + 1]) - 1] == '_'
  {
    var u := UnderscoreCapitals(name[1..]);
    var t := [name[0]] + u;
    assert SnakeCase(name) == Lower(t);
    if i == 0 {
      assert name[1..1] == [];
    } else {
      assert name[1..][..i] == name[1..i + 1];
      var p := Placed(name[1..], i - 1);
      assert i + CountCapitals(name[1..i + 1]) == 1 + p;
      assert t[1 + p] == u[p];
      if IsUpper(name[i]) {
        assert t[p] == u[p - 1];
      }
    }
  }

  /** Counting the capitals of a prefix one character at a time. */
  lemma CountCapitalsPrefix(s: string, i: nat)
    requires i < |s|
    ensures CountCapitals(s[..i + 1]) == (if IsUpper(s[0]) then 1 else 0) + CountCapitals(s[1..][..i])
  {
    assert s[..i + 1][0] == s[0];
    assert s[..i + 1][1..] == s[1..][..i];
  }

  function CountCapitals(s: string): nat
    decreases |s|
  {
    if |s| == 0 then 0 else (if IsUpper(s[0]) then 1 else 0) + CountCapitals(s[1..])
  }

  predicate NoCapitals(s: string) {
    forall i | 0 <= i < |s| :: !IsUpper(s[i])
  }

  /** Each capital letter gains exactly one underscore; nothing else is added or dropped. */
  lemma {:induction false} UnderscoreCapitalsLength(s: string)
    decreases |s|
    ensures |UnderscoreCapitals(s)| == |s| + CountCapitals(s)
  {
    if |s| > 0 {
      UnderscoreCapitalsLength(s[1..]);
    }
  }

  /** Text without capitals passes through the substitution untouched. */
  lemma {:induction false} UnderscoreCapitalsNoCapitals(s: string)
    requires NoCapitals(s)
    decreases |s|
    ensures UnderscoreCapitals(s) == s
  {
    if |s| > 0 {
      assert !IsUpper(s[0]);
      assert NoCapitals(s[1..]) by {
        forall i | 0 <= i < |s[1..]| ensures !IsUpper(s[1..][i]) { assert s[1..][i] == s[i + 1]; }
      }
      UnderscoreCapitalsNoCapitals(s[1..]);
      assert [s[0]] + s[1..] == s;
    }
  }

  /** The snake-cased name is one character longer for each capital after the first position. */
  lemma SnakeCaseLength(name: string)
    requires |name| > 0
    ensures |SnakeCase(name)| == |name| + CountCapitals(name[1..])
  {
    UnderscoreCapitalsLength(name[1..]);
  }

  /** A name that is already lower-case is its own snake case. */
  lemma SnakeCaseOfLowerCase(name: string)
    requires |name| > 0 && NoCapitals(name)
    ensures SnakeCase(name) == name
  {
    assert NoCapitals(name[1..]) by {
      forall i | 0 <= i < |name[1..]| ensures !IsUpper(name[1..][i]) { assert name[1..][i] == name[i + 1]; }
    }
    UnderscoreCapitalsNoCapitals(name[1..]);
    assert [name[0]] + name[1..] == name;
  }

  /** Snake-casing twice is snake-casing once. */
  lemma SnakeCaseIdempotent(name: string)
    requires |name| > 0
    ensures |SnakeCase(name)| > 0 && SnakeCase(SnakeCase(name)) == SnakeCase(name)
  {
    SnakeCaseOfLowerCase(SnakeCase(name));
  }

  /** `schema.get(key)` is truthy for a string-valued key: present and non-empty. */
  predicate Given(value: Option<string>) {
    value.Some? && |value.value| > 0
  }

  /**
   `collection_name()`: a non-empty `collectionName` verbatim; otherwise the
   schema's `name` (else the class name), snake-cased and then pluralised.
   */
  function CollectionName(root: Schema, className: string, plural: string -> string): (r: string)
    requires |className| > 0
    ensures Given(root.collectionName) ==> r == root.collectionName.value
    ensures !Given(root.collectionName) && Given(root.name) ==> r == plural(SnakeCase(root.name.value))
    ensures !Given(root.collectionName) && !Given(root.name) ==> r == plural(SnakeCase(className))
  {
    if Given(root.collectionName) then root.collectionName.value
    else
      var name := if Given(root.name) then root.name.value else className;
      plural(SnakeCase(name))
  }

  /** `database_name()`: a non-empty `databaseName`, else none (the default database). */
  function DatabaseName(root: Schema): (r: Option<string>)
    ensures r.Some? <==> Given(root.databaseName)
    ensures r.Some? ==> r == root.databaseName
  {
    if Given(root.databaseName) then root.databaseName else None
  }
}
