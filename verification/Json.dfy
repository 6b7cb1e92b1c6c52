/** JSON values: their canonical form, and references to identifiers in them. */
module Json {
  import opened Prelude
  import opened KeyOrder

  /** An object has a value for each key, and an order in which it enumerates them. */
  datatype Json =
    | Null
    | Bool(truth: bool)
    | Number(number: real)
    | Text(text: string)
    | Array(items: seq<Json>)
    | Object(keys: seq<string>, values: map<string, Json>)

  /** JSON values without an order of keys. */
  datatype Value =
    | NullValue
    | BoolValue(truth: bool)
    | NumberValue(number: real)
    | TextValue(text: string)
    | ArrayValue(items: seq<Value>)
    | ObjectValue(values: map<string, Value>)

  /** Objects enumerate each of their keys once, indices first. */
  ghost predicate WellFormed(v: Json) {
    match v
    case Array(items) => forall i | 0 <= i < |items| :: WellFormed(items[i])
    case Object(keys, values) =>
      && NoDuplicates(keys) && Enumerate(keys) == keys && (forall k :: k in keys <==> k in values)
      && forall k | k in values :: WellFormed(values[k])
    case _ => true
  }

  /** What a JSON value is when the order of keys is forgotten, at every depth. */
  function Unordered(v: Json): Value {
    match v
    case Null => NullValue
    case Bool(b) => BoolValue(b)
    case Number(n) => NumberValue(n)
    case Text(s) => TextValue(s)
    case Array(items) => ArrayValue(seq(|items|, i requires 0 <= i < |items| => Unordered(items[i])))
    case Object(_, values) => ObjectValue(map k | k in values :: Unordered(values[k]))
  }

  // -------------------------------------------------------- canonical form

  function Stable(v: Json): Json {
    match v
    case Array(items) => Array(seq(|items|, i requires 0 <= i < |items| => Stable(items[i])))
    case Object(keys, values) => Object(Enumerate(Sort(keys, Lexical)), map k | k in values :: Stable(values[k]))
    case _ => v
  }

  /** Every object enumerates its keys in the canonical order. */
  ghost predicate IsCanonical(v: Json) {
    match v
    case Array(items) => forall i | 0 <= i < |items| :: IsCanonical(items[i])
    case Object(keys, values) =>
      && Sorted(keys, Before) && (forall k :: k in keys <==> k in values)
      && forall k | k in values :: IsCanonical(values[k])
    case _ => true
  }

  lemma {:induction false} StableIsCanonical(v: Json)
    requires WellFormed(v)
    ensures IsCanonical(Stable(v)) && Unordered(Stable(v)) == Unordered(v)
  {
    hide Enumerate, Sort, Sorted, NoDuplicates;
    match v
    case Array(items) =>
      forall i | 0 <= i < |items|
        ensures IsCanonical(Stable(items[i])) && Unordered(Stable(items[i])) == Unordered(items[i])
      {
        StableIsCanonical(items[i]);
      }
    case Object(keys, values) =>
      SortedKeysAreOrdered(keys);
      forall k | k in values
        ensures IsCanonical(Stable(values[k])) && Unordered(Stable(values[k])) == Unordered(values[k])
      {
        StableIsCanonical(values[k]);
      }
    case _ =>
  }

  lemma {:induction false} CanonicalIsUnique(v: Json, w: Json)
    requires IsCanonical(v) && IsCanonical(w) && Unordered(v) == Unordered(w)
    ensures v == w
  {
    match v
    case Array(items) =>
      forall i | 0 <= i < |items| ensures items[i] == w.items[i] {
        assert Unordered(v).items[i] == Unordered(w).items[i];
        CanonicalIsUnique(items[i], w.items[i]);
      }
    case Object(keys, values) =>
      assert values.Keys == Unordered(v).values.Keys == Unordered(w).values.Keys == w.values.Keys;
      assert forall k :: k in keys <==> k in w.keys;
      BeforeIsOrder();
      SortedIsUnique(keys, w.keys, Before);
      forall k | k in values ensures k in w.values && values[k] == w.values[k] {
        assert Unordered(v).values[k] == Unordered(w).values[k];
        CanonicalIsUnique(values[k], w.values[k]);
      }
    case _ =>
  }

  lemma {:induction false} CanonicalIsWellFormed(v: Json)
    requires IsCanonical(v)
    ensures WellFormed(v)
  {
    match v
    case Array(items) =>
      forall i | 0 <= i < |items| ensures WellFormed(items[i]) { CanonicalIsWellFormed(items[i]); }
    case Object(keys, values) =>
      BeforeIsOrder();
      SortedIsDistinct(keys, Before);
      OrderedKeysStay(keys);
      forall k | k in values ensures WellFormed(values[k]) { CanonicalIsWellFormed(values[k]); }
    case _ =>
  }

  /** Two values have the same stable form exactly when they differ in nothing but the order of keys, at any depth. */
  lemma StableForgetsOnlyOrder(v: Json, w: Json)
    requires WellFormed(v) && WellFormed(w)
    ensures Stable(v) == Stable(w) <==> Unordered(v) == Unordered(w)
  {
    StableIsCanonical(v);
    StableIsCanonical(w);
    if Unordered(v) == Unordered(w) {
      CanonicalIsUnique(Stable(v), Stable(w));
    }
  }

  /** Making a value stable twice is making it stable once; canonical values are the ones that do not change. */
  lemma StableIsIdempotent(v: Json)
    requires WellFormed(v)
    ensures WellFormed(Stable(v)) && Stable(Stable(v)) == Stable(v)
    ensures Stable(v) == v <==> IsCanonical(v)
  {
    StableIsCanonical(v);
    CanonicalIsWellFormed(Stable(v));
    StableForgetsOnlyOrder(Stable(v), v);
    if IsCanonical(v) {
      CanonicalIsUnique(Stable(v), v);
    }
  }

  // ------------------------------------------------------------ references

  function ReplaceReference(v: Json, from: string, to: string): Json {
    match v
    case Text(s) => if s == from then Text(to) else v
    case Array(items) => Array(seq(|items|, i requires 0 <= i < |items| => ReplaceReference(items[i], from, to)))
    case Object(keys, values) => Object(Enumerate(keys), map k | k in values :: ReplaceReference(values[k], from, to))
    case _ => v
  }

  predicate ContainsReference(v: Json, references: set<string>) {
    match v
    case Text(s) => s in references
    case Array(items) => exists i :: 0 <= i < |items| && ContainsReference(items[i], references)
    case Object(_, values) => exists k :: k in values && ContainsReference(values[k], references)
    case _ => false
  }

  lemma {:induction false} ReplacedIsWellFormed(v: Json, from: string, to: string)
    requires WellFormed(v)
    ensures WellFormed(ReplaceReference(v, from, to))
  {
    match v
    case Array(items) =>
      forall i | 0 <= i < |items| { ReplacedIsWellFormed(items[i], from, to); }
    case Object(keys, values) =>
      forall k | k in values { ReplacedIsWellFormed(values[k], from, to); }
    case _ =>
  }

  /** What a value must have referred to for its renamed form to refer to something in a set. */
  function Renamed(references: set<string>, from: string, to: string): set<string> {
    (if to in references then references + {from} else references - {from})
  }

  /**
    A renamed value contains what the original would have contained under the old name, for every set of references.
   */
  lemma {:induction false} ReplacedContains(v: Json, from: string, to: string, references: set<string>)
    ensures ContainsReference(ReplaceReference(v, from, to), references) <==>
      ContainsReference(v, Renamed(references, from, to))
  {
    var r := ReplaceReference(v, from, to);
    var before := Renamed(references, from, to);
    match v
    case Array(items) =>
      forall i | 0 <= i < |items|
        ensures ContainsReference(r.items[i], references) <==> ContainsReference(items[i], before)
      {
        ReplacedContains(items[i], from, to, references);
      }
      assert |r.items| == |items|;
    case Object(keys, values) =>
      forall k | k in values
        ensures ContainsReference(r.values[k], references) <==> ContainsReference(values[k], before)
      {
        ReplacedContains(values[k], from, to, references);
      }
      assert r.values.Keys == values.Keys;
    case _ =>
  }

  /** Containing one of several references is containing some of them. */
  lemma {:induction false} ContainsUnion(v: Json, a: set<string>, b: set<string>)
    ensures ContainsReference(v, a + b) <==> ContainsReference(v, a) || ContainsReference(v, b)
  {
    match v
    case Array(items) =>
      forall i | 0 <= i < |items| { ContainsUnion(items[i], a, b); }
    case Object(keys, values) =>
      forall k | k in values { ContainsUnion(values[k], a, b); }
    case _ =>
  }

  lemma {:induction false} ContainsNothing(v: Json)
    ensures !ContainsReference(v, {})
  {
    match v
    case Array(items) =>
      forall i | 0 <= i < |items| { ContainsNothing(items[i]); }
    case Object(keys, values) =>
      forall k | k in values { ContainsNothing(values[k]); }
    case _ =>
  }

  /**
    Afterwards nothing refers to the old name, the new one is referred to if either was, and other references are as
    before.
   */
  lemma RenameMovesReferences(v: Json, from: string, to: string, other: string)
    requires from != to && other != from && other != to
    ensures var r := ReplaceReference(v, from, to);
      && !ContainsReference(r, {from})
      && (ContainsReference(r, {to}) <==> ContainsReference(v, {from}) || ContainsReference(v, {to}))
      && (ContainsReference(r, {other}) <==> ContainsReference(v, {other}))
  {
    ReplacedContains(v, from, to, {from});
    assert Renamed({from}, from, to) == {};
    ContainsNothing(v);
    ReplacedContains(v, from, to, {to});
    assert Renamed({to}, from, to) == {to} + {from};
    ContainsUnion(v, {to}, {from});
    ReplacedContains(v, from, to, {other});
    assert Renamed({other}, from, to) == {other};
  }

  /** Renaming and renaming back changes exactly the values that already referred to the new name. */
  lemma {:induction false} RenameBackRestores(v: Json, from: string, to: string)
    requires WellFormed(v) && from != to
    ensures ReplaceReference(ReplaceReference(v, from, to), to, from) == v <==> !ContainsReference(v, {to})
  {
    var r := ReplaceReference(ReplaceReference(v, from, to), to, from);
    match v
    case Array(items) =>
      forall i | 0 <= i < |items| ensures r.items[i] == items[i] <==> !ContainsReference(items[i], {to}) {
        RenameBackRestores(items[i], from, to);
      }
      assert r == v <==> forall i | 0 <= i < |items| :: r.items[i] == items[i];
    case Object(keys, values) =>
      forall k | k in values ensures r.values[k] == values[k] <==> !ContainsReference(values[k], {to}) {
        RenameBackRestores(values[k], from, to);
      }
      assert r == v <==> forall k | k in values :: r.values[k] == values[k];
    case _ =>
  }

  /** A value changes exactly if it refers to the old name. */
  lemma {:induction false} UnchangedWithoutReference(v: Json, from: string, to: string)
    requires WellFormed(v) && from != to
    ensures ReplaceReference(v, from, to) == v <==> !ContainsReference(v, {from})
  {
    var r := ReplaceReference(v, from, to);
    match v
    case Array(items) =>
      forall i | 0 <= i < |items| ensures r.items[i] == items[i] <==> !ContainsReference(items[i], {from}) {
        UnchangedWithoutReference(items[i], from, to);
      }
      assert r == v <==> forall i | 0 <= i < |items| :: r.items[i] == items[i];
    case Object(keys, values) =>
      forall k | k in values ensures r.values[k] == values[k] <==> !ContainsReference(values[k], {from}) {
        UnchangedWithoutReference(values[k], from, to);
      }
      assert r == v <==> forall k | k in values :: r.values[k] == values[k];
    case _ =>
  }

  /** Renaming and making stable can be done in either order. */
  lemma {:induction false} RenameKeepsStable(v: Json, from: string, to: string)
    requires WellFormed(v)
    ensures Stable(ReplaceReference(v, from, to)) == ReplaceReference(Stable(v), from, to)
  {
    hide Enumerate, Sort, Sorted, NoDuplicates;
    match v
    case Array(items) =>
      forall i | 0 <= i < |items| { RenameKeepsStable(items[i], from, to); }
    case Object(keys, values) =>
      SortedKeysAreOrdered(keys);
      OrderedKeysStay(Enumerate(Sort(keys, Lexical)));
      forall k | k in values { RenameKeepsStable(values[k], from, to); }
    case _ =>
  }

  /** The canonical form refers to what the value refers to. */
  lemma {:induction false} StableKeepsReferences(v: Json, references: set<string>)
    ensures ContainsReference(Stable(v), references) <==> ContainsReference(v, references)
  {
    var s := Stable(v);
    match v
    case Array(items) =>
      forall i | 0 <= i < |items|
        ensures ContainsReference(s.items[i], references) <==> ContainsReference(items[i], references)
      {
        StableKeepsReferences(items[i], references);
      }
      assert |s.items| == |items|;
    case Object(keys, values) =>
      forall k | k in values
        ensures ContainsReference(s.values[k], references) <==> ContainsReference(values[k], references)
      {
        StableKeepsReferences(values[k], references);
      }
      assert s.values.Keys == values.Keys;
    case _ =>
  }
}
