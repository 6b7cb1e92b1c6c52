/**
  The order in which objects enumerate their keys: array indices first, in numeric order, then the others in the
  order in which they were added.  Characters stand for UTF-16 code units.
 */
module KeyOrder {
  import opened Prelude
  import opened OccurrenceIds

  /** The order of code units, by which keys are sorted. */
  predicate Lexical(a: string, b: string) {
    b != [] && (a == [] || a[0] < b[0] || (a[0] == b[0] && Lexical(a[1..], b[1..])))
  }

  predicate IsIndex(key: string) {
    && key != [] && (forall i | 0 <= i < |key| :: IsDigit(key[i]))
    && 0 <= ValueOf(key) < 0xFFFF_FFFF && Digits(ValueOf(key)) == key
  }

  /** The order in which an object with sorted keys enumerates them. */
  predicate Before(a: string, b: string) {
    if IsIndex(a) then IsIndex(b) ==> ValueOf(a) < ValueOf(b)
    else !IsIndex(b) && Lexical(a, b)
  }

  type Less = (string, string) -> bool

  function Insert(keys: seq<string>, key: string, less: Less): seq<string> {
    if keys == [] || less(key, keys[0]) then [key] + keys
    else [keys[0]] + Insert(keys[1..], key, less)
  }

  function Sort(keys: seq<string>, less: Less): seq<string> {
    if keys == [] then [] else Insert(Sort(keys[1..], less), keys[0], less)
  }

  function Indices(keys: seq<string>): seq<string> {
    if keys == [] then []
    else if IsIndex(keys[0]) then [keys[0]] + Indices(keys[1..]) else Indices(keys[1..])
  }

  function Others(keys: seq<string>): seq<string> {
    if keys == [] then []
    else if IsIndex(keys[0]) then Others(keys[1..]) else [keys[0]] + Others(keys[1..])
  }

  /** The keys of an object to which they were added in the given order. */
  function Enumerate(keys: seq<string>): seq<string> {
    Sort(Indices(keys), Before) + Others(keys)
  }

  // --------------------------------------------------------------- sorting

  ghost predicate Sorted(keys: seq<string>, less: Less) {
    forall i, j | 0 <= i < j < |keys| :: less(keys[i], keys[j])
  }

  /** A strict total order. */
  ghost predicate IsOrder(less: Less) {
    && (forall a: string, b: string :: a != b ==> less(a, b) || less(b, a))
    && (forall a: string, b: string :: !(less(a, b) && less(b, a)))
    && (forall a: string, b: string, c: string :: less(a, b) && less(b, c) ==> less(a, c))
  }

  lemma {:induction false} LexicalIsTotal(a: string, b: string)
    ensures a != b ==> Lexical(a, b) || Lexical(b, a)
    ensures !(Lexical(a, b) && Lexical(b, a))
  {
    if a != [] && b != [] {
      LexicalIsTotal(a[1..], b[1..]);
    }
  }

  lemma {:induction false} LexicalIsTransitive(a: string, b: string, c: string)
    requires Lexical(a, b) && Lexical(b, c)
    ensures Lexical(a, c)
  {
    if a != [] && a[0] == b[0] == c[0] {
      LexicalIsTransitive(a[1..], b[1..], c[1..]);
    }
  }

  lemma LexicalIsOrder()
    ensures IsOrder(Lexical)
  {
    forall a: string, b: string {
      LexicalIsTotal(a, b);
    }
    forall a: string, b: string, c: string | Lexical(a, b) && Lexical(b, c) ensures Lexical(a, c) {
      LexicalIsTransitive(a, b, c);
    }
  }

  lemma BeforeIsOrder()
    ensures IsOrder(Before)
  {
    LexicalIsOrder();
    forall a: string, b: string | a != b ensures Before(a, b) || Before(b, a) {
      assert Lexical(a, b) || Lexical(b, a);
    }
  }

  lemma {:induction false} InsertKeeps(keys: seq<string>, key: string, less: Less)
    ensures forall k :: k in Insert(keys, key, less) <==> k in keys || k == key
    ensures |Insert(keys, key, less)| == |keys| + 1
  {
    if keys != [] && !less(key, keys[0]) {
      InsertKeeps(keys[1..], key, less);
    }
  }

  lemma {:induction false} SortKeeps(keys: seq<string>, less: Less)
    ensures forall k :: k in Sort(keys, less) <==> k in keys
    ensures |Sort(keys, less)| == |keys|
  {
    if keys == [] {
    } else {
      SortKeeps(keys[1..], less);
      InsertKeeps(Sort(keys[1..], less), keys[0], less);
    }
  }

  lemma {:induction false} InsertSorts(keys: seq<string>, key: string, less: Less)
    requires IsOrder(less) && Sorted(keys, less) && key !in keys
    ensures Sorted(Insert(keys, key, less), less)
  {
    if keys == [] {
    } else {
      if less(key, keys[0]) {
        assert forall j | 1 <= j < |keys| :: less(keys[0], keys[j]);
      } else {
        InsertKeeps(keys[1..], key, less);
        InsertSorts(keys[1..], key, less);
        assert forall k | k in keys[1..] :: less(keys[0], k);
      }
    }
  }

  lemma {:induction false} SortSorts(keys: seq<string>, less: Less)
    requires IsOrder(less) && NoDuplicates(keys)
    ensures Sorted(Sort(keys, less), less)
  {
    if keys == [] {
    } else {
      SortSorts(keys[1..], less);
      SortKeeps(keys[1..], less);
      InsertSorts(Sort(keys[1..], less), keys[0], less);
    }
  }

  /** There is one way to sort a set of keys. */
  lemma {:induction false} SortedIsUnique(a: seq<string>, b: seq<string>, less: Less)
    requires IsOrder(less) && Sorted(a, less) && Sorted(b, less)
    requires forall k :: k in a <==> k in b
    ensures a == b
  {
    if a == [] || b == [] {
      var first := if a != [] then a[0] else if b != [] then b[0] else "";
      assert first in a <==> first in b;
    } else {
      assert a[0] in b && b[0] in a;
      assert a[0] == b[0];
      forall k ensures k in a[1..] <==> k in b[1..] {
        assert k in a[1..] <==> k in a && k != a[0];
        assert k in b[1..] <==> k in b && k != b[0];
      }
      SortedIsUnique(a[1..], b[1..], less);
    }
  }

  lemma {:induction false} PartsShare(keys: seq<string>)
    ensures forall k :: k in Indices(keys) <==> k in keys && IsIndex(k)
    ensures forall k :: k in Others(keys) <==> k in keys && !IsIndex(k)
    ensures |Indices(keys)| + |Others(keys)| == |keys|
    ensures NoDuplicates(keys) ==> NoDuplicates(Indices(keys)) && NoDuplicates(Others(keys))
  {
    if keys == [] {
    } else {
      PartsShare(keys[1..]);
      assert keys == [keys[0]] + keys[1..];
    }
  }

  lemma {:induction false} OthersStaySorted(keys: seq<string>, less: Less)
    requires Sorted(keys, less)
    ensures Sorted(Others(keys), less)
  {
    if keys == [] {
    } else {
      OthersStaySorted(keys[1..], less);
      PartsShare(keys[1..]);
      assert forall k | k in keys[1..] :: less(keys[0], k);
    }
  }

  /** An object has the keys that were added to it, once each. */
  lemma EnumerateKeeps(keys: seq<string>)
    ensures forall k :: k in Enumerate(keys) <==> k in keys
    ensures |Enumerate(keys)| == |keys|
  {
    SortKeeps(Indices(keys), Before);
    PartsShare(keys);
  }

  /** Where the keys other than indices were added in sorted order, all keys are in order. */
  lemma EnumerateSorts(keys: seq<string>)
    requires NoDuplicates(keys) && Sorted(Others(keys), Before)
    ensures Sorted(Enumerate(keys), Before)
  {
    BeforeIsOrder();
    PartsShare(keys);
    SortSorts(Indices(keys), Before);
    SortKeeps(Indices(keys), Before);
    var indices, others := Sort(Indices(keys), Before), Others(keys);
    forall i, j | 0 <= i < j < |indices + others| ensures Before((indices + others)[i], (indices + others)[j]) {
      if i < |indices| {
        assert (indices + others)[i] in Indices(keys);
      }
      if |indices| <= j {
        assert (indices + others)[j] in others;
      }
    }
  }

  /** Keys added in sorted order end up in one order, whatever order they were in before. */
  lemma SortedKeysAreOrdered(keys: seq<string>)
    requires NoDuplicates(keys)
    ensures Sorted(Enumerate(Sort(keys, Lexical)), Before)
    ensures forall k :: k in Enumerate(Sort(keys, Lexical)) <==> k in keys
  {
    var sorted := Sort(keys, Lexical);
    LexicalIsOrder();
    SortSorts(keys, Lexical);
    SortKeeps(keys, Lexical);
    PartsShare(sorted);
    OthersStaySorted(sorted, Lexical);
    SortedIsDistinct(sorted, Lexical);
    var others := Others(sorted);
    forall i, j | 0 <= i < j < |others| ensures Before(others[i], others[j]) {
      assert others[i] in others && others[j] in others;
    }
    EnumerateSorts(sorted);
    EnumerateKeeps(sorted);
  }

  /** An object whose keys are in order enumerates them in that order. */
  lemma OrderedKeysStay(keys: seq<string>)
    requires Sorted(keys, Before)
    ensures Enumerate(keys) == keys
  {
    BeforeIsOrder();
    SortedIsDistinct(keys, Before);
    OthersStaySorted(keys, Before);
    EnumerateSorts(keys);
    EnumerateKeeps(keys);
    SortedIsUnique(Enumerate(keys), keys, Before);
  }

  lemma SortedIsDistinct(keys: seq<string>, less: Less)
    requires IsOrder(less) && Sorted(keys, less)
    ensures NoDuplicates(keys)
  {}
}
