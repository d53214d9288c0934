/**
 * Python dictionaries and JavaScript objects as the model sees them: a sequence of
 * entries in insertion order. Setting an existing key keeps its position, a new key
 * goes last.
 */
module OrderedDicts {
  import opened Wrappers

  /** The slot of a key (the last one, should a sequence carry a key twice). */
  function KeyIndex<K(==), V>(d: seq<(K, V)>, key: K): (r: Option<nat>)
    ensures r.Some? ==> r.value < |d| && d[r.value].0 == key
    ensures r.Some? ==> forall k :: r.value < k < |d| ==> d[k].0 != key
    ensures r.None? ==> forall k :: 0 <= k < |d| ==> d[k].0 != key
  {
    if |d| == 0 then None
    else if d[|d| - 1].0 == key then Some(|d| - 1)
    else KeyIndex(d[..|d| - 1], key)
  }

  /** `d[key]` when present. */
  function Get<K(==), V>(d: seq<(K, V)>, key: K): (r: Option<V>)
    ensures r.Some? <==> exists k :: 0 <= k < |d| && d[k].0 == key
  {
    var k := KeyIndex(d, key);
    if k.Some? then Some(d[k.value].1) else None
  }

  /** `d[key] = value`. */
  function DictSet<K(==), V>(d: seq<(K, V)>, key: K, value: V): (r: seq<(K, V)>)
    ensures KeyIndex(d, key).Some? ==> r == d[KeyIndex(d, key).value := (key, value)]
    ensures KeyIndex(d, key).None? ==> r == d + [(key, value)]
  {
    var k := KeyIndex(d, key);
    if k.Some? then d[k.value := (key, value)] else d + [(key, value)]
  }

  /** Every key appears once. */
  predicate UniqueKeys<K(==), V>(d: seq<(K, V)>)
  {
    forall i, j :: 0 <= i < j < |d| ==> d[i].0 != d[j].0
  }

  /** Reading back after a write: the written key has the new value, every other key
      keeps its own. Existing slots keep their keys and order, and uniqueness of the
      keys is preserved. */
  lemma {:induction false} GetAfterSet<K, V>(d: seq<(K, V)>, key: K, value: V, other: K)
    ensures Get(DictSet(d, key, value), key) == Some(value)
    ensures other != key ==> Get(DictSet(d, key, value), other) == Get(d, other)
  {
    var r := DictSet(d, key, value);
    var k := KeyIndex(d, key);
    if k.Some? {
      OtherSlotsKept(d, k.value, (key, value), other);
      OtherSlotsKept(d, k.value, (key, value), key);
    } else {
      assert r[|r| - 1] == (key, value) && r[..|r| - 1] == d;
    }
  }

  /** Replacing one slot by an entry with the same key leaves every lookup of another
      key where it was. */
  lemma {:induction false} OtherSlotsKept<K, V>(d: seq<(K, V)>, i: nat, e: (K, V), key: K)
    requires i < |d| && d[i].0 == e.0
    ensures KeyIndex(d[i := e], key) == KeyIndex(d, key)
    decreases |d|
  {
    var r := d[i := e];
    if |d| - 1 != i {
      assert r[..|r| - 1] == d[..|d| - 1][i := e];
      OtherSlotsKept(d[..|d| - 1], i, e, key);
    } else {
      assert r[..|r| - 1] == d[..|d| - 1];
    }
  }

  lemma SetKeepsSlots<K, V>(d: seq<(K, V)>, key: K, value: V)
    ensures var r := DictSet(d, key, value);
      |r| >= |d| && (forall k :: 0 <= k < |d| ==> r[k].0 == d[k].0)
      && (UniqueKeys(d) ==> UniqueKeys(r))
  {
  }

  /** Writing the entries of `pairs` into `d` one after the other, as a spread
      `{...d, ...pairs}` or a dict comprehension over `pairs` does. */
  function SetAll<K(==), V>(d: seq<(K, V)>, pairs: seq<(K, V)>): seq<(K, V)>
  {
    if pairs == [] then d
    else
      var last := pairs[|pairs| - 1];
      DictSet(SetAll(d, pairs[..|pairs| - 1]), last.0, last.1)
  }

  /** The value of the last entry with a key. */
  function LastValue<K(==), V>(pairs: seq<(K, V)>, key: K): (r: Option<V>)
    ensures r.Some? <==> exists j :: 0 <= j < |pairs| && pairs[j].0 == key
  {
    var k := KeyIndex(pairs, key);
    if k.Some? then Some(pairs[k.value].1) else None
  }

  /** After writing `pairs`, a key reads as its last value in `pairs`, and any key
      `pairs` does not mention keeps its value in `d`. */
  lemma {:induction false} SetAllLookup<K, V>(d: seq<(K, V)>, pairs: seq<(K, V)>, key: K)
    ensures Get(SetAll(d, pairs), key) == (if LastValue(pairs, key).Some? then LastValue(pairs, key) else Get(d, key))
  {
    if pairs != [] {
      var init := pairs[..|pairs| - 1];
      var last := pairs[|pairs| - 1];
      SetAllLookup(d, init, key);
      GetAfterSet(SetAll(d, init), last.0, last.1, key);
      if last.0 != key {
        assert KeyIndex(pairs, key) == KeyIndex(init, key);
      }
    }
  }
}
