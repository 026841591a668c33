/** `SerializableDictionary<K, V>`: a dictionary with a proxy list of
    key/value pairs for XML serialisation. The serialiser reads the list
    through `KeysAndValues`; after deserialisation only the list is filled,
    and the first reader rebuilds the dictionary from it. */
module SerializableDictionary {
  import opened Wrappers

  /** `SerializableKeyValuePair`. */
  datatype Pair<K, V> = Pair(key: K, value: V)

  /** `Dictionary.Add` of each pair in turn, starting from `m`: the first key
      that is already present stops the loop with an error, keeping what was
      added before it. */
  function Load<K, V>(m: map<K, V>, pairs: seq<Pair<K, V>>): (map<K, V>, Outcome)
    decreases |pairs|
  {
    if pairs == [] then (m, Pass)
    else if pairs[0].key in m then (m, Fail(DuplicateKey))
    else Load(m[pairs[0].key := pairs[0].value], pairs[1..])
  }

  /** LINQ `ToDictionary` over a pair list: fails on a repeated key. */
  function ToMap<K, V>(pairs: seq<Pair<K, V>>): Result<map<K, V>> {
    var (m, o) := Load(map[], pairs);
    if o.Pass? then Ok(m) else Err(DuplicateKey)
  }

  /** No key occurs twice in the list. */
  ghost predicate DistinctKeys<K, V>(pairs: seq<Pair<K, V>>) {
    forall i, j :: 0 <= i < j < |pairs| ==> pairs[i].key != pairs[j].key
  }

  /** The list holds every entry of `m` exactly once, in some order. This is
      what enumerating a `Dictionary` yields; the order itself is not
      specified by .NET. */
  ghost predicate Enumerates<K, V>(pairs: seq<Pair<K, V>>, m: map<K, V>) {
    && DistinctKeys(pairs)
    && (forall i :: 0 <= i < |pairs| ==> pairs[i].key in m && m[pairs[i].key] == pairs[i].value)
    && (forall k :: k in m ==> exists i :: 0 <= i < |pairs| && pairs[i].key == k)
  }

  /** Loading succeeds exactly when the keys are distinct and new to `m`;
      it then adds every pair to `m`. */
  lemma {:induction false} LoadSucceeds<K, V>(m: map<K, V>, pairs: seq<Pair<K, V>>)
    ensures Load(m, pairs).1 == Pass <==>
      DistinctKeys(pairs) && forall i :: 0 <= i < |pairs| ==> pairs[i].key !in m
    ensures Load(m, pairs).1 == Pass ==>
      && (forall i :: 0 <= i < |pairs| ==> pairs[i].key in Load(m, pairs).0 && Load(m, pairs).0[pairs[i].key] == pairs[i].value)
      && (forall k :: k in Load(m, pairs).0 ==> k in m || exists i :: 0 <= i < |pairs| && pairs[i].key == k)
      && (forall k :: k in m ==> k in Load(m, pairs).0 && Load(m, pairs).0[k] == m[k])
    decreases |pairs|
  {
    if pairs != [] {
      var p := pairs[0];
      var tail := pairs[1..];
      if p.key in m {
        assert pairs[0].key in m;
      } else {
        var m' := m[p.key := p.value];
        LoadSucceeds(m', tail);
        assert forall i :: 1 <= i < |pairs| ==> pairs[i] == tail[i - 1];
        if Load(m', tail).1 == Pass {
          assert forall i :: 0 <= i < |tail| ==> tail[i].key !in m';
          forall i, j | 0 <= i < j < |pairs| ensures pairs[i].key != pairs[j].key {
            if i > 0 {
              assert tail[i - 1].key != tail[j - 1].key;
            } else {
              assert tail[j - 1].key !in m';
            }
          }
          var r := Load(m', tail).0;
          forall k | k in r ensures k in m || exists i :: 0 <= i < |pairs| && pairs[i].key == k {
            if k !in m' {
              var i :| 0 <= i < |tail| && tail[i].key == k;
              assert pairs[i + 1].key == k;
            } else if k == p.key {
              assert pairs[0].key == k;
            }
          }
        } else {
          if !DistinctKeys(tail) {
            var i, j :| 0 <= i < j < |tail| && tail[i].key == tail[j].key;
            assert pairs[i + 1].key == pairs[j + 1].key;
          } else {
            var i :| 0 <= i < |tail| && tail[i].key in m';
            if tail[i].key in m {
              assert pairs[i + 1].key in m;
            } else {
              assert pairs[0].key == pairs[i + 1].key;
            }
          }
        }
      }
    }
  }

  /** Round trip: the pairs that `KeysAndValues` produces load, into an
      empty dictionary, to the very map they came from. */
  lemma RoundTrip<K, V>(pairs: seq<Pair<K, V>>, m: map<K, V>)
    requires Enumerates(pairs, m)
    ensures Load(map[], pairs) == (m, Pass)
    ensures ToMap(pairs) == Ok(m)
  {
    LoadSucceeds(map[], pairs);
    var r := Load(map[], pairs).0;
    forall k | k in m ensures k in r && r[k] == m[k] {
      var i :| 0 <= i < |pairs| && pairs[i].key == k;
    }
    forall k | k in r ensures k in m {
      var i :| 0 <= i < |pairs| && pairs[i].key == k;
    }
    assert r == m;
  }

  /** A list with a repeated key (as a hand-edited XML file may hold) cannot
      be loaded. */
  lemma RepeatedKeyFails<K, V>(pairs: seq<Pair<K, V>>, i: nat, j: nat)
    requires i < j < |pairs| && pairs[i].key == pairs[j].key
    ensures Load(map[], pairs).1 == Fail(DuplicateKey)
    ensures ToMap(pairs) == Err(DuplicateKey)
  {
    LoadSucceeds(map[], pairs);
    LoadFails(map[], pairs);
  }

  lemma {:induction false} LoadFails<K, V>(m: map<K, V>, pairs: seq<Pair<K, V>>)
    ensures Load(m, pairs).1 == Pass || Load(m, pairs).1 == Fail(DuplicateKey)
    decreases |pairs|
  {
    if pairs != [] && pairs[0].key !in m {
      LoadFails(m[pairs[0].key := pairs[0].value], pairs[1..]);
    }
  }

  class SerializableDictionary<K(==), V(==)> {
    /** The `Dictionary` property. */
    var dict: map<K, V>
    /** The proxy list `_list`; a null list reads as an empty one. */
    var list: seq<Pair<K, V>>

    constructor ()
      ensures dict == map[] && list == []
    {
      dict := map[];
      list := [];
    }

    /** `Add(key, value)` and `Add(pair)`: fail on a key already present. */
    method Add(key: K, value: V) returns (o: Outcome)
      modifies this
      ensures list == old(list)
      ensures key in old(dict) ==> o == Fail(DuplicateKey) && dict == old(dict)
      ensures key !in old(dict) ==> o == Pass && dict == old(dict)[key := value]
    {
      if key in dict {
        o := Fail(DuplicateKey);
      } else {
        dict := dict[key := value];
        o := Pass;
      }
    }

    /** `Remove(key)`: an absent key is no error. */
    method Remove(key: K)
      modifies this
      ensures list == old(list)
      ensures dict == old(dict) - {key}
    {
      dict := dict - {key};
    }

    /** `Remove(pair)`: removes the key only when it maps to that value. */
    method RemovePair(item: Pair<K, V>)
      modifies this
      ensures list == old(list)
      ensures item.key in old(dict) && old(dict)[item.key] == item.value ==> dict == old(dict) - {item.key}
      ensures !(item.key in old(dict) && old(dict)[item.key] == item.value) ==> dict == old(dict)
    {
      if item.key in dict && dict[item.key] == item.value {
        dict := dict - {item.key};
      }
    }

    /** `RebuildInternalDictionary`: when the dictionary is empty and the
        list is not, every pair of the list is added in order. */
    method Rebuild() returns (o: Outcome)
      modifies this
      ensures list == old(list)
      ensures |old(dict)| == 0 && |list| > 0 ==> (dict, o) == Load(old(dict), list)
      ensures !(|old(dict)| == 0 && |list| > 0) ==> dict == old(dict) && o == Pass
    {
      o := Pass;
      if |dict| == 0 && |list| > 0 {
        var i := 0;
        while i < |list|
          invariant 0 <= i <= |list|
          invariant list == old(list)
          invariant Load(old(dict), list) == Load(dict, list[i..])
        {
          var p := list[i];
          assert list[i..][0] == p;
          assert list[i..][1..] == list[i + 1..];
          if p.key in dict {
            o := Fail(DuplicateKey);
            return;
          }
          dict := dict[p.key := p.value];
          i := i + 1;
        }
        assert list[i..] == [];
      }
    }

    /** `Count`: rebuilds first; a failed rebuild propagates. */
    method Count() returns (r: Result<int>)
      modifies this
      ensures list == old(list)
      ensures var (m, o) := if |old(dict)| == 0 && |list| > 0 then Load(old(dict), list) else (old(dict), Pass);
        dict == m && r == (if o.Pass? then Ok(|m|) else Err(DuplicateKey))
    {
      var o := Rebuild();
      if o.Fail? {
        return Err(DuplicateKey);
      }
      r := Ok(|dict|);
    }

    /** The indexer: rebuilds first, then fails for a missing key. */
    method Get(key: K) returns (r: Result<V>)
      modifies this
      ensures list == old(list)
      ensures var (m, o) := if |old(dict)| == 0 && |list| > 0 then Load(old(dict), list) else (old(dict), Pass);
        && dict == m
        && r == (if o.Fail? then Err(DuplicateKey) else if key in m then Ok(m[key]) else Err(KeyNotFound))
    {
      var o := Rebuild();
      if o.Fail? {
        return Err(DuplicateKey);
      }
      if key in dict {
        r := Ok(dict[key]);
      } else {
        r := Err(KeyNotFound);
      }
    }

    /** `Keys` and `Values`: rebuild first, then list the dictionary's keys
        and their values in one enumeration order, which is returned too. */
    method KeysAndValuesLists() returns (r: Result<(seq<K>, seq<V>)>, pairs: seq<Pair<K, V>>)
      modifies this
      ensures list == old(list)
      ensures var (m, o) := if |old(dict)| == 0 && |list| > 0 then Load(old(dict), list) else (old(dict), Pass);
        && dict == m
        && (o.Fail? ==> r == Err(DuplicateKey))
        && (o.Pass? ==>
              (&& r.Ok? && Enumerates(pairs, m)
               && r.value.0 == seq(|pairs|, i requires 0 <= i < |pairs| => pairs[i].key)
               && r.value.1 == seq(|pairs|, i requires 0 <= i < |pairs| => pairs[i].value)))
    {
      pairs := [];
      var o := Rebuild();
      if o.Fail? {
        return Err(DuplicateKey), pairs;
      }
      pairs := Enumerate(dict);
      var ks := seq(|pairs|, i requires 0 <= i < |pairs| => pairs[i].key);
      var vs := seq(|pairs|, i requires 0 <= i < |pairs| => pairs[i].value);
      r := Ok((ks, vs));
    }

    /** The `KeysAndValues` getter: a non-empty dictionary replaces the list
        by its own entries; an empty one leaves the list as it is. */
    method KeysAndValues() returns (r: seq<Pair<K, V>>)
      modifies this
      ensures dict == old(dict)
      ensures |dict| > 0 ==> Enumerates(list, dict)
      ensures |dict| == 0 ==> list == old(list)
      ensures r == list
    {
      if |dict| > 0 {
        list := Enumerate(dict);
      }
      r := list;
    }

    /** `ToDictionary()`: the map of the `KeysAndValues` pairs. */
    method ToDictionary() returns (r: Result<map<K, V>>)
      modifies this
      ensures dict == old(dict)
      ensures |dict| > 0 ==> r == Ok(dict)
      ensures |dict| == 0 ==> list == old(list) && r == ToMap(list)
    {
      var pairs := KeysAndValues();
      if |dict| > 0 {
        RoundTrip(pairs, dict);
      }
      r := ToMap(pairs);
    }
  }

  /** Enumerating a dictionary: each entry once, in an order of the
      enumerator's choosing. */
  method Enumerate<K, V>(m: map<K, V>) returns (pairs: seq<Pair<K, V>>)
    ensures Enumerates(pairs, m)
  {
    pairs := [];
    var rest := m.Keys;
    while rest != {}
      invariant rest <= m.Keys
      invariant DistinctKeys(pairs)
      invariant forall i :: 0 <= i < |pairs| ==> pairs[i].key in m && m[pairs[i].key] == pairs[i].value && pairs[i].key !in rest
      invariant forall k :: k in m ==> k in rest || exists i :: 0 <= i < |pairs| && pairs[i].key == k
      decreases |rest|
    {
      var k :| k in rest;
      ghost var before := pairs;
      pairs := pairs + [Pair(k, m[k])];
      rest := rest - {k};
      forall k' | k' in m ensures k' in rest || exists i :: 0 <= i < |pairs| && pairs[i].key == k' {
        if k' == k {
          assert pairs[|before|].key == k';
        } else if k' !in rest {
          var i :| 0 <= i < |before| && before[i].key == k';
          assert pairs[i].key == k';
        }
      }
    }
  }

  /** Serialising through `KeysAndValues` and loading the list into a fresh
      instance, as the XML deserialiser does, gives back the same map. */
  method SerializeRoundTrip<K(==), V(==)>(d: SerializableDictionary<K, V>) returns (r: Result<int>, copy: SerializableDictionary<K, V>)
    requires |d.dict| > 0
    modifies d
    ensures d.dict == old(d.dict)
    ensures fresh(copy) && copy.dict == d.dict && r == Ok(|d.dict|)
  {
    var pairs := d.KeysAndValues();
    copy := new SerializableDictionary();
    copy.list := pairs;
    RoundTrip(pairs, d.dict);
    r := copy.Count();
  }
}
