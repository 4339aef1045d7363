/**
A two-way map kept as two one-way maps that are changed together. `insert` overwrites in each direction on its
own, so the two halves need not stay inverse to each other; the lemmas say exactly when they do.
 */
module BiHashMaps {
  import opened Prelude

  datatype BiMap<K, V> = BiMap(kv: map<K, V>, vk: map<V, K>)

  function Put<K, V>(b: BiMap<K, V>, k: K, v: V): BiMap<K, V> {
    BiMap(b.kv[k := v], b.vk[v := k])
  }

  function DropKey<K, V>(b: BiMap<K, V>, k: K): (BiMap<K, V>, Option<(K, V)>) {
    if k !in b.kv then (b, None)
    else
      var v := b.kv[k];
      (BiMap(b.kv - {k}, b.vk - {v}), if v in b.vk then Some((b.vk[v], v)) else None)
  }

  function DropValue<K, V>(b: BiMap<K, V>, v: V): (BiMap<K, V>, Option<(K, V)>) {
    if v !in b.vk then (b, None)
    else
      var k := b.vk[v];
      (BiMap(b.kv - {k}, b.vk - {v}), if k in b.kv then Some((k, b.kv[k])) else None)
  }

  function Get<K, V>(m: map<K, V>, k: K): Option<V> {
    if k in m then Some(m[k]) else None
  }

  /** Every key can be found again from its value; in particular no two keys share a value. */
  ghost predicate HalfInverse<K, V>(b: BiMap<K, V>) {
    forall k <- b.kv :: b.kv[k] in b.vk && b.vk[b.kv[k]] == k
  }

  ghost predicate Inverse<K, V>(b: BiMap<K, V>) {
    HalfInverse(b) && forall v <- b.vk :: b.vk[v] in b.kv && b.kv[b.vk[v]] == v
  }

  /** The value is still held by some other key. */
  predicate Displaces<K(==), V(==)>(b: BiMap<K, V>, k: K, v: V) {
    v in b.vk && b.vk[v] != k && b.vk[v] in b.kv && b.kv[b.vk[v]] == v
  }

  /** Inserting keeps every key recoverable exactly when it takes no value away from another key. */
  lemma PutKeepsHalfInverse<K, V>(b: BiMap<K, V>, k: K, v: V)
    requires HalfInverse(b)
    ensures HalfInverse(Put(b, k, v)) <==> !Displaces(b, k, v)
  {
    var b' := Put(b, k, v);
    if Displaces(b, k, v) {
      assert b'.kv[b.vk[v]] == v && b'.vk[v] != b.vk[v];
    } else {
      forall j | j in b'.kv
        ensures b'.kv[j] in b'.vk && b'.vk[b'.kv[j]] == j
      {
        assert j != k ==> b.vk[b.kv[j]] == j;
      }
    }
  }

  /** Inserting keeps the two halves inverse exactly when it overwrites nothing else, in either direction. */
  lemma PutKeepsInverse<K, V>(b: BiMap<K, V>, k: K, v: V)
    requires Inverse(b)
    ensures Inverse(Put(b, k, v)) <==> Get(b.kv, k) in {None, Some(v)} && Get(b.vk, v) in {None, Some(k)}
  {
    var b' := Put(b, k, v);
    if k in b.kv && b.kv[k] != v {
      assert b'.vk[b.kv[k]] == k && b'.kv[k] != b.kv[k];
    } else if v in b.vk && b.vk[v] != k {
      assert b'.kv[b.vk[v]] == v && b'.vk[v] != b.vk[v];
    }
  }

  /** Removal keeps both properties, and hands back the pair it removed exactly when the key was there. */
  lemma DropKeyKeepsInverses<K, V>(b: BiMap<K, V>, k: K)
    requires HalfInverse(b)
    ensures
      var (b', r) := DropKey(b, k);
      && HalfInverse(b')
      && (Inverse(b) ==> Inverse(b'))
      && b'.kv == b.kv - {k}
      && b'.vk.Keys <= b.vk.Keys
      && r == (if k in b.kv then Some((k, b.kv[k])) else None)
  {
  }

  /** The same from the value's side, for halves that are inverse. */
  lemma DropValueKeepsInverse<K, V>(b: BiMap<K, V>, v: V)
    requires Inverse(b)
    ensures
      var (b', r) := DropValue(b, v);
      && Inverse(b')
      && b'.vk == b.vk - {v}
      && r == (if v in b.vk then Some((b.vk[v], v)) else None)
  {
  }

  /** Removing what was just inserted restores the map, from either side. */
  lemma DropUndoesPut<K, V>(b: BiMap<K, V>, k: K, v: V)
    requires k !in b.kv && v !in b.vk
    ensures DropKey(Put(b, k, v), k) == (b, Some((k, v)))
    ensures DropValue(Put(b, k, v), v) == (b, Some((k, v)))
  {
    var b' := Put(b, k, v);
    assert b'.kv - {k} == b.kv && b'.vk - {v} == b.vk;
  }

  /** Exactly when an insertion keeps the two maps the same size: the key and the value are both new or both old. */
  lemma PutKeepsSizesIff<K, V>(b: BiMap<K, V>, k: K, v: V)
    requires |b.kv| == |b.vk|
    ensures |Put(b, k, v).kv| == |Put(b, k, v).vk| <==> (k in b.kv <==> v in b.vk)
  {
    PutGrows(b.kv, k, v);
    PutGrows(b.vk, v, k);
  }

  lemma PutGrows<K, V>(m: map<K, V>, k: K, v: V)
    ensures |m[k := v]| == |m| + if k in m then 0 else 1
  {
    assert m[k := v].Keys == m.Keys + {k};
  }

  lemma DropShrinks<K, V>(m: map<K, V>, k: K)
    ensures |m - {k}| == |m| - if k in m then 1 else 0
  {
    assert (m - {k}).Keys == m.Keys - {k};
  }

  /** Exactly when a removal keeps them the same size: what it finds on one side is on the other side too. */
  lemma DropKeepsSizesIff<K, V>(b: BiMap<K, V>, k: K, v: V)
    requires |b.kv| == |b.vk|
    ensures |DropKey(b, k).0.kv| == |DropKey(b, k).0.vk| <==> (k in b.kv ==> b.kv[k] in b.vk)
    ensures |DropValue(b, v).0.kv| == |DropValue(b, v).0.vk| <==> (v in b.vk ==> b.vk[v] in b.kv)
  {
    DropShrinks(b.kv, k);
    DropShrinks(b.vk, v);
    if k in b.kv {
      DropShrinks(b.vk, b.kv[k]);
    }
    if v in b.vk {
      DropShrinks(b.kv, b.vk[v]);
    }
  }

  /** Both maps are empty, or neither is. */
  predicate EmptyTogether<K(==), V(==)>(b: BiMap<K, V>) {
    b.kv.Keys == {} <==> b.vk.Keys == {}
  }

  /** An insertion leaves neither map empty. */
  lemma PutKeepsEmptyTogether<K, V>(b: BiMap<K, V>, k: K, v: V)
    ensures EmptyTogether(Put(b, k, v))
  {
    assert k in Put(b, k, v).kv.Keys && v in Put(b, k, v).vk.Keys;
  }

  /** Exactly when a removal keeps that: what it takes is the last of one map iff it is the last of the other. */
  lemma DropKeepsEmptyTogetherIff<K, V>(b: BiMap<K, V>, k: K, v: V)
    requires EmptyTogether(b)
    ensures EmptyTogether(DropKey(b, k).0) <==> (k in b.kv ==> (b.kv.Keys == {k} <==> b.vk.Keys <= {b.kv[k]}))
    ensures EmptyTogether(DropValue(b, v).0) <==> (v in b.vk ==> (b.vk.Keys == {v} <==> b.kv.Keys <= {b.vk[v]}))
  {
    if k in b.kv {
      DropEmptiesIff(b.kv, k);
      DropEmptiesIff(b.vk, b.kv[k]);
    }
    if v in b.vk {
      DropEmptiesIff(b.vk, v);
      DropEmptiesIff(b.kv, b.vk[v]);
    }
  }

  lemma DropEmptiesIff<K, V>(m: map<K, V>, k: K)
    ensures (m - {k}).Keys == {} <==> m.Keys <= {k}
    ensures k in m ==> (m.Keys == {k} <==> m.Keys <= {k})
  {
    assert (m - {k}).Keys == m.Keys - {k};
  }

  /** Inverse halves have one size, so the sizes can differ only once the halves have come apart. */
  lemma InverseHalvesMatch<K, V>(b: BiMap<K, V>)
    requires Inverse(b)
    ensures |b.kv| == |b.vk|
    decreases |b.kv|
  {
    if b.kv != map[] {
      var k :| k in b.kv;
      DropKeyKeepsInverses(b, k);
      DropShrinks(b.kv, k);
      DropShrinks(b.vk, b.kv[k]);
      InverseHalvesMatch(DropKey(b, k).0);
    }
  }

  /** One map can be empty while the other is not: one key inserted with two values, and then removed. */
  lemma SharedKeyLeavesOneMapEmpty()
    ensures
      var b := DropKey(Put(Put(BiMap(map[], map[]), "ONE", 1), "ONE", 2), "ONE").0;
      b.kv == map[] && b.vk == map[1 := "ONE"]
  {
    var b := Put(Put(BiMap(map[], map[]), "ONE", 1), "ONE", 2);
    assert b.kv - {"ONE"} == map[];
    assert b.vk - {2} == map[1 := "ONE"];
  }

  /** The halves do come apart: two keys inserted with one value leave the first key unrecoverable. */
  lemma SharedValueBreaksHalfInverse()
    ensures
      var b := Put(Put(BiMap(map[], map[]), "ONE", 1), "TWO", 1);
      && |b.kv| == 2 && |b.vk| == 1
      && !HalfInverse(b)
      && DropKey(DropKey(b, "TWO").0, "ONE").1 == None
      && "ONE" in DropKey(b, "TWO").0.kv
  {
    var b := Put(Put(BiMap(map[], map[]), "ONE", 1), "TWO", 1);
    assert b.kv["ONE"] == 1 && b.vk[1] == "TWO" && "ONE" != "TWO";
    assert b.kv.Keys == {"ONE", "TWO"} && b.vk.Keys == {1};
  }

  class BiHashMap<K(==), V(==)> {
    var kv: map<K, V>
    var vk: map<V, K>

    ghost function Value(): BiMap<K, V>
      reads this
    {
      BiMap(kv, vk)
    }

    constructor ()
      ensures Value() == BiMap(map[], map[])
    {
      kv, vk := map[], map[];
    }

    method Insert(key: K, value: V) returns (oldKey: Option<K>, oldValue: Option<V>)
      modifies this
      ensures Value() == Put(old(Value()), key, value)
      ensures oldKey == Get(old(vk), value) && oldValue == Get(old(kv), key)
    {
      oldValue := Get(kv, key);
      kv := kv[key := value];
      oldKey := Get(vk, value);
      vk := vk[value := key];
    }

    method RemoveByKey(key: K) returns (r: Option<(K, V)>)
      modifies this
      ensures (Value(), r) == DropKey(old(Value()), key)
    {
      r := None;
      if key in kv {
        var value := kv[key];
        kv := kv - {key};
        if value in vk {
          r := Some((vk[value], value));
        }
        vk := vk - {value};
      }
    }

    method RemoveByValue(value: V) returns (r: Option<(K, V)>)
      modifies this
      ensures (Value(), r) == DropValue(old(Value()), value)
    {
      r := None;
      if value in vk {
        var key := vk[value];
        vk := vk - {value};
        if key in kv {
          r := Some((key, kv[key]));
        }
        kv := kv - {key};
      }
    }
  }
}
