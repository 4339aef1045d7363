/**
The storage-backed key registry. Keys are held under their hexadecimal form in a tree ordered by that text; to a
caller it is a map from key bytes to the information last saved, listed in the order of the bytes.
 */
module KeyRegistries {
  import opened Prelude
  import opened Hex

  datatype KeyInfo = KeyInfo(publicKey: Bytes, node: string, metadata: map<string, string>)

  datatype Persisted = Persisted(publicKey: string, node: string, metadata: map<string, string>)

  /** An ordered tree, as the sequence of its entries. */
  type Tree = seq<(string, Persisted)>

  function Persist(info: KeyInfo): Persisted {
    Persisted(ToHex(info.publicKey), info.node, info.metadata)
  }

  function Decode(p: Persisted): Result<KeyInfo, HexError> {
    match ParseHex(p.publicKey)
    case Ok(key) => Ok(KeyInfo(key, p.node, p.metadata))
    case Err(e) => Err(e)
  }

  function TreeInsert(t: Tree, k: string, p: Persisted): Tree {
    if t == [] || TextBefore(k, t[0].0) then [(k, p)] + t
    else if k == t[0].0 then [(k, p)] + t[1..]
    else [t[0]] + TreeInsert(t[1..], k, p)
  }

  function Find(t: Tree, k: string): Option<Persisted> {
    if t == [] then None else if t[0].0 == k then Some(t[0].1) else Find(t[1..], k)
  }

  function Add(t: Tree, info: KeyInfo): Tree {
    TreeInsert(t, ToHex(info.publicKey), Persist(info))
  }

  function AddAll(t: Tree, infos: seq<KeyInfo>): Tree
    decreases |infos|
  {
    if infos == [] then t else AddAll(Add(t, infos[0]), infos[1..])
  }

  /** Entries that cannot be decoded are skipped. */
  function Listing(t: Tree): seq<KeyInfo> {
    if t == [] then []
    else
      match Decode(t[0].1)
      case Ok(info) => [info] + Listing(t[1..])
      case Err(_) => Listing(t[1..])
  }

  // -- The registry as it is written --

  class StorageKeyRegistry {
    var keys: Tree

    constructor ()
      ensures keys == []
    {
      keys := [];
    }

    /** A failed write to storage is reported, but the key stays registered in memory. */
    method SaveKey(info: KeyInfo, storageOk: bool) returns (ok: bool)
      modifies this
      ensures keys == Add(old(keys), info) && ok == storageOk
    {
      var hexKey := ToHexLoop(info.publicKey);
      keys := TreeInsert(keys, hexKey, Persisted(hexKey, info.node, info.metadata));
      ok := storageOk;
    }

    method SaveKeys(infos: seq<KeyInfo>, storageOk: bool) returns (ok: bool)
      modifies this
      ensures keys == AddAll(old(keys), infos) && ok == storageOk
    {
      var i := 0;
      assert infos[0..] == infos;
      while i < |infos|
        invariant 0 <= i <= |infos|
        invariant AddAll(keys, infos[i..]) == AddAll(old(keys), infos)
      {
        assert infos[i..][1..] == infos[i + 1..];
        var _ := SaveKey(infos[i], true);
        i := i + 1;
      }
      ok := storageOk;
    }

    method GetKey(publicKey: Bytes) returns (r: Option<Result<KeyInfo, HexError>>)
      ensures r == match Find(keys, ToHex(publicKey)) case Some(p) => Some(Decode(p)) case None => None
    {
      var hexKey := ToHexLoop(publicKey);
      var i := 0;
      assert keys[0..] == keys;
      while i < |keys|
        invariant 0 <= i <= |keys|
        invariant Find(keys[i..], hexKey) == Find(keys, hexKey)
      {
        assert keys[i..][1..] == keys[i + 1..];
        if keys[i].0 == hexKey {
          return Some(Decode(keys[i].1));
        }
        i := i + 1;
      }
      return None;
    }
  }

  class KeyRegistryIter {
    const registry: StorageKeyRegistry
    var index: nat

    constructor (registry: StorageKeyRegistry)
      ensures this.registry == registry && index == 0
    {
      this.registry, index := registry, 0;
    }

    /** Steps over bad entries to the next good one, if there is one. */
    method Next() returns (r: Option<KeyInfo>)
      requires index <= |registry.keys|
      modifies this
      ensures index <= |registry.keys|
      ensures Listing(registry.keys[old(index)..])
              == (if r.Some? then [r.value] else []) + Listing(registry.keys[index..])
      ensures r.None? ==> Listing(registry.keys[index..]) == []
    {
      ghost var start := index;
      while index < |registry.keys|
        invariant start <= index <= |registry.keys|
        invariant Listing(registry.keys[start..]) == Listing(registry.keys[index..])
      {
        assert registry.keys[index..][1..] == registry.keys[index + 1..];
        var decoded := Decode(registry.keys[index].1);
        index := index + 1;
        if decoded.Ok? {
          return Some(decoded.value);
        }
      }
      return None;
    }
  }

  /** An entry is good iff its key can be parsed, and then it decodes to that key and what was stored with it. */
  lemma DecodesIff(p: Persisted, info: KeyInfo)
    ensures Decode(p) == Ok(info)
            <==> ParseHex(p.publicKey) == Ok(info.publicKey) && p.node == info.node && p.metadata == info.metadata
    ensures Decode(p).Err? <==> ParseHex(p.publicKey).Err?
  {
  }

  /** Every good entry of any tree is listed, after those before it, whatever bad ones there are. */
  lemma {:induction false} GoodEntriesAreListed(t: Tree, i: nat)
    requires i < |t| && Decode(t[i].1).Ok?
    ensures Listing(t) == Listing(t[..i]) + [Decode(t[i].1).value] + Listing(t[i + 1..])
  {
    if i == 0 {
      assert t[..0] == [];
    } else {
      GoodEntriesAreListed(t[1..], i - 1);
      assert t[1..][..i - 1] == t[..i][1..] && t[1..][i..] == t[i + 1..];
    }
  }

  lemma {:induction false} BadEntriesAreSkipped(t: Tree, i: nat)
    requires i < |t| && Decode(t[i].1).Err?
    ensures Listing(t) == Listing(t[..i]) + Listing(t[i + 1..])
  {
    if i == 0 {
      assert t[..0] == [];
    } else {
      BadEntriesAreSkipped(t[1..], i - 1);
      assert t[1..][..i - 1] == t[..i][1..] && t[1..][i..] == t[i + 1..];
    }
  }

  // -- A map of keys, listed in order --

  ghost predicate Sorted(t: Tree) {
    forall i, j | 0 <= i < j < |t| :: TextBefore(t[i].0, t[j].0)
  }

  /** Each entry is filed under the printed form of the key it decodes to. */
  ghost predicate Filed(e: (string, Persisted)) {
    e.0 == e.1.publicKey && Decode(e.1).Ok? && ToHex(Decode(e.1).value.publicKey) == e.0
  }

  ghost predicate WellKept(t: Tree) {
    Sorted(t) && forall e <- t :: Filed(e)
  }

  lemma SortedCons(e: (string, Persisted), t: Tree)
    requires Sorted(t) && forall x <- t :: TextBefore(e.0, x.0)
    ensures Sorted([e] + t)
  {
  }

  lemma {:induction false} InsertIsExact(t: Tree, k: string, p: Persisted)
    ensures forall e <- TreeInsert(t, k, p) :: e == (k, p) || e in t
  {
    if t != [] && !TextBefore(k, t[0].0) && k != t[0].0 {
      InsertIsExact(t[1..], k, p);
    }
  }

  lemma {:induction false} InsertKeepsSorted(t: Tree, k: string, p: Persisted)
    requires Sorted(t)
    ensures Sorted(TreeInsert(t, k, p))
  {
    if t != [] {
      var head, tail := t[0], t[1..];
      assert Sorted(tail);
      forall x | x in tail
        ensures TextBefore(head.0, x.0)
      {
      }
      if TextBefore(k, head.0) {
        forall x | x in t
          ensures TextBefore(k, x.0)
        {
          if x != head {
            TextBeforeIsTransitive(k, head.0, x.0);
          }
        }
        SortedCons((k, p), t);
      } else if k == head.0 {
        SortedCons((k, p), tail);
      } else {
        TextBeforeIsTotal(k, head.0);
        InsertKeepsSorted(tail, k, p);
        InsertIsExact(tail, k, p);
        SortedCons(head, TreeInsert(tail, k, p));
      }
    }
  }

  lemma {:induction false} FindAfterInsert(t: Tree, k: string, p: Persisted, other: string)
    requires Sorted(t)
    ensures Find(TreeInsert(t, k, p), other) == if other == k then Some(p) else Find(t, other)
  {
    if t != [] {
      var tail := t[1..];
      assert Sorted(tail);
      if TextBefore(k, t[0].0) {
        assert ([(k, p)] + t)[1..] == t;
      } else if k == t[0].0 {
        assert ([(k, p)] + tail)[1..] == tail;
      } else {
        FindAfterInsert(tail, k, p, other);
        assert ([t[0]] + TreeInsert(tail, k, p))[1..] == TreeInsert(tail, k, p);
      }
    } else {
      assert ([(k, p)] + t)[1..] == [];
    }
  }

  lemma PersistDecodes(info: KeyInfo)
    ensures Decode(Persist(info)) == Ok(info) && Filed((ToHex(info.publicKey), Persist(info)))
  {
    ParseInvertsPrint(info.publicKey);
  }

  lemma AddKeepsWell(t: Tree, info: KeyInfo)
    requires WellKept(t)
    ensures WellKept(Add(t, info))
  {
    var k, p := ToHex(info.publicKey), Persist(info);
    InsertKeepsSorted(t, k, p);
    InsertIsExact(t, k, p);
    PersistDecodes(info);
  }

  /** What a caller saved last under `key`, or what was there before. */
  function LastSaved(infos: seq<KeyInfo>, key: Bytes): Option<KeyInfo> {
    if infos == [] then None
    else if infos[|infos| - 1].publicKey == key then Some(infos[|infos| - 1])
    else LastSaved(infos[..|infos| - 1], key)
  }

  function Lookup(t: Tree, key: Bytes): Option<Result<KeyInfo, HexError>> {
    match Find(t, ToHex(key)) case Some(p) => Some(Decode(p)) case None => None
  }

  lemma {:induction false} AddAllSnoc(t: Tree, infos: seq<KeyInfo>, info: KeyInfo)
    ensures AddAll(t, infos + [info]) == Add(AddAll(t, infos), info)
    decreases |infos|
  {
    if infos == [] {
      assert ([] + [info])[1..] == [];
      assert infos + [info] == [info];
    } else {
      assert (infos + [info])[1..] == infos[1..] + [info];
      AddAllSnoc(Add(t, infos[0]), infos[1..], info);
    }
  }

  /** Any sequence of saves makes the registry the map from key bytes to the information saved last. */
  lemma {:induction false} RegistryIsAMap(infos: seq<KeyInfo>, key: Bytes)
    ensures WellKept(AddAll([], infos))
    ensures Lookup(AddAll([], infos), key) == match LastSaved(infos, key) case Some(i) => Some(Ok(i)) case None => None
  {
    if infos != [] {
      var before, info := infos[..|infos| - 1], infos[|infos| - 1];
      assert infos == before + [info];
      RegistryIsAMap(before, key);
      AddAllSnoc([], before, info);
      AddKeepsWell(AddAll([], before), info);
      PersistDecodes(info);
      FindAfterInsert(AddAll([], before), ToHex(info.publicKey), Persist(info), ToHex(key));
      ParseInvertsPrint(info.publicKey);
      ParseInvertsPrint(key);
    }
  }

  lemma {:induction false} ListingMirrorsTree(t: Tree)
    requires forall e <- t :: Filed(e)
    ensures |Listing(t)| == |t|
    ensures forall i | 0 <= i < |t| :: Ok(Listing(t)[i]) == Decode(t[i].1)
  {
    if t != [] {
      assert t[0] in t;
      ListingMirrorsTree(t[1..]);
    }
  }

  lemma {:induction false} FindsEachEntry(t: Tree, i: nat)
    requires Sorted(t) && i < |t|
    ensures Find(t, t[i].0) == Some(t[i].1)
  {
    if i > 0 {
      TextBeforeIsTotal(t[0].0, t[i].0);
      FindsEachEntry(t[1..], i - 1);
    }
  }

  lemma {:induction false} FoundIsEntry(t: Tree, k: string)
    requires Find(t, k).Some?
    ensures exists i: nat | i < |t| :: t[i] == (k, Find(t, k).value)
  {
    if t[0].0 != k {
      FoundIsEntry(t[1..], k);
      var i: nat :| i < |t[1..]| && t[1..][i] == (k, Find(t, k).value);
      assert t[i + 1] == (k, Find(t, k).value);
    }
  }

  /** The listing has one entry per saved key, as last saved, in the order of the key bytes. */
  lemma ListingIsOrdered(infos: seq<KeyInfo>)
    ensures
      var t := AddAll([], infos);
      var list := Listing(t);
      && |list| == |t|
      && (forall i, j | 0 <= i < j < |list| :: BytesBefore(list[i].publicKey, list[j].publicKey))
      && (forall i | 0 <= i < |list| :: LastSaved(infos, list[i].publicKey) == Some(list[i]))
      && (forall key: Bytes | LastSaved(infos, key).Some? :: LastSaved(infos, key).value in list)
  {
    var t := AddAll([], infos);
    var list := Listing(t);
    RegistryIsAMap(infos, []);
    ListingMirrorsTree(t);
    forall i, j | 0 <= i < j < |list|
      ensures BytesBefore(list[i].publicKey, list[j].publicKey)
    {
      assert t[i] in t && t[j] in t;
      PrintKeepsOrder(list[i].publicKey, list[j].publicKey);
    }
    forall i | 0 <= i < |list|
      ensures LastSaved(infos, list[i].publicKey) == Some(list[i])
    {
      assert t[i] in t;
      FindsEachEntry(t, i);
      RegistryIsAMap(infos, list[i].publicKey);
    }
    forall key: Bytes | LastSaved(infos, key).Some?
      ensures LastSaved(infos, key).value in list
    {
      RegistryIsAMap(infos, key);
      FoundIsEntry(t, ToHex(key));
      var i: nat :| i < |t| && t[i] == (ToHex(key), Find(t, ToHex(key)).value);
      assert list[i] == LastSaved(infos, key).value;
    }
  }
}
