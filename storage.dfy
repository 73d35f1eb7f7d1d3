/**
 * The per-maze persistence of the route finder (dungeon/storage.ts): the disabled
 * tiles and campfire codes of a maze are kept in one stored object keyed by the first
 * ten characters of the maze image's hash, and only the five most recently modified
 * mazes are kept.
 */
module Storage {
  import opened Wrappers
  import opened Tiles
  import opened Records

  /** What is stored for one maze. */
  datatype PersistentStorageData = PersistentStorageData(
    campfireCodes: Record<string>,
    disabledTiles: seq<string>,
    lastModified: int)

  /** The stored object: one entry per maze key. */
  type StorageData = Record<PersistentStorageData>

  const MaxAmountOfStoredMaps := 5

  /** `hash.substring(0, 10)`: the key a maze is stored under. */
  function MapKey(hash: string): (k: string)
    ensures |k| == if |hash| < 10 then |hash| else 10
    ensures k == hash[..|k|]
  {
    if |hash| <= 10 then hash else hash[..10]
  }

  /** The `lastModified` of the entry under `k`. */
  function Stamp(s: StorageData, k: string): int {
    if k in s.values then s.values[k].lastModified else 0
  }

  /** An entry is well formed when its campfire object is. */
  ghost predicate EntriesValid(s: StorageData) {
    forall k :: k in s.values ==> s.values[k].campfireCodes.Valid()
  }

  /** A parsed "persistent" item: a well-formed object whose campfire objects are well formed. */
  ghost predicate StoredValid(s: StorageData) {
    s.Valid() && EntriesValid(s)
  }

  // ---------------------------------------------------------------- eviction

  /**
   * The index of the key the scan for the oldest entry settles on among the first
   * `n` keys: since the comparison is a strict `<`, a later key replaces the current
   * one only when it is strictly older.
   */
  function OldestIndex(s: StorageData, n: nat): (m: nat)
    requires 0 < n <= |s.keys|
    ensures m < n
  {
    if n == 1 then 0
    else
      var r := OldestIndex(s, n - 1);
      if Stamp(s, s.keys[n - 1]) < Stamp(s, s.keys[r]) then n - 1 else r
  }

  /** The scan settles on a smallest timestamp, and on the first key that has it. */
  lemma {:induction false} OldestIndexIsOldest(s: StorageData, n: nat)
    requires 0 < n <= |s.keys|
    ensures var m := OldestIndex(s, n);
      && (forall i :: 0 <= i < n ==> Stamp(s, s.keys[m]) <= Stamp(s, s.keys[i]))
      && (forall i :: 0 <= i < m ==> Stamp(s, s.keys[m]) < Stamp(s, s.keys[i]))
  {
    if n > 1 {
      OldestIndexIsOldest(s, n - 1);
    }
  }

  /** The key the scan settles on: the empty string it starts from when there are no keys. */
  function Oldest(s: StorageData): (k: string)
    ensures |s.keys| > 0 ==> k in s.keys
  {
    if |s.keys| == 0 then "" else s.keys[OldestIndex(s, |s.keys|)]
  }

  /** The inner loop of `removeOldMapData`, starting from an `Infinity` timestamp (`None`) and an empty key. */
  method FindOldest(s: StorageData) returns (oldestHash: string)
    requires s.Valid()
    ensures oldestHash == Oldest(s)
  {
    var oldestTimestamp: Option<int> := None;
    oldestHash := "";
    for i := 0 to |s.keys|
      invariant i == 0 ==> oldestHash == "" && oldestTimestamp == None
      invariant i > 0 ==> oldestHash == s.keys[OldestIndex(s, i)] && oldestTimestamp == Some(Stamp(s, oldestHash))
    {
      var data := s.values[s.keys[i]];
      if oldestTimestamp.None? || data.lastModified < oldestTimestamp.value {
        oldestHash, oldestTimestamp := s.keys[i], Some(data.lastModified);
      }
    }
  }

  /** Every entry of `r` is an unchanged entry of `s`. */
  ghost predicate Survivors(s: StorageData, r: StorageData) {
    forall k :: k in r.values ==> k in s.values && r.values[k] == s.values[k]
  }

  /** Every entry of `s` missing from `r` is no newer than any entry `r` keeps. */
  ghost predicate OldestGone(s: StorageData, r: StorageData) {
    forall k, j :: k in s.values && k !in r.values && j in r.values ==> Stamp(s, k) <= Stamp(s, j)
  }

  /**
   * What `removeOldMapData` leaves of `s`: a well-formed object holding `min(n, 5)`
   * of the `n` entries of `s`, each unchanged, with no deleted entry newer than a kept one.
   */
  ghost predicate Pruned(s: StorageData, r: StorageData) {
    && StoredValid(r)
    && |r.keys| == (if |s.keys| > MaxAmountOfStoredMaps then MaxAmountOfStoredMaps else |s.keys|)
    && Survivors(s, r) && OldestGone(s, r)
  }

  /** `removeOldMapData`: while more than five entries remain, delete the oldest. */
  method RemoveOldMapData(storageData: StorageData) returns (r: StorageData)
    requires StoredValid(storageData)
    ensures Pruned(storageData, r)
  {
    r := storageData;
    var overflow := |r.keys| - MaxAmountOfStoredMaps;
    ghost var done := 0;
    while overflow > 0
      invariant EvictedSoFar(storageData, r, done)
      invariant done + overflow == |storageData.keys| - MaxAmountOfStoredMaps
      invariant done == 0 || overflow >= 0
      decreases overflow
    {
      r := DeleteOldest(storageData, r, done);
      done := done + 1;
      overflow := overflow - 1;
    }
  }

  /** After `n` rounds of eviction from `s`: what the loop of `removeOldMapData` keeps true. */
  ghost predicate EvictedSoFar(s: StorageData, r: StorageData, n: int) {
    && StoredValid(r)
    && |r.keys| == |s.keys| - n
    && Survivors(s, r) && OldestGone(s, r)
  }

  /**
   * One round of `removeOldMapData`: find the oldest entry of `s` and delete it.
   * An object `s` holding unchanged entries of `s0`, with everything it lacks no
   * newer than what it holds, keeps both properties.
   */
  method DeleteOldest(ghost s0: StorageData, s: StorageData, ghost n: int) returns (r: StorageData)
    requires EvictedSoFar(s0, s, n) && |s.keys| > 0 && n >= 0
    ensures r == s.Delete(Oldest(s))
    ensures EvictedSoFar(s0, r, n + 1)
  {
    var oldestHash := FindOldest(s);
    DeleteOldestKeeps(s);
    DeleteOldestKeepsNewest(s0, s);
    SurvivorsTransitive(s0, s, s.Delete(oldestHash));
    r := s.Delete(oldestHash);
  }

  /** The key the scan settles on is no newer than any key of a well-formed object. */
  lemma OldestIsOldest(s: StorageData)
    requires s.Valid() && |s.keys| > 0
    ensures Oldest(s) in s.values
    ensures forall j :: j in s.values ==> Stamp(s, Oldest(s)) <= Stamp(s, j)
  {
    OldestIndexIsOldest(s, |s.keys|);
    forall j | j in s.values ensures Stamp(s, Oldest(s)) <= Stamp(s, j) {
      var i :| 0 <= i < |s.keys| && s.keys[i] == j;
    }
  }

  /** Deleting the oldest entry leaves a well-formed object with one entry fewer, the others unchanged. */
  lemma DeleteOldestKeeps(t: StorageData)
    requires StoredValid(t) && |t.keys| > 0
    ensures var r := t.Delete(Oldest(t));
      StoredValid(r) && |r.keys| == |t.keys| - 1 && Survivors(t, r)
  {
    DeleteValid(t, Oldest(t));
  }

  lemma SurvivorsTransitive(s: StorageData, t: StorageData, r: StorageData)
    requires Survivors(s, t) && Survivors(t, r)
    ensures Survivors(s, r)
  {
  }

  /**
   * Deleting the oldest entry of `t`, whose entries are unchanged from `s` and no
   * older than any entry of `s` it lacks, keeps the deleted entries no newer than the kept ones.
   */
  lemma DeleteOldestKeepsNewest(s: StorageData, t: StorageData)
    requires t.Valid() && |t.keys| > 0 && Survivors(s, t) && OldestGone(s, t)
    ensures OldestGone(s, t.Delete(Oldest(t)))
  {
    var m := Oldest(t);
    OldestIsOldest(t);
    var r := t.Delete(m);
    forall k, j | k in s.values && k !in r.values && j in r.values
      ensures Stamp(s, k) <= Stamp(s, j)
    {
      assert j in t.values;
      if k == m {
        assert Stamp(t, m) == Stamp(s, m) && Stamp(t, j) == Stamp(s, j);
        assert Stamp(t, m) <= Stamp(t, j);
      } else {
        assert k !in t.values;
      }
    }
  }

  // ---------------------------------------------------------------- record conversion

  /** Adding the elements of `items` to a set kept in insertion order, as `Set.add` does one by one. */
  function Added(tiles: seq<string>, items: seq<string>): seq<string>
    decreases |items|
  {
    if items == [] then tiles
    else
      var s := Added(tiles, items[..|items| - 1]);
      if Last(items) in s then s else s + [Last(items)]
  }

  /** The set keeps its elements first and in order, gains exactly the new elements, and stays duplicate-free. */
  lemma {:induction false} AddedMerges(tiles: seq<string>, items: seq<string>)
    requires Distinct(tiles)
    ensures var s := Added(tiles, items);
      && Distinct(s)
      && |tiles| <= |s|
      && s[..|tiles|] == tiles
      && forall x :: x in s <==> x in tiles || x in items
    decreases |items|
  {
    if items != [] {
      var front := items[..|items| - 1];
      AddedMerges(tiles, front);
      var s0 := Added(tiles, front);
      assert items == front + [Last(items)];
      if Last(items) !in s0 {
        assert (s0 + [Last(items)])[..|tiles|] == s0[..|tiles|];
      }
    }
  }

  /** `loadDisabledFromStorage`: every stored tile is added to the disabled set. */
  method AddDisabled(tiles: seq<string>, newDisabled: seq<string>) returns (r: seq<string>)
    ensures r == Added(tiles, newDisabled)
  {
    r := tiles;
    for i := 0 to |newDisabled|
      invariant r == Added(tiles, newDisabled[..i])
    {
      assert newDisabled[..i + 1][..i] == newDisabled[..i];
      if newDisabled[i] !in r {
        r := r + [newDisabled[i]];
      }
    }
    assert newDisabled[..|newDisabled|] == newDisabled;
  }

  /** Setting the first `n` pairs of `obj` into `codes`, in the object's key order. */
  function Merged(codes: Record<string>, obj: Record<string>, n: nat): Record<string>
    requires obj.Valid() && n <= |obj.keys|
  {
    if n == 0 then codes
    else Merged(codes, obj, n - 1).Set(obj.keys[n - 1], obj.values[obj.keys[n - 1]])
  }

  /** Merging keeps the map well formed. */
  lemma {:induction false} MergedValid(codes: Record<string>, obj: Record<string>, n: nat)
    requires codes.Valid() && obj.Valid() && n <= |obj.keys|
    ensures Merged(codes, obj, n).Valid()
  {
    if n > 0 {
      MergedValid(codes, obj, n - 1);
      SetValid(Merged(codes, obj, n - 1), obj.keys[n - 1], obj.values[obj.keys[n - 1]]);
    }
  }

  /** After merging, a key of the object has the object's value and every other key keeps its own. */
  lemma {:induction false} MergedGet(codes: Record<string>, obj: Record<string>, n: nat, k: string)
    requires obj.Valid() && n <= |obj.keys|
    ensures Merged(codes, obj, n).Get(k) == if k in obj.keys[..n] then Some(obj.values[k]) else codes.Get(k)
  {
    if n > 0 {
      MergedGet(codes, obj, n - 1, k);
      assert obj.keys[..n] == obj.keys[..n - 1] + [obj.keys[n - 1]];
    }
  }

  /** `loadCampfireFromStorage`: every stored pair is set into the campfire map. */
  method SetCampfireCodes(codes: Record<string>, newCampfire: Record<string>) returns (r: Record<string>)
    requires newCampfire.Valid()
    ensures r == Merged(codes, newCampfire, |newCampfire.keys|)
  {
    r := codes;
    for i := 0 to |newCampfire.keys|
      invariant r == Merged(codes, newCampfire, i)
    {
      var loc := newCampfire.keys[i];
      r := r.Set(loc, newCampfire.values[loc]);
    }
  }

  /** Merging into an empty map lists the object's keys in the object's order. */
  lemma {:induction false} MergedKeysOfEmpty(obj: Record<string>, n: nat)
    requires obj.Valid() && n <= |obj.keys|
    ensures Merged(Empty(), obj, n).keys == obj.keys[..n]
  {
    if n > 0 {
      MergedKeysOfEmpty(obj, n - 1);
      UniqueIsDistinct(obj.keys);
      assert obj.keys[n - 1] !in obj.keys[..n - 1];
      assert obj.keys[..n] == obj.keys[..n - 1] + [obj.keys[n - 1]];
    }
  }

  /** Merging an object into an empty map gives the object back. */
  lemma MergedIntoEmpty(obj: Record<string>)
    requires obj.Valid()
    ensures Merged(Empty(), obj, |obj.keys|) == obj
  {
    var m := Merged(Empty(), obj, |obj.keys|);
    MergedKeysOfEmpty(obj, |obj.keys|);
    assert obj.keys[..|obj.keys|] == obj.keys;
    forall k | k in obj.values ensures k in m.values && m.values[k] == obj.values[k] {
      MergedGet(Empty(), obj, |obj.keys|, k);
    }
    forall k | k in m.values ensures k in obj.values {
      MergedGet(Empty(), obj, |obj.keys|, k);
    }
    assert m.values == obj.values;
  }

  /** The loop of `savePersistentDataToStorage` copying the campfire map into a plain object. */
  method CopyCampfireCodes(codes: Record<string>) returns (obj: Record<string>)
    requires codes.Valid()
    ensures obj == codes
  {
    obj := Empty();
    for i := 0 to |codes.keys|
      invariant obj == Merged(Empty(), codes, i)
    {
      obj := obj.Set(codes.keys[i], codes.values[codes.keys[i]]);
    }
    MergedIntoEmpty(codes);
  }

  /**
   * The persistence state of the page: the hash of the loaded maze image and the
   * campfire codes and disabled tiles of the maze. The parsed "persistent" item of
   * the local storage is passed in and handed back by the methods that read and
   * write it.
   */
  class Persistence {
    var currentMapHash: string
    var campfireCodes: Record<string>
    var disabledTiles: seq<string>

    ghost predicate Valid()
      reads this
    {
      campfireCodes.Valid() && Distinct(disabledTiles)
    }

    constructor ()
      ensures Valid()
      ensures currentMapHash == "" && campfireCodes == Empty() && disabledTiles == []
    {
      currentMapHash := "";
      campfireCodes := Empty();
      disabledTiles := [];
    }

    /**
     * `savePersistentDataToStorage`: nothing without a maze hash; otherwise the maze's
     * campfire codes and disabled tiles, stamped `now`, are stored under its key and
     * every other key is left alone.
     */
    method Save(stored: StorageData, now: int) returns (item: StorageData)
      requires Valid() && StoredValid(stored)
      ensures StoredValid(item)
      ensures currentMapHash == "" ==> item == stored
      ensures currentMapHash != "" ==>
        item == stored.Set(MapKey(currentMapHash), PersistentStorageData(campfireCodes, disabledTiles, now))
    {
      item := stored;
      if currentMapHash == "" {
        return;
      }
      var newData := PersistentStorageData(Empty(), [], now);
      newData := newData.(disabledTiles := disabledTiles);
      var codes := CopyCampfireCodes(campfireCodes);
      newData := newData.(campfireCodes := codes);
      SetValid(item, MapKey(currentMapHash), newData);
      item := item.Set(MapKey(currentMapHash), newData);
    }

    /**
     * `loadPersistentDataFromStorage` once the image is hashed to `hash`: the tiles and
     * codes of the stored entry for the maze are merged into the current ones (reset
     * to empty first when there is no entry), the data is saved, and the object read
     * at the start, with the oldest entries evicted, is written back over what the
     * save wrote.
     */
    method LoadPersistentData(stored: StorageData, hash: string, now: int) returns (item: StorageData)
      requires Valid() && StoredValid(stored)
      modifies this
      ensures Valid()
      ensures currentMapHash == hash
      ensures disabledTiles == LoadedTiles(stored.Get(MapKey(hash)), old(disabledTiles))
      ensures campfireCodes == LoadedCodes(stored.Get(MapKey(hash)), old(campfireCodes))
      ensures Pruned(stored, item)
    {
      var tiles, codes := LoadEntry(stored.Get(MapKey(hash)), disabledTiles, campfireCodes);
      currentMapHash, disabledTiles, campfireCodes := hash, tiles, codes;
      var saved := Save(stored, now);
      item := RemoveOldMapData(stored);
    }
  }

  /** The disabled tiles after loading `entry`: the stored ones added to the current set, or none without an entry. */
  function LoadedTiles(entry: Option<PersistentStorageData>, tiles: seq<string>): seq<string> {
    match entry
    case None => []
    case Some(data) => Added(tiles, data.disabledTiles)
  }

  /** The campfire codes after loading `entry`: the stored ones set into the current map, or none without an entry. */
  function LoadedCodes(entry: Option<PersistentStorageData>, codes: Record<string>): Record<string>
    requires entry.Some? ==> entry.value.campfireCodes.Valid()
  {
    match entry
    case None => Empty()
    case Some(data) => Merged(codes, data.campfireCodes, |data.campfireCodes.keys|)
  }

  /**
   * The body of `loadPersistentDataFromStorage` between reading the entry and saving:
   * without an entry the persistent data is reset and an empty entry is loaded.
   */
  method LoadEntry(entry: Option<PersistentStorageData>, tiles: seq<string>, codes: Record<string>)
    returns (tiles': seq<string>, codes': Record<string>)
    requires Distinct(tiles) && codes.Valid()
    requires entry.Some? ==> entry.value.campfireCodes.Valid()
    ensures Distinct(tiles') && codes'.Valid()
    ensures tiles' == LoadedTiles(entry, tiles)
    ensures codes' == LoadedCodes(entry, codes)
  {
    var mapStorageData: PersistentStorageData;
    tiles', codes' := tiles, codes;
    if entry.None? {
      mapStorageData := PersistentStorageData(Empty(), [], 0);
      tiles', codes' := [], Empty();
    } else {
      mapStorageData := entry.value;
    }
    AddedMerges(tiles', mapStorageData.disabledTiles);
    MergedValid(codes', mapStorageData.campfireCodes, |mapStorageData.campfireCodes.keys|);
    tiles' := AddDisabled(tiles', mapStorageData.disabledTiles);
    codes' := SetCampfireCodes(codes', mapStorageData.campfireCodes);
  }

  /**
   * What is saved for a maze loads back unchanged into an empty persistent state:
   * the same disabled tiles in the same order and the same campfire codes.
   */
  lemma SaveLoadRoundTrip(s: StorageData, hash: string, codes: Record<string>, tiles: seq<string>, now: int)
    requires s.Valid() && codes.Valid() && Distinct(tiles)
    ensures var entry := s.Set(MapKey(hash), PersistentStorageData(codes, tiles, now)).Get(MapKey(hash));
      && entry.Some?
      && Added([], entry.value.disabledTiles) == tiles
      && Merged(Empty(), entry.value.campfireCodes, |entry.value.campfireCodes.keys|) == codes
  {
    SetValid(s, MapKey(hash), PersistentStorageData(codes, tiles, now));
    AddedMerges([], tiles);
    AddedOfDistinct(tiles);
    MergedIntoEmpty(codes);
  }

  /** Adding a duplicate-free list to an empty set keeps it as it is. */
  lemma {:induction false} AddedOfDistinct(items: seq<string>)
    requires Distinct(items)
    ensures Added([], items) == items
    decreases |items|
  {
    if items != [] {
      var front := items[..|items| - 1];
      assert Distinct(front);
      AddedOfDistinct(front);
      assert Last(items) !in front;
      assert items == front + [Last(items)];
    }
  }
}
