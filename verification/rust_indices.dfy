/**
 The Rust side of the newer containers
 (`rust_interface/src/merkledb_interface/{map_index,proof_map_index,proof_list_index}.rs`).

 Every exported function rebuilds the index from its name and the raw access
 it was given, then dispatches on whether that access is a fork or a
 snapshot: reads work through both, writes through a snapshot panic. The
 storage behind an access is modelled as named maps and named lists; map and
 proof-map indices share the map namespace, and the merkle hashes are
 parameters (uninterpreted functions of the contents).
 */
module RustIndices {
  import opened Common
  import opened BinaryData

  /** What an access shows of the database: map indices and list indices by name. */
  datatype Storage = Storage(maps: map<string, map<Bytes, Bytes>>, lists: map<string, seq<Bytes>>)

  /** `RawIndexAccess`: a fork (writable) or a snapshot (read-only). */
  datatype RawAccess = RawFork(storage: Storage) | RawSnapshot(storage: Storage)

  /** The panic message of every write through a snapshot. */
  const SNAPSHOT_PANIC: string := "Attempt to call mutable method with a snapshot"

  /** The panic message of `ProofListIndex::set` past the end. */
  const OUT_OF_BOUNDS_PANIC: string := "Index out of bounds"

  /** A write's outcome: the access with the write applied, or a panic. */
  datatype Written = Applied(access: RawAccess) | Panicked(message: string)

  /** The map index named `name`; an index never written is empty. */
  function MapOf(s: Storage, name: string): map<Bytes, Bytes> {
    if name in s.maps then s.maps[name] else map[]
  }

  /** The list index named `name`; an index never written is empty. */
  function ListOf(s: Storage, name: string): seq<Bytes> {
    if name in s.lists then s.lists[name] else []
  }

  /** Applies a write to a fork; the same call on a snapshot panics. */
  function WriteThrough(a: RawAccess, s': Storage): (r: Written)
    ensures r.Panicked? <==> a.RawSnapshot?
    ensures r.Panicked? ==> r.message == SNAPSHOT_PANIC
    ensures r.Applied? ==> r.access == RawFork(s')
  {
    match a
    case RawFork(_) => Applied(RawFork(s'))
    case RawSnapshot(_) => Panicked(SNAPSHOT_PANIC)
  }

  // ----------------------------------------------------------------------
  // Map and proof-map indices

  /** `get` on a (proof) map index, before encoding. */
  function MapGet(a: RawAccess, name: string, key: Bytes): (r: Option<Bytes>)
    ensures r.Some? <==> key in MapOf(a.storage, name)
    ensures r.Some? ==> r.value == MapOf(a.storage, name)[key]
  {
    var m := MapOf(a.storage, name);
    if key in m then Some(m[key]) else None
  }

  /** The exported `get`: the value encoded into a `BinaryData`. */
  function MapGetExported(a: RawAccess, name: string, key: Bytes, alloc: Allocator, l: Ledger): (BinaryData, Ledger) {
    Encode(MapGet(a, name, key), alloc, l)
  }

  /** `put`. */
  function MapPut(a: RawAccess, name: string, key: Bytes, value: Bytes): Written {
    WriteThrough(a, a.storage.(maps := a.storage.maps[name := MapOf(a.storage, name)[key := value]]))
  }

  /** `remove`. */
  function MapRemove(a: RawAccess, name: string, key: Bytes): Written {
    WriteThrough(a, a.storage.(maps := a.storage.maps[name := MapOf(a.storage, name) - {key}]))
  }

  /** `clear`. */
  function MapClear(a: RawAccess, name: string): Written {
    WriteThrough(a, a.storage.(maps := a.storage.maps[name := map[]]))
  }

  /**
   `object_hash` of a proof map: a buffer holding the hash of the map's
   contents, `data_len` its length, allocated like any other result.
   */
  function MapObjectHash(a: RawAccess, name: string, hash: map<Bytes, Bytes> -> Bytes, alloc: Allocator, l: Ledger): (r: (BinaryData, Ledger))
    ensures r.0.data == Allocate(alloc, hash(MapOf(a.storage, name)))
    ensures r.0.dataLen == |hash(MapOf(a.storage, name))|
    ensures r.1.outstanding == l.outstanding + if r.0.data.Some? then 1 else 0
  {
    Encode(Some(hash(MapOf(a.storage, name))), alloc, l)
  }

  // ----------------------------------------------------------------------
  // Proof-list index

  /** `get(idx)`, before encoding: None past the end. */
  function ListGet(a: RawAccess, name: string, idx: u64): (r: Option<Bytes>)
    ensures r.Some? <==> idx < |ListOf(a.storage, name)|
    ensures r.Some? ==> r.value == ListOf(a.storage, name)[idx]
  {
    var xs := ListOf(a.storage, name);
    if idx < |xs| then Some(xs[idx]) else None
  }

  /** `len`. */
  function ListLen(a: RawAccess, name: string): nat {
    |ListOf(a.storage, name)|
  }

  /** `push`. */
  function ListPush(a: RawAccess, name: string, value: Bytes): Written {
    WriteThrough(a, a.storage.(lists := a.storage.lists[name := ListOf(a.storage, name) + [value]]))
  }

  /**
   `set(idx, value)`: through a snapshot the dispatch panics first; through a
   fork the storage engine panics for a position past the end.
   */
  function ListSet(a: RawAccess, name: string, idx: u64, value: Bytes): (r: Written)
    ensures a.RawSnapshot? ==> r == Panicked(SNAPSHOT_PANIC)
    ensures a.RawFork? && idx >= |ListOf(a.storage, name)| ==> r == Panicked(OUT_OF_BOUNDS_PANIC)
  {
    var xs := ListOf(a.storage, name);
    match a
    case RawSnapshot(_) => Panicked(SNAPSHOT_PANIC)
    case RawFork(s) =>
      if idx < |xs| then Applied(RawFork(s.(lists := s.lists[name := xs[idx := value]])))
      else Panicked(OUT_OF_BOUNDS_PANIC)
  }

  /** `clear`. */
  function ListClear(a: RawAccess, name: string): Written {
    WriteThrough(a, a.storage.(lists := a.storage.lists[name := []]))
  }

  /** `object_hash` of a proof list: a buffer holding the hash of the list's elements in order. */
  function ListObjectHash(a: RawAccess, name: string, hash: seq<Bytes> -> Bytes, alloc: Allocator, l: Ledger): (r: (BinaryData, Ledger))
    ensures r.0.data == Allocate(alloc, hash(ListOf(a.storage, name)))
    ensures r.0.dataLen == |hash(ListOf(a.storage, name))|
    ensures r.1.outstanding == l.outstanding + if r.0.data.Some? then 1 else 0
  {
    Encode(Some(hash(ListOf(a.storage, name))), alloc, l)
  }

  // ----------------------------------------------------------------------
  // Properties

  /** Reads do not depend on whether the access is a fork or a snapshot of the same storage. */
  lemma ReadsIgnoreAccessKind(s: Storage, name: string, key: Bytes, idx: u64,
                              mh: map<Bytes, Bytes> -> Bytes, lh: seq<Bytes> -> Bytes, alloc: Allocator, l: Ledger)
    ensures MapGet(RawFork(s), name, key) == MapGet(RawSnapshot(s), name, key)
    ensures ListGet(RawFork(s), name, idx) == ListGet(RawSnapshot(s), name, idx)
    ensures ListLen(RawFork(s), name) == ListLen(RawSnapshot(s), name)
    ensures MapObjectHash(RawFork(s), name, mh, alloc, l) == MapObjectHash(RawSnapshot(s), name, mh, alloc, l)
    ensures ListObjectHash(RawFork(s), name, lh, alloc, l) == ListObjectHash(RawSnapshot(s), name, lh, alloc, l)
  {
  }

  /** Every write through a snapshot panics with the snapshot message. */
  lemma SnapshotWritesPanic(s: Storage, name: string, key: Bytes, value: Bytes, idx: u64)
    ensures MapPut(RawSnapshot(s), name, key, value) == Panicked(SNAPSHOT_PANIC)
    ensures MapRemove(RawSnapshot(s), name, key) == Panicked(SNAPSHOT_PANIC)
    ensures MapClear(RawSnapshot(s), name) == Panicked(SNAPSHOT_PANIC)
    ensures ListPush(RawSnapshot(s), name, value) == Panicked(SNAPSHOT_PANIC)
    ensures ListSet(RawSnapshot(s), name, idx, value) == Panicked(SNAPSHOT_PANIC)
    ensures ListClear(RawSnapshot(s), name) == Panicked(SNAPSHOT_PANIC)
  {
  }

  /** On a fork, put then get returns the value; other keys and other indices read as before. */
  lemma MapPutThenGet(s: Storage, name: string, key: Bytes, value: Bytes, other: string, otherKey: Bytes)
    ensures MapPut(RawFork(s), name, key, value).Applied?
    ensures var a := MapPut(RawFork(s), name, key, value).access;
      && MapGet(a, name, key) == Some(value)
      && (otherKey != key ==> MapGet(a, name, otherKey) == MapGet(RawFork(s), name, otherKey))
      && (other != name ==> MapGet(a, other, otherKey) == MapGet(RawFork(s), other, otherKey))
      && a.storage.lists == s.lists
  {
  }

  /** On a fork, remove then get returns None; other keys read as before. */
  lemma MapRemoveThenGet(s: Storage, name: string, key: Bytes, otherKey: Bytes)
    ensures MapRemove(RawFork(s), name, key).Applied?
    ensures var a := MapRemove(RawFork(s), name, key).access;
      && MapGet(a, name, key) == None
      && (otherKey != key ==> MapGet(a, name, otherKey) == MapGet(RawFork(s), name, otherKey))
  {
  }

  /** On a fork, clear empties only the named map index. */
  lemma MapClearOnlyNamed(s: Storage, name: string, other: string, key: Bytes)
    ensures MapClear(RawFork(s), name).Applied?
    ensures var a := MapClear(RawFork(s), name).access;
      && MapGet(a, name, key) == None
      && (other != name ==> MapOf(a.storage, other) == MapOf(s, other))
      && a.storage.lists == s.lists
  {
  }

  /** On a fork, push grows the list by one and `get(old len)` reads the pushed value. */
  lemma ListPushThenGet(s: Storage, name: string, value: Bytes)
    requires |ListOf(s, name)| < TWO_TO_THE_64
    ensures ListPush(RawFork(s), name, value).Applied?
    ensures var a := ListPush(RawFork(s), name, value).access;
      && ListLen(a, name) == ListLen(RawFork(s), name) + 1
      && ListGet(a, name, |ListOf(s, name)|) == Some(value)
      && (forall i: u64 | i < |ListOf(s, name)| :: ListGet(a, name, i) == ListGet(RawFork(s), name, i))
  {
  }

  /** On a fork, set within bounds replaces exactly one element and keeps the length. */
  lemma ListSetThenGet(s: Storage, name: string, idx: u64, value: Bytes)
    requires idx < |ListOf(s, name)|
    ensures ListSet(RawFork(s), name, idx, value).Applied?
    ensures var a := ListSet(RawFork(s), name, idx, value).access;
      && ListLen(a, name) == ListLen(RawFork(s), name)
      && ListGet(a, name, idx) == Some(value)
      && (forall i: u64 | i != idx :: ListGet(a, name, i) == ListGet(RawFork(s), name, i))
  {
  }

  /** On a fork, clear leaves the list empty: length 0, every get None. */
  lemma ListClearEmpties(s: Storage, name: string, idx: u64)
    ensures ListClear(RawFork(s), name).Applied?
    ensures var a := ListClear(RawFork(s), name).access;
      ListLen(a, name) == 0 && ListGet(a, name, idx) == None
  {
  }

  /** A get of an absent key or position is encoded as a null pointer with length 0. */
  lemma AbsentEncodedAsNull(a: RawAccess, name: string, key: Bytes, alloc: Allocator, l: Ledger)
    requires key !in MapOf(a.storage, name)
    ensures MapGetExported(a, name, key, alloc, l) == (BinaryData(None, 0), l)
  {
  }
}
