/**
 The in-memory key/value database of the older runtime
 (`runtime/merkledb/backends/memorydb.py`).

 The Python object is a dict from entry names to dicts of bytes. A fork or a
 snapshot looks its entry up once, when it is created: if the entry exists it
 keeps a reference to the stored dict (so its writes are visible to everyone
 holding that dict, before any merge); otherwise it gets a fresh empty dict
 that nobody else sees until the fork is merged. To model that aliasing
 exactly, the database is an arena of dicts plus a map from entry names to
 arena slots, and every fork or snapshot holds the slot it looked up.
 */
module MemoryDb {
  import opened Common

  /** One stored entry: a dict from byte keys to byte values. */
  type Store = map<Bytes, Bytes>

  /** `MemoryDB._db`, with every dict object given an arena slot. */
  datatype Db = Db(entries: map<string, nat>, dicts: seq<Store>)

  /** `_MemoryDBFork`: the entry it merges into and the dict it writes. */
  datatype Fork = Fork(entry: string, slot: nat)

  /** `_MemoryDBSnapshot`: only the dict it reads. */
  datatype Snapshot = Snapshot(slot: nat)

  /**
   Every entry refers to an existing dict, and no two entries share one
   (a dict only ever becomes an entry's value through a fork of that entry).
   */
  ghost predicate Valid(db: Db) {
    && (forall e | e in db.entries :: db.entries[e] < |db.dicts|)
    && (forall e1, e2 | e1 in db.entries && e2 in db.entries && e1 != e2 ::
          db.entries[e1] != db.entries[e2])
  }

  /** A fresh database: `MemoryDB.__init__`. */
  function Empty(): (db: Db)
    ensures Valid(db)
    ensures db.entries == map[]
  {
    Db(map[], [])
  }

  /**
   The entry addressed by `fork(name, family)` and `snapshot(name, family)`:
   `name` when the family is missing or empty (Python's `if family:`),
   `name_family` otherwise.
   */
  function EntryName(name: string, family: Option<string>): string {
    if family.Some? && family.value != "" then name + "_" + family.value else name
  }

  /**
   Looks an entry up as `self._inner.get(entry_name, dict())` does: the stored
   dict if there is one, else a newly allocated empty dict.
   */
  function Lookup(db: Db, entry: string): (r: (Db, nat))
    requires Valid(db)
    ensures Valid(r.0) && r.0.entries == db.entries
    ensures r.1 < |r.0.dicts| && db.dicts <= r.0.dicts
    ensures entry in db.entries ==> r.0 == db && r.1 == db.entries[entry]
    ensures entry !in db.entries ==>
      r.1 == |db.dicts| && r.0.dicts[r.1] == map[] && |r.0.dicts| == |db.dicts| + 1
  {
    if entry in db.entries then (db, db.entries[entry])
    else (Db(db.entries, db.dicts + [map[]]), |db.dicts|)
  }

  function OpenFork(db: Db, name: string, family: Option<string>): (r: (Db, Fork))
    requires Valid(db)
    ensures Valid(r.0) && r.0.entries == db.entries && db.dicts <= r.0.dicts
    ensures r.1.entry == EntryName(name, family) && r.1.slot < |r.0.dicts|
  {
    var (db', slot) := Lookup(db, EntryName(name, family));
    (db', Fork(EntryName(name, family), slot))
  }

  function OpenSnapshot(db: Db, name: string, family: Option<string>): (r: (Db, Snapshot))
    requires Valid(db)
    ensures Valid(r.0) && r.0.entries == db.entries && db.dicts <= r.0.dicts
    ensures r.1.slot < |r.0.dicts|
  {
    var (db', slot) := Lookup(db, EntryName(name, family));
    (db', Snapshot(slot))
  }

  /** `_MemoryDBFork.get`. */
  function ForkGet(db: Db, f: Fork, key: Bytes): Option<Bytes>
    requires f.slot < |db.dicts|
  {
    var s := db.dicts[f.slot];
    if key in s then Some(s[key]) else None
  }

  /** `_MemoryDBSnapshot.get`. */
  function SnapshotGet(db: Db, s: Snapshot, key: Bytes): Option<Bytes>
    requires s.slot < |db.dicts|
  {
    var d := db.dicts[s.slot];
    if key in d then Some(d[key]) else None
  }

  /** `_MemoryDBFork.put`: writes into the fork's dict object. */
  function Put(db: Db, f: Fork, key: Bytes, value: Bytes): (db': Db)
    requires f.slot < |db.dicts|
    ensures db'.entries == db.entries && |db'.dicts| == |db.dicts|
    ensures db'.dicts[f.slot] == db.dicts[f.slot][key := value]
    ensures forall i | 0 <= i < |db.dicts| && i != f.slot :: db'.dicts[i] == db.dicts[i]
  {
    Db(db.entries, db.dicts[f.slot := db.dicts[f.slot][key := value]])
  }

  /** `_MemoryDBFork.delete`: removes the key if present, otherwise does nothing. */
  function Delete(db: Db, f: Fork, key: Bytes): (db': Db)
    requires f.slot < |db.dicts|
    ensures db'.entries == db.entries && |db'.dicts| == |db.dicts|
    ensures db'.dicts[f.slot] == db.dicts[f.slot] - {key}
    ensures forall i | 0 <= i < |db.dicts| && i != f.slot :: db'.dicts[i] == db.dicts[i]
  {
    if key in db.dicts[f.slot] then
      Db(db.entries, db.dicts[f.slot := db.dicts[f.slot] - {key}])
    else
      db
  }

  /**
   `_MemoryDBFork.merge`, also run by `Fork.__exit__` (`runtime/merkledb/db.py`):
   the entry now refers to the fork's dict.
   */
  function Merge(db: Db, f: Fork): (db': Db)
    requires f.slot < |db.dicts|
    ensures db'.dicts == db.dicts
    ensures db'.entries == db.entries[f.entry := f.slot]
  {
    Db(db.entries[f.entry := f.slot], db.dicts)
  }

  /**
   A fork that is allowed to merge without breaking `Valid`: no OTHER entry
   refers to its dict. Every fork produced by `OpenFork` is one, and stays
   one while only this fork's put/delete/merge run.
   */
  ghost predicate Mergeable(db: Db, f: Fork) {
    && f.slot < |db.dicts|
    && forall e | e in db.entries && e != f.entry :: db.entries[e] != f.slot
  }

  // ----------------------------------------------------------------------
  // Properties

  /** Opening a fork yields a mergeable one. */
  lemma OpenForkMergeable(db: Db, name: string, family: Option<string>)
    requires Valid(db)
    ensures Mergeable(OpenFork(db, name, family).0, OpenFork(db, name, family).1)
  {
    var (db', f) := OpenFork(db, name, family);
    if f.entry in db.entries {
      forall e | e in db'.entries && e != f.entry
        ensures db'.entries[e] != f.slot
      {
      }
    } else {
      forall e | e in db'.entries && e != f.entry
        ensures db'.entries[e] != f.slot
      {
        assert db'.entries[e] < |db.dicts|;
      }
    }
  }

  /** Merging a mergeable fork keeps the database well formed. */
  lemma MergePreservesValid(db: Db, f: Fork)
    requires Valid(db) && Mergeable(db, f)
    ensures Valid(Merge(db, f))
  {
  }

  /** The two writes keep a fork mergeable and the database well formed. */
  lemma WritesPreserveMergeable(db: Db, f: Fork, key: Bytes, value: Bytes)
    requires Valid(db) && Mergeable(db, f)
    ensures Valid(Put(db, f, key, value)) && Mergeable(Put(db, f, key, value), f)
    ensures Valid(Delete(db, f, key)) && Mergeable(Delete(db, f, key), f)
  {
  }

  /** On one fork, a put is read back by get, and no other key changes. */
  lemma PutThenGet(db: Db, f: Fork, key: Bytes, value: Bytes, other: Bytes)
    requires f.slot < |db.dicts|
    ensures ForkGet(Put(db, f, key, value), f, key) == Some(value)
    ensures other != key ==> ForkGet(Put(db, f, key, value), f, other) == ForkGet(db, f, other)
  {
  }

  /** On one fork, get after delete is None, and no other key changes. */
  lemma DeleteThenGet(db: Db, f: Fork, key: Bytes, other: Bytes)
    requires f.slot < |db.dicts|
    ensures ForkGet(Delete(db, f, key), f, key) == None
    ensures other != key ==> ForkGet(Delete(db, f, key), f, other) == ForkGet(db, f, other)
  {
  }

  /** Deleting a key the fork does not hold leaves the whole database as it was. */
  lemma DeleteAbsentIsNoop(db: Db, f: Fork, key: Bytes)
    requires f.slot < |db.dicts| && ForkGet(db, f, key) == None
    ensures Delete(db, f, key) == db
  {
  }

  /**
   After a merge, a snapshot of the same name and family opened later sees
   exactly what the fork sees, key by key.
   */
  lemma MergeThenSnapshot(db: Db, f: Fork, name: string, family: Option<string>, key: Bytes)
    requires Valid(db) && Mergeable(db, f)
    requires f.entry == EntryName(name, family)
    ensures Valid(Merge(db, f))
    ensures var (db', s) := OpenSnapshot(Merge(db, f), name, family);
      db' == Merge(db, f) && SnapshotGet(db', s, key) == ForkGet(db, f, key)
  {
  }

  /**
   If the entry already exists, a fork and a snapshot opened on it share the
   stored dict: a write through the fork is visible through the snapshot
   before any merge.
   */
  lemma ExistingEntryAliases(db: Db, name: string, family: Option<string>, key: Bytes, value: Bytes)
    requires Valid(db) && EntryName(name, family) in db.entries
    ensures var (db1, f) := OpenFork(db, name, family);
      var (db2, s) := OpenSnapshot(db1, name, family);
      SnapshotGet(Put(db2, f, key, value), s, key) == Some(value)
  {
  }

  /**
   A snapshot of a name that has never been merged holds its own empty dict:
   it answers None for every key, even after a fork of that name writes and
   merges.
   */
  lemma FreshSnapshotStaysEmpty(db: Db, name: string, family: Option<string>, key: Bytes, value: Bytes)
    requires Valid(db) && EntryName(name, family) !in db.entries
    ensures var (db1, s) := OpenSnapshot(db, name, family);
      var (db2, f) := OpenFork(db1, name, family);
      && SnapshotGet(db1, s, key) == None
      && SnapshotGet(Merge(Put(db2, f, key, value), f), s, key) == None
  {
  }

  /**
   Entries with different names are isolated: a write through a fork of one
   entry never changes what a snapshot of another entry reads.
   */
  lemma DistinctEntriesIsolated(db: Db, a: string, b: string, key: Bytes, value: Bytes, probe: Bytes)
    requires Valid(db) && a != b
    ensures var (db1, f) := OpenFork(db, a, None);
      var (db2, s) := OpenSnapshot(db1, b, None);
      var db3 := Merge(Put(db2, f, key, value), f);
      SnapshotGet(db3, s, probe) == SnapshotGet(db2, s, probe)
  {
    var (db1, f) := OpenFork(db, a, None);
    var (db2, s) := OpenSnapshot(db1, b, None);
    assert f.slot != s.slot by {
      if a in db.entries && b in db.entries {
      } else if a in db.entries {
        assert s.slot == |db1.dicts|;
      } else {
        assert f.slot == |db.dicts|;
        if b in db.entries {
          assert s.slot < |db.dicts|;
        }
      }
    }
  }

  /**
   The unit test `tests/merkledb_old/memorydb.py`: two forks of "a" and "b",
   each written and merged, then snapshots of each name see only their own keys.
   */
  lemma TwoEntriesScenario()
    ensures
      var k_a: Bytes := [97]; var k_b: Bytes := [98]; var k_c: Bytes := [99]; var k_d: Bytes := [100];
      var v1: Bytes := [49, 50, 51]; var v2: Bytes := [51, 52, 53];
      var (db1, fa) := OpenFork(Empty(), "a", None);
      var db2 := Merge(Put(Put(db1, fa, k_a, v1), fa, k_b, v2), fa);
      var (db3, fb) := OpenFork(db2, "b", None);
      var db4 := Merge(Put(Put(db3, fb, k_c, v1), fb, k_d, v2), fb);
      var (db5, sa) := OpenSnapshot(db4, "a", None);
      var (db6, sb) := OpenSnapshot(db5, "b", None);
      && SnapshotGet(db6, sa, k_a) == Some(v1) && SnapshotGet(db6, sa, k_b) == Some(v2)
      && SnapshotGet(db6, sa, k_c) == None && SnapshotGet(db6, sa, k_d) == None
      && SnapshotGet(db6, sb, k_c) == Some(v1) && SnapshotGet(db6, sb, k_d) == Some(v2)
      && SnapshotGet(db6, sb, k_a) == None && SnapshotGet(db6, sb, k_b) == None
  {
  }

  /**
   Names are not injective in (name, family): the entry `a_b` is reached both
   as name "a_b" without family and as name "a" with family "b".
   */
  lemma EntryNamesCanCollide()
    ensures EntryName("a_b", None) == EntryName("a", Some("b"))
    ensures EntryName("a", Some("")) == EntryName("a", None)
  {
  }
}
