/**
 The map fork of the oldest storage layer (`merkledb_old/indices/map_index.py`):
 a thin dict-like view of one database fork, in which a missing key raises
 KeyError.
 */
module MapFork {
  import opened Common
  import opened MemoryDb
  import OldBaseIndex

  /** `KeyError(key)`. */
  datatype MapError = KeyError(key: Bytes)

  /** A call's outcome; the database is returned on both paths. */
  datatype Outcome<T> = Ok(db: Db, value: T) | Raised(db: Db, error: MapError)

  /** `MapIndexFork.__getitem__`. */
  function GetItem(db: Db, f: Fork, key: Bytes): (r: Outcome<Bytes>)
    requires f.slot < |db.dicts|
    ensures r.db == db
    ensures r.Ok? <==> key in db.dicts[f.slot]
    ensures r.Ok? ==> r.value == db.dicts[f.slot][key]
    ensures r.Raised? ==> r.error == KeyError(key)
  {
    match ForkGet(db, f, key)
    case None => Raised(db, KeyError(key))
    case Some(v) => Ok(db, v)
  }

  /** What a read found: the value, or None when it raised. */
  function Found(o: Outcome<Bytes>): Option<Bytes> {
    if o.Ok? then Some(o.value) else None
  }

  /** `MapIndexFork.__setitem__`: a put on the fork. */
  function SetItem(db: Db, f: Fork, key: Bytes, value: Bytes): Db
    requires f.slot < |db.dicts|
  {
    Put(db, f, key, value)
  }

  /** `MapIndexFork.__delitem__`: a delete on the fork, silent when the key is absent. */
  function DelItem(db: Db, f: Fork, key: Bytes): Db
    requires f.slot < |db.dicts|
  {
    Delete(db, f, key)
  }

  /** `MapIndexFork.__exit__`: merges the fork, whatever ended the with-block. */
  function Exit(db: Db, f: Fork): Db
    requires f.slot < |db.dicts|
  {
    Merge(db, f)
  }

  /** `MapIndex`: a `BaseIndex` under another name. */
  type MapIndex = OldBaseIndex.BaseIndex

  /** `MapIndex.fork`: the base index's fork, wrapped. */
  function OpenMapFork(db: Db, index: MapIndex): (r: (Db, Fork))
    requires Valid(db)
    ensures Valid(r.0) && r.1.slot < |r.0.dicts|
    ensures Mergeable(r.0, r.1)
    ensures r.1.entry == EntryName(OldBaseIndex.IntoIndexName(index.owner, index.name), index.family)
  {
    OpenForkMergeable(db, OldBaseIndex.IntoIndexName(index.owner, index.name), index.family);
    OldBaseIndex.Fork(db, index)
  }

  // ----------------------------------------------------------------------
  // Properties

  /** Setting a key and reading it back gives the value; every other key reads as before. */
  lemma SetThenGet(db: Db, f: Fork, key: Bytes, value: Bytes, other: Bytes)
    requires f.slot < |db.dicts|
    ensures var db' := SetItem(db, f, key, value);
      && GetItem(db', f, key) == Ok(db', value)
      && (other != key ==> Found(GetItem(db', f, other)) == Found(GetItem(db, f, other)))
  {
  }

  /** After deleting a key, reading it raises KeyError; every other key reads as before. */
  lemma DelThenGet(db: Db, f: Fork, key: Bytes, other: Bytes)
    requires f.slot < |db.dicts|
    ensures var db' := DelItem(db, f, key);
      && GetItem(db', f, key) == Raised(db', KeyError(key))
      && (other != key ==> Found(GetItem(db', f, other)) == Found(GetItem(db, f, other)))
  {
  }

  /** Deleting an absent key raises nothing and changes nothing. */
  lemma DelAbsentIsNoop(db: Db, f: Fork, key: Bytes)
    requires f.slot < |db.dicts| && GetItem(db, f, key).Raised?
    ensures DelItem(db, f, key) == db
  {
  }

  /**
   Leaving the with-block publishes the fork: a snapshot of the same index
   opened afterwards reads what the fork read.
   */
  lemma ExitPublishes(db: Db, f: Fork, index: MapIndex, key: Bytes)
    requires Valid(db) && Mergeable(db, f)
    requires f.entry == EntryName(OldBaseIndex.IntoIndexName(index.owner, index.name), index.family)
    ensures Valid(Exit(db, f))
    ensures var (db', s) := OpenSnapshot(Exit(db, f), OldBaseIndex.IntoIndexName(index.owner, index.name), index.family);
      SnapshotGet(db', s, key) == ForkGet(db, f, key)
  {
    MergeThenSnapshot(db, f, OldBaseIndex.IntoIndexName(index.owner, index.name), index.family, key);
  }

  /**
   The unit test `tests/merkledb/map_index.py`: on a fresh database, two
   keys set through a map fork both read back.
   */
  lemma BasicOperationsScenario(owner: OldBaseIndex.IndexOwner)
    ensures
      var k1: Bytes := [49, 50, 51]; var v1: Bytes := [51, 52, 53];
      var k2: Bytes := [52, 53, 54]; var v2: Bytes := [54, 55, 56];
      var (db0, f) := OpenMapFork(Empty(), OldBaseIndex.BaseIndex(owner, "a", None));
      var db1 := SetItem(SetItem(db0, f, k1, v1), f, k2, v2);
      GetItem(db1, f, k1) == Ok(db1, v1) && GetItem(db1, f, k2) == Ok(db1, v2)
  {
  }
}
