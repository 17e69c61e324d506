/**
 Scoped access to a database (`exonum_runtime/merkledb/schema_access.py`).

 A `SchemaAccess` is used as a context manager. Inside the block, `index`
 builds a container for a declared index, opening a snapshot and (for write
 access) a fork of that index's database the first time a (name, family)
 pair is asked for, and reusing them afterwards. Leaving the block merges
 every fork and closes every snapshot. Snapshots and forks are modelled by
 what they view: a database path and a family.

 As written, `index` ends by calling `index_type(snapshot, fork)`, but every
 declared container class is constructed from a single access
 (`BaseIndex.__init__(self, access)`), so that call raises TypeError after
 the caches have been updated. `IndexAsWritten` models that; `Index` is the
 intended behaviour, building the declared class over the snapshot and fork.
 */
module SchemaAccess {
  import opened Common
  import Schema
  import Database

  datatype AccessType = Write | Read

  /** A snapshot or fork the backend opened for a handle's path and a family. */
  datatype View = SnapshotOf(path: string, family: Option<string>) | ForkOf(path: string, family: Option<string>)

  /** The cache key: index name and family. */
  type IndexId = (string, Option<string>)

  datatype SchemaAccess = SchemaAccess(
    active: bool,
    db: Database.Database,
    access: AccessType,
    forks: map<IndexId, View>,
    snapshots: map<IndexId, View>)

  /** What `index` builds: the declared container class over a snapshot and, for write access, a fork. */
  datatype IndexValue = IndexValue(indexType: Schema.PyValue, snapshot: View, fork: Option<View>)

  datatype IndexResult =
    | Built(state: SchemaAccess, index: IndexValue)
    | NotActive                   // RuntimeError("Attempt to create index from a non-active IndexAccess")
    | UndeclaredIndex(name: string)  // KeyError from `Database.handle` or `Schema.index_type`
    | ConstructorMismatch(state: SchemaAccess)  // TypeError from `index_type(snapshot, fork)`

  /** The views merged and closed on leaving the block. */
  datatype Closing = Closing(state: SchemaAccess, merged: set<View>, closed: set<View>)

  /** `SchemaAccess(db, access)`: inactive, nothing opened. */
  function New(db: Database.Database, access: AccessType): (r: SchemaAccess)
    ensures !r.active && r.forks == map[] && r.snapshots == map[]
  {
    SchemaAccess(false, db, access, map[], map[])
  }

  /** `__enter__`. */
  function Enter(sa: SchemaAccess): (r: SchemaAccess)
    ensures r.active && r == sa.(active := true)
  {
    sa.(active := true)
  }

  /** `__exit__`: merges every cached fork and closes every cached snapshot; the caches stay as they are. */
  function Exit(sa: SchemaAccess): (r: Closing)
    ensures !r.state.active && r.state == sa.(active := false)
    ensures r.merged == sa.forks.Values && r.closed == sa.snapshots.Values
  {
    Closing(sa.(active := false), sa.forks.Values, sa.snapshots.Values)
  }

  /** Forks are only cached next to a snapshot, and only under write access. */
  predicate Valid(sa: SchemaAccess) {
    && sa.forks.Keys <= sa.snapshots.Keys
    && (sa.access == Read ==> sa.forks == map[])
    && (sa.access == Write ==> sa.forks.Keys == sa.snapshots.Keys)
  }

  /**
   A name `index` gets past both lookups with: the database has a handle for
   it (`Database.handle`) and the schema declares it (`Schema.index_type`).
   */
  predicate Declared(db: Database.Database, name: string) {
    name in db.handles && name in Schema.Indices(db.schema)
  }

  /** `SchemaAccess.index(name, family)`, building the declared container over the cached snapshot and fork. */
  function Index(sa: SchemaAccess, name: string, family: Option<string>): (r: IndexResult)
    ensures r.NotActive? <==> !sa.active
    ensures r.UndeclaredIndex? <==> sa.active && !Declared(sa.db, name)
    ensures r.Built? <==> sa.active && Declared(sa.db, name)
    ensures r.Built? ==> r.index.indexType == sa.db.schema.meta[name]
  {
    if !sa.active then NotActive
    else match Database.Handle(sa.db, name)
      case None => UndeclaredIndex(name)
      case Some(handle) =>
        match Schema.IndexType(sa.db.schema, name)
        case None => UndeclaredIndex(name)
        case Some(indexType) =>
        var id := (name, family);
        if id in sa.snapshots then
          Built(sa, IndexValue(indexType, sa.snapshots[id], if id in sa.forks then Some(sa.forks[id]) else None))
        else
          var snapshot := SnapshotOf(handle.path, family);
          var fork := if sa.access == Write then Some(ForkOf(handle.path, family)) else None;
          Built(sa.(snapshots := sa.snapshots[id := snapshot],
                    forks := if fork.Some? then sa.forks[id := fork.value] else sa.forks),
                IndexValue(indexType, snapshot, fork))
  }

  /**
   `SchemaAccess.index(name, family)` as written: the same checks and the
   same cache updates, then TypeError from calling a one-access constructor
   with a snapshot and a fork.
   */
  function IndexAsWritten(sa: SchemaAccess, name: string, family: Option<string>): (r: IndexResult)
    ensures r.NotActive? <==> !sa.active
    ensures r.UndeclaredIndex? <==> sa.active && !Declared(sa.db, name)
    ensures !r.Built?
  {
    match Index(sa, name, family)
    case Built(state, _) => ConstructorMismatch(state)
    case other => other
  }

  // ----------------------------------------------------------------------
  // Properties

  /**
   As written, `index` never returns a container: for a declared name inside
   the block it raises TypeError, after caching exactly the snapshot and fork
   the intended `index` caches. So the cache properties below hold of the
   written code as well, and only the built container is missing.
   */
  lemma IndexAsWrittenNeverBuilds(sa: SchemaAccess, name: string, family: Option<string>)
    requires sa.active && Declared(sa.db, name)
    ensures IndexAsWritten(sa, name, family).ConstructorMismatch?
    ensures IndexAsWritten(sa, name, family).state == Index(sa, name, family).state
  {
  }

  /**
   The caches as written: a first call for a pair raises TypeError after
   caching one snapshot, plus a fork exactly under write access; a repeated
   call raises again and opens nothing.
   */
  lemma AsWrittenCachesThenRaises(sa: SchemaAccess, name: string, family: Option<string>)
    requires sa.active && Declared(sa.db, name) && Valid(sa)
    ensures var r1 := IndexAsWritten(sa, name, family);
      var path := sa.db.handles[name].path;
      && r1.ConstructorMismatch?
      && (name, family) in r1.state.snapshots
      && ((name, family) !in sa.snapshots ==>
            && r1.state.snapshots == sa.snapshots[(name, family) := SnapshotOf(path, family)]
            && ((name, family) in r1.state.forks <==> sa.access == Write))
      && Valid(r1.state)
      && IndexAsWritten(r1.state, name, family) == ConstructorMismatch(r1.state)
  {
  }

  /** `index` raises RuntimeError before the block is entered and after it is left. */
  lemma IndexOnlyInsideBlock(db: Database.Database, access: AccessType, name: string, family: Option<string>)
    ensures Index(New(db, access), name, family) == NotActive
    ensures Index(Exit(Enter(New(db, access))).state, name, family) == NotActive
    ensures Declared(db, name) ==> Index(Enter(New(db, access)), name, family).Built?
  {
  }

  /**
   On a database `Database.__init__` opened, the two lookups agree: `index`
   raises KeyError exactly for a name the schema does not declare, and
   builds every declared one.
   */
  lemma OpenedIndexBuildsDeclared(o: Database.Options, schema: Schema.SchemaClass, access: AccessType, name: string, family: Option<string>)
    ensures var r := Index(Enter(New(Database.Open(o, schema), access)), name, family);
      && (r.UndeclaredIndex? <==> name !in Schema.Indices(schema))
      && (r.Built? <==> name in Schema.Indices(schema))
  {
  }

  /**
   The first `index` call for a pair opens one snapshot of that index's
   database, plus a fork exactly under write access, and caches them.
   */
  lemma FirstIndexOpens(sa: SchemaAccess, name: string, family: Option<string>)
    requires sa.active && Declared(sa.db, name) && (name, family) !in sa.snapshots && Valid(sa)
    ensures var r := Index(sa, name, family);
      var path := sa.db.handles[name].path;
      && r.Built?
      && r.index.snapshot == SnapshotOf(path, family)
      && (r.index.fork.Some? <==> sa.access == Write)
      && (r.index.fork.Some? ==> r.index.fork.value == ForkOf(path, family))
      && r.state.snapshots == sa.snapshots[(name, family) := r.index.snapshot]
      && (sa.access == Read ==> r.state.forks == map[])
      && Valid(r.state)
  {
  }

  /** A repeated call for a cached pair opens nothing and returns the cached snapshot and fork. */
  lemma RepeatedIndexReuses(sa: SchemaAccess, name: string, family: Option<string>)
    requires sa.active && Declared(sa.db, name) && Valid(sa)
    ensures var r1 := Index(sa, name, family);
      r1.Built? &&
      var r2 := Index(r1.state, name, family);
      && r2 == Built(r1.state, r1.index)
  {
  }

  /** Two families of one index are distinct cache entries, viewing distinct families of the same database. */
  lemma FamiliesAreSeparate(sa: SchemaAccess, name: string, f1: Option<string>, f2: Option<string>)
    requires sa.active && Declared(sa.db, name) && Valid(sa) && f1 != f2
    requires (name, f1) !in sa.snapshots && (name, f2) !in sa.snapshots
    ensures var r1 := Index(sa, name, f1);
      r1.Built? &&
      var r2 := Index(r1.state, name, f2);
      && r2.Built?
      && r2.index.snapshot != r1.index.snapshot
      && r2.index.snapshot.path == r1.index.snapshot.path
      && |r2.state.snapshots| == |sa.snapshots| + 2
  {
  }

  /** `index` keeps the cache valid, and the container class is the one the schema declares for the name. */
  lemma IndexPreservesValid(sa: SchemaAccess, name: string, family: Option<string>)
    requires Valid(sa)
    ensures Index(sa, name, family).Built? ==> Valid(Index(sa, name, family).state)
    ensures Index(sa, name, family).Built? ==>
      name in sa.db.schema.meta && Index(sa, name, family).index.indexType == sa.db.schema.meta[name]
  {
  }

  /** Under read access leaving the block merges nothing. */
  lemma ReadAccessMergesNothing(sa: SchemaAccess)
    requires Valid(sa) && sa.access == Read
    ensures Exit(sa).merged == {}
  {
  }

  /**
   The caches outlive the block: entering again and asking for a pair seen
   before returns the snapshot that leaving the block closed.
   */
  lemma ReenteringReusesClosedSnapshot(sa: SchemaAccess, name: string, family: Option<string>)
    requires sa.active && Declared(sa.db, name) && Valid(sa)
    ensures var r1 := Index(sa, name, family);
      r1.Built? &&
      var closing := Exit(r1.state);
      var r2 := Index(Enter(closing.state), name, family);
      && r1.index.snapshot in closing.closed
      && r2.Built? && r2.index.snapshot == r1.index.snapshot
  {
    var r1 := Index(sa, name, family);
    assert r1.state.snapshots[(name, family)] == r1.index.snapshot;
  }
}
