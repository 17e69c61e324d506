/**
 The database front of the newer storage layer
 (`exonum_runtime/merkledb/database.py`).

 Every index of a schema lives in its own database directory,
 `<folder>/<owner>_<index>`; the database opens one handle per declared
 index when it is created. Opening is the backend's business, so a handle
 is modelled by the path it manages.
 */
module Database {
  import opened Common
  import Schema

  /** `DatabaseOptions`: the folder holding the service's databases and the owning service's name. */
  datatype Options = Options(folder: string, owner: string)

  /** `DBHandle`: the handle the backend opened for a path. */
  datatype DbHandle = DbHandle(path: string)

  /** A database: its schema and one handle per index name. */
  datatype Database = Database(schema: Schema.SchemaClass, handles: map<string, DbHandle>)

  /** Python's `str.endswith`. */
  predicate EndsWith(s: string, suffix: string) {
    |suffix| <= |s| && s[|s| - |suffix|..] == suffix
  }

  /**
   `os.path.join(a, b)` on POSIX: an absolute `b` replaces `a`, and a
   separator is inserted unless `a` is empty or already ends with one.
   */
  function Join(a: string, b: string): (r: string)
    ensures EndsWith(r, b)
  {
    if StartsWith(b, "/") then b
    else if a == [] || EndsWith(a, "/") then a + b
    else a + "/" + b
  }

  /** `DatabaseOptions.db_path`. */
  function DbPath(o: Options, indexName: string): (r: string)
    ensures EndsWith(r, o.owner + "_" + indexName)
  {
    Join(o.folder, o.owner + "_" + indexName)
  }

  /** `Database.__init__`: a handle for each name the schema declares, opened at that name's path. */
  function Open(o: Options, schema: Schema.SchemaClass): (r: Database)
    ensures r.schema == schema
    ensures r.handles.Keys == Schema.Indices(schema)
    ensures forall n | n in r.handles :: r.handles[n].path == DbPath(o, n)
  {
    Database(schema, map n | n in Schema.Indices(schema) :: DbHandle(DbPath(o, n)))
  }

  /** `Database.handle`: None stands for the KeyError of an undeclared index. */
  function Handle(db: Database, indexName: string): (r: Option<DbHandle>)
    ensures r.Some? <==> indexName in db.handles
    ensures r.Some? ==> r.value == db.handles[indexName]
  {
    if indexName in db.handles then Some(db.handles[indexName]) else None
  }

  // ----------------------------------------------------------------------
  // Properties

  /** For fixed options, distinct index names get distinct paths. */
  lemma DbPathInjective(o: Options, n1: string, n2: string)
    requires DbPath(o, n1) == DbPath(o, n2)
    ensures n1 == n2
  {
    var b1 := o.owner + "_" + n1;
    var b2 := o.owner + "_" + n2;
    assert StartsWith(b1, "/") <==> StartsWith(b2, "/") by {
      if |o.owner| > 0 {
        assert b1[..1] == o.owner[..1] == b2[..1];
      } else {
        assert b1[..1] == "_" == b2[..1];
      }
    }
    var p := if StartsWith(b1, "/") then o.owner + "_"
             else if o.folder == [] || EndsWith(o.folder, "/") then o.folder + o.owner + "_"
             else o.folder + "/" + o.owner + "_";
    assert DbPath(o, n1) == p + n1;
    assert DbPath(o, n2) == p + n2;
    assert n1 == (p + n1)[|p|..];
    assert n2 == (p + n2)[|p|..];
  }

  /** Two distinct indices of one database never share a directory. */
  lemma DistinctIndicesDistinctHandles(o: Options, schema: Schema.SchemaClass, n1: string, n2: string)
    requires n1 in Schema.Indices(schema) && n2 in Schema.Indices(schema) && n1 != n2
    ensures Handle(Open(o, schema), n1) != Handle(Open(o, schema), n2)
  {
    if Handle(Open(o, schema), n1) == Handle(Open(o, schema), n2) {
      DbPathInjective(o, n1, n2);
    }
  }

  /** `handle` succeeds exactly for the declared indices, with the handle of that index's path. */
  lemma HandleOfDeclared(o: Options, schema: Schema.SchemaClass, n: string)
    ensures Handle(Open(o, schema), n).Some? <==> n in Schema.Indices(schema)
    ensures Handle(Open(o, schema), n).Some? ==> Handle(Open(o, schema), n).value.path == DbPath(o, n)
  {
  }
}
