/**
 Schema declarations (`exonum_runtime/merkledb/schema.py`).

 A `Schema` subclass declares its indices as class annotations, name to
 index class; its metaclass checks them and records them in `_schema_meta`.
 A `WithSchema` subclass names its schema in `_schema_` and may name, in
 `_state_hash_`, the indices the state hash is computed from; its metaclass
 checks both. Python values that can appear in these places are modelled by
 what the checks can tell apart.
 */
module Schema {
  import opened Common
  import Containers

  /** A value used as an index type: one of the container classes, another class, or not a class at all. */
  datatype PyValue = IndexClass(kind: Containers.IndexKind) | OtherClass(name: string) | NonClass

  /** The errors the schema metaclass raises. */
  datatype SchemaError =
    | NotDerivedFromSchema            // TypeError("Schemas should be derived from Schema class")
    | NoAnnotations                   // AttributeError("Schema must provide information about used indices")
    | IncorrectIndexType(t: PyValue)  // AttributeError("Incorrect index type: ...")
    | NotAClass                       // TypeError from issubclass on a non-class
    | UnpackMismatch                  // ValueError from unpacking a string into two names

  /** A created schema class: its `_schema_meta`. */
  datatype SchemaClass = SchemaClass(meta: map<string, PyValue>)

  /** The outcome of defining a class with `_SchemaMeta`: `Schema` itself passes unchecked. */
  datatype Declared = Declared(cls: SchemaClass) | SchemaProxy | Failed(error: SchemaError)

  /** No name occurs twice, as in the keys of a dict. */
  predicate DistinctNames(ann: seq<(string, PyValue)>) {
    forall i, j | 0 <= i < j < |ann| :: ann[i].0 != ann[j].0
  }

  /**
   A class's `__annotations__`: a dict from name to type, in declaration
   order. A name annotated twice keeps one entry, so each name occurs once.
   */
  type Annotations = ann: seq<(string, PyValue)> | DistinctNames(ann)

  /**
   `_SchemaMeta.__new__` as written. Line 101 iterates the annotations dict
   itself, which yields its keys (strings), and unpacks each key into
   `index_name, index_type`: a key of length other than 2 raises ValueError,
   and a key of length 2 unpacks into two strings, so `issubclass` raises
   TypeError on the first. Only an empty annotations dict gets through.
   */
  function SchemaMetaAsWritten(name: string, bases: seq<string>, annotations: Option<Annotations>): (r: Declared)
    ensures name != "Schema" && "Schema" in bases && annotations.Some? ==>
      (r.Declared? <==> annotations.value == [])
  {
    if name == "Schema" then SchemaProxy
    else if "Schema" !in bases then Failed(NotDerivedFromSchema)
    else if annotations.None? then Failed(NoAnnotations)
    else if annotations.value == [] then Declared(SchemaClass(map[]))
    else if |annotations.value[0].0| != 2 then Failed(UnpackMismatch)
    else Failed(NotAClass)
  }

  /** `issubclass(t, BaseIndex)`, or the error it leads to. */
  function CheckIndexType(t: PyValue): (r: Option<SchemaError>)
    ensures r.None? <==> t.IndexClass?
  {
    match t
    case IndexClass(_) => None
    case OtherClass(_) => Some(IncorrectIndexType(t))
    case NonClass => Some(NotAClass)
  }

  /** The loop over `annotations.items()`: stops at the first bad type, otherwise records each pair in `meta`. */
  function CollectMeta(ann: Annotations, meta: map<string, PyValue>): (r: Declared)
    ensures r.Declared? || r.Failed?
  {
    if ann == [] then Declared(SchemaClass(meta))
    else match CheckIndexType(ann[0].1)
      case Some(e) => Failed(e)
      case None => CollectMeta(ann[1..], meta[ann[0].0 := ann[0].1])
  }

  /** `_SchemaMeta.__new__` as evidently intended: line 101 iterating `annotations.items()`. */
  function SchemaMeta(name: string, bases: seq<string>, annotations: Option<Annotations>): (r: Declared)
    ensures name == "Schema" <==> r.SchemaProxy?
    ensures name != "Schema" && "Schema" !in bases ==> r == Failed(NotDerivedFromSchema)
    ensures name != "Schema" && "Schema" in bases && annotations.None? ==> r == Failed(NoAnnotations)
  {
    if name == "Schema" then SchemaProxy
    else if "Schema" !in bases then Failed(NotDerivedFromSchema)
    else if annotations.None? then Failed(NoAnnotations)
    else CollectMeta(annotations.value, map[])
  }

  /** `Schema.indices()`: the declared names. */
  function Indices(c: SchemaClass): (r: set<string>)
    ensures forall n :: n in r <==> IndexType(c, n).Some?
  {
    c.meta.Keys
  }

  /** `Schema.index_type(name)`: the declared type, None standing for the KeyError of an undeclared name. */
  function IndexType(c: SchemaClass, name: string): (r: Option<PyValue>)
    ensures r.Some? <==> name in c.meta
    ensures r.Some? ==> r.value == c.meta[name]
  {
    if name in c.meta then Some(c.meta[name]) else None
  }

  // ----------------------------------------------------------------------
  // Properties of the corrected declaration

  /** The annotated names. */
  function Names(ann: Annotations): set<string> {
    set i | 0 <= i < |ann| :: ann[i].0
  }

  /** Every annotation carries a container class. */
  predicate AllIndexClasses(ann: Annotations) {
    forall i | 0 <= i < |ann| :: ann[i].1.IndexClass?
  }

  /** The names of a non-empty annotation list: the first name and those of the rest. */
  lemma NamesCons(ann: Annotations)
    requires ann != []
    ensures Names(ann) == {ann[0].0} + Names(ann[1..])
  {
    forall x | x in Names(ann) ensures x in {ann[0].0} + Names(ann[1..]) {
      var i :| 0 <= i < |ann| && ann[i].0 == x;
      if i > 0 { assert ann[1..][i - 1].0 == x; }
    }
    forall x | x in Names(ann[1..]) ensures x in Names(ann) {
      var i :| 0 <= i < |ann[1..]| && ann[1..][i].0 == x;
      assert ann[i + 1].0 == x;
    }
  }

  /** Collecting succeeds exactly when every annotated type is a container class. */
  lemma {:induction false} CollectMetaAccepts(ann: Annotations, meta: map<string, PyValue>)
    ensures CollectMeta(ann, meta).Declared? <==> AllIndexClasses(ann)
    decreases |ann|
  {
    if ann != [] {
      CollectMetaAccepts(ann[1..], meta[ann[0].0 := ann[0].1]);
      if AllIndexClasses(ann[1..]) && ann[0].1.IndexClass? {
        forall i | 0 <= i < |ann| ensures ann[i].1.IndexClass? {
          if i > 0 { assert ann[i] == ann[1..][i - 1]; }
        }
      }
      if AllIndexClasses(ann) {
        forall i | 0 <= i < |ann[1..]| ensures ann[1..][i].1.IndexClass? {
          assert ann[1..][i] == ann[i + 1];
        }
      }
    }
  }

  /** A successful collection holds the starting names plus every annotated name. */
  lemma {:induction false} CollectMetaKeys(ann: Annotations, meta: map<string, PyValue>)
    requires CollectMeta(ann, meta).Declared?
    ensures CollectMeta(ann, meta).cls.meta.Keys == meta.Keys + Names(ann)
    decreases |ann|
  {
    if ann != [] {
      CollectMetaKeys(ann[1..], meta[ann[0].0 := ann[0].1]);
      NamesCons(ann);
    }
  }

  /** In a successful collection, each annotated name maps to its annotated type. */
  lemma {:induction false} CollectMetaLast(ann: Annotations, meta: map<string, PyValue>, i: int)
    requires CollectMeta(ann, meta).Declared? && 0 <= i < |ann|
    ensures ann[i].0 in CollectMeta(ann, meta).cls.meta
    ensures CollectMeta(ann, meta).cls.meta[ann[i].0] == ann[i].1
    decreases |ann|
  {
    var meta' := meta[ann[0].0 := ann[0].1];
    if i == 0 {
      forall k | 0 <= k < |ann[1..]| ensures ann[1..][k].0 != ann[0].0 {
        assert ann[1..][k] == ann[k + 1];
      }
      CollectMetaKeeps(ann[1..], meta', ann[0].0);
    } else {
      assert ann[i] == ann[1..][i - 1];
      CollectMetaLast(ann[1..], meta', i - 1);
    }
  }

  /** A successful collection keeps the starting entry of every name not annotated. */
  lemma {:induction false} CollectMetaKeeps(ann: Annotations, meta: map<string, PyValue>, n: string)
    requires CollectMeta(ann, meta).Declared? && n in meta && n !in Names(ann)
    ensures n in CollectMeta(ann, meta).cls.meta
    ensures CollectMeta(ann, meta).cls.meta[n] == meta[n]
    decreases |ann|
  {
    if ann != [] {
      NamesCons(ann);
      CollectMetaKeeps(ann[1..], meta[ann[0].0 := ann[0].1], n);
    }
  }

  /**
   A schema derived from `Schema` with annotations is created exactly when
   every annotated type is a container class; its `_schema_meta` has exactly
   the annotated names, each with its annotated type.
   */
  lemma SchemaMetaAcceptsIndexAnnotations(name: string, bases: seq<string>, ann: Annotations)
    requires name != "Schema" && "Schema" in bases
    ensures SchemaMeta(name, bases, Some(ann)).Declared? <==> AllIndexClasses(ann)
    ensures SchemaMeta(name, bases, Some(ann)).Declared? ==>
      var c := SchemaMeta(name, bases, Some(ann)).cls;
      && Indices(c) == Names(ann)
      && (forall i | 0 <= i < |ann| :: IndexType(c, ann[i].0) == Some(ann[i].1))
  {
    CollectMetaAccepts(ann, map[]);
    if CollectMeta(ann, map[]).Declared? {
      CollectMetaKeys(ann, map[]);
      forall i | 0 <= i < |ann|
        ensures IndexType(SchemaMeta(name, bases, Some(ann)).cls, ann[i].0) == Some(ann[i].1)
      {
        CollectMetaLast(ann, map[], i);
      }
    }
  }

  /** In a created schema every declared name's type is a container class. */
  lemma {:induction false} DeclaredTypesAreIndexClasses(ann: Annotations, meta: map<string, PyValue>, n: string)
    requires forall k | k in meta :: meta[k].IndexClass?
    requires CollectMeta(ann, meta).Declared? && n in CollectMeta(ann, meta).cls.meta
    ensures CollectMeta(ann, meta).cls.meta[n].IndexClass?
    decreases |ann|
  {
    if ann != [] {
      DeclaredTypesAreIndexClasses(ann[1..], meta[ann[0].0 := ann[0].1], n);
    }
  }

  /**
   As written, the schema of the documentation example is rejected: the
   single annotation `wallets: ProofMapIndex` makes line 101 unpack the
   string "wallets", which raises ValueError, whereas the corrected loop
   records it.
   */
  lemma DocumentedSchemaRejected()
    ensures SchemaMetaAsWritten("CurrencySchema", ["Schema"], Some([("wallets", IndexClass(Containers.ProofMapIndex))]))
      == Failed(UnpackMismatch)
    ensures SchemaMeta("CurrencySchema", ["Schema"], Some([("wallets", IndexClass(Containers.ProofMapIndex))]))
      == Declared(SchemaClass(map["wallets" := IndexClass(Containers.ProofMapIndex)]))
  {
  }

  // ----------------------------------------------------------------------
  // WithSchema

  /** What `_schema_` holds: unset (or None), a schema class, a class that is not a schema, or no class at all. */
  datatype SchemaAttr = SchemaUnset | SchemaType(cls: SchemaClass) | NonSchemaClass | SchemaNonClass

  /** One element of a `_state_hash_` list. */
  datatype StateHashItem = StrItem(s: string) | NonStrItem

  /** What `_state_hash_` holds: unset (or None), not a list, or a list. */
  datatype StateHashAttr = StateHashUnset | StateHashNotList | StateHashList(items: seq<StateHashItem>)

  /**
   The body of a class defined with `_WithSchemaMeta`: its `_schema_`, its
   `_state_hash_`, and a `_schema_meta` of its own, which a class body
   normally does not define.
   */
  datatype WithSchemaDict = WithSchemaDict(schema: SchemaAttr, stateHash: StateHashAttr, ownMeta: Option<map<string, PyValue>>)

  /** The errors the `WithSchema` metaclass raises. */
  datatype WithSchemaError =
    | NotDerivedFromWithSchema   // TypeError("Classes with schema should be derived from WithSchema class")
    | IncorrectSchemaAttribute   // AttributeError("_schema_ variable must be ...")
    | SchemaNotAClass            // TypeError from issubclass on a non-class
    | StateHashNotStrings        // AttributeError("_state_hash_ attribute must be a list of strings")
    | NotPartOfSchema(item: string)  // AttributeError("Item '...' is not a part of defined _schema_")
    | SchemaMetaMissing          // KeyError('_schema_meta')

  datatype WithSchemaResult = Accepted | WithSchemaProxy | Refused(error: WithSchemaError)

  /**
   The loop over `_state_hash_`: each item must be a string found in
   `meta`; None for `meta` is the KeyError of a missing `_schema_meta`.
   */
  function CheckStateHash(items: seq<StateHashItem>, meta: Option<map<string, PyValue>>): (r: Option<WithSchemaError>)
  {
    if items == [] then None
    else match items[0]
      case NonStrItem => Some(StateHashNotStrings)
      case StrItem(s) =>
        if meta.None? then Some(SchemaMetaMissing)
        else if s !in meta.value then Some(NotPartOfSchema(s))
        else CheckStateHash(items[1..], meta)
  }

  /** The checks shared by both versions, up to the `_state_hash_` loop, which reads `meta`. */
  function WithSchemaCheck(name: string, bases: seq<string>, dct: WithSchemaDict, meta: Option<map<string, PyValue>>): WithSchemaResult {
    if name == "WithSchema" then WithSchemaProxy
    else if "WithSchema" !in bases then Refused(NotDerivedFromWithSchema)
    else match dct.schema
      case SchemaUnset => Refused(IncorrectSchemaAttribute)
      case NonSchemaClass => Refused(IncorrectSchemaAttribute)
      case SchemaNonClass => Refused(SchemaNotAClass)
      case SchemaType(_) =>
        match dct.stateHash
        case StateHashUnset => Accepted
        case StateHashNotList => Refused(StateHashNotStrings)
        case StateHashList(items) =>
          match CheckStateHash(items, meta)
          case None => Accepted
          case Some(e) => Refused(e)
  }

  /** `_WithSchemaMeta.__new__` as written: line 40 looks the names up in the new class's own body. */
  function WithSchemaMetaAsWritten(name: string, bases: seq<string>, dct: WithSchemaDict): (r: WithSchemaResult)
    ensures name == "WithSchema" <==> r.WithSchemaProxy?
  {
    WithSchemaCheck(name, bases, dct, dct.ownMeta)
  }

  /** `_WithSchemaMeta.__new__` as evidently intended: the names are looked up in the `_schema_meta` of `_schema_`. */
  function WithSchemaMeta(name: string, bases: seq<string>, dct: WithSchemaDict): (r: WithSchemaResult)
    ensures name == "WithSchema" <==> r.WithSchemaProxy?
  {
    WithSchemaCheck(name, bases, dct, if dct.schema.SchemaType? then Some(dct.schema.cls.meta) else None)
  }

  /** Every state-hash item is a string naming one of `names`. */
  predicate NamesIndices(items: seq<StateHashItem>, names: set<string>) {
    forall i | 0 <= i < |items| :: items[i].StrItem? && items[i].s in names
  }

  /** The state-hash loop accepts exactly lists of declared names. */
  lemma {:induction false} CheckStateHashSpec(items: seq<StateHashItem>, meta: map<string, PyValue>)
    ensures CheckStateHash(items, Some(meta)).None? <==> NamesIndices(items, meta.Keys)
    decreases |items|
  {
    if items != [] {
      CheckStateHashSpec(items[1..], meta);
      if NamesIndices(items[1..], meta.Keys) && items[0].StrItem? && items[0].s in meta {
        forall i | 0 <= i < |items| ensures items[i].StrItem? && items[i].s in meta.Keys {
          if i > 0 { assert items[i] == items[1..][i - 1]; }
        }
      }
      if NamesIndices(items, meta.Keys) {
        assert items[0].StrItem? && items[0].s in meta.Keys;
        forall i | 0 <= i < |items[1..]| ensures items[1..][i].StrItem? && items[1..][i].s in meta.Keys {
          assert items[1..][i] == items[i + 1];
        }
      }
    }
  }

  /**
   With the corrected lookup, a class derived from `WithSchema` whose
   `_schema_` is a schema is accepted exactly when `_state_hash_` is unset or
   is a list of names the schema declares.
   */
  lemma WithSchemaAcceptsDeclaredNames(name: string, bases: seq<string>, dct: WithSchemaDict)
    requires name != "WithSchema" && "WithSchema" in bases && dct.schema.SchemaType?
    ensures WithSchemaMeta(name, bases, dct).Accepted? <==>
      (dct.stateHash.StateHashUnset? ||
       (dct.stateHash.StateHashList? && NamesIndices(dct.stateHash.items, Indices(dct.schema.cls))))
  {
    if dct.stateHash.StateHashList? {
      CheckStateHashSpec(dct.stateHash.items, dct.schema.cls.meta);
    }
  }

  /** Without a proper `_schema_` a class is refused, in both versions. */
  lemma WithSchemaNeedsSchema(name: string, bases: seq<string>, dct: WithSchemaDict)
    requires name != "WithSchema" && !dct.schema.SchemaType?
    ensures WithSchemaMeta(name, bases, dct).Refused?
    ensures WithSchemaMetaAsWritten(name, bases, dct).Refused?
  {
  }

  /**
   As written, a class naming a declared index in `_state_hash_`, as the
   documentation example does, raises KeyError, because its own body has
   no `_schema_meta`; the corrected lookup accepts it.
   */
  lemma DocumentedStateHashRejected()
    ensures var schema := SchemaClass(map["wallets" := IndexClass(Containers.ProofMapIndex)]);
      var dct := WithSchemaDict(SchemaType(schema), StateHashList([StrItem("wallets")]), None);
      && WithSchemaMetaAsWritten("SchemaUser", ["WithSchema"], dct) == Refused(SchemaMetaMissing)
      && WithSchemaMeta("SchemaUser", ["WithSchema"], dct) == Accepted
  {
  }
}
