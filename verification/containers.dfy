/**
 The newer Python containers (`exonum_runtime/merkledb/indices/list_index.py`,
 `proof_list_index.py`, `map_index.py`, `proof_map_index.py`).

 A container call goes through three layers: the metaclass guard (public
 methods check the index's access first, underscore methods do not), the
 FFI wrapper (integers become `c_uint64`, results come back as
 `BinaryData`), and the Rust dispatch on fork or snapshot. Methods marked
 `BaseIndex.mutable` are exactly the writes. `BaseIndex` defines no such
 attribute, so as written none of the four classes can even be created; the
 model takes the decorator to pass the method through, and the only
 enforcement left is the Rust panic on a snapshot.

 Every read that returns a buffer threads the ledger of
 `_MERKLEDB_ALLOCATED`: the plain list's wrapper frees only a non-null
 buffer, while the map, proof-map and proof-list wrappers go through
 `into_bytes`, which always pops.
 */
module Containers {
  import opened Common
  import opened BinaryData
  import opened RustIndices
  import Access
  import IndexGuard

  /** The four container classes. */
  datatype IndexKind = ListIndex | ProofListIndex | MapIndex | ProofMapIndex

  /** A container: its class, its index name and its access (wrapping a raw access). */
  datatype Index = Index(kind: IndexKind, name: string, access: Access.Access<RawAccess>)

  /** The methods of the list containers. */
  datatype ListOp =
    | ListGetItem(idx: int)
    | ListSetItem(idx: int, value: Bytes)
    | ListLenOp
    | ListPushOp(value: Bytes)
    | ListPopOp
    | ListClearOp
    | ListHashOp

  /** The methods of the map containers. */
  datatype MapOp =
    | MapGetItem(key: Bytes)
    | MapSetItem(key: Bytes, value: Bytes)
    | MapDelItem(key: Bytes)
    | MapClearOp
    | MapHashOp

  /** What a call returns to Python. */
  datatype Reply = Nothing | Item(item: Option<Bytes>) | Length(n: nat) | Digest(hash: Option<Bytes>)

  /**
   A call's outcome: the (possibly written) raw access, the reply and the
   ledger; IndexAccessError; a Rust panic; or the IndexError of popping an
   empty `_MERKLEDB_ALLOCATED`.
   */
  datatype Outcome =
    | Done(access: RawAccess, reply: Reply, ledger: Ledger)
    | AccessExpired
    | Panic(message: string)
    | FreeRaised

  /** The Python method name behind each operation. */
  function ListMethodName(op: ListOp): string {
    match op
    case ListGetItem(_) => "__getitem__"
    case ListSetItem(_, _) => "__setitem__"
    case ListLenOp => "__len__"
    case ListPushOp(_) => "push"
    case ListPopOp => "pop"
    case ListClearOp => "clear"
    case ListHashOp => "object_hash"
  }

  function MapMethodName(op: MapOp): string {
    match op
    case MapGetItem(_) => "__getitem__"
    case MapSetItem(_, _) => "__setitem__"
    case MapDelItem(_) => "__delitem__"
    case MapClearOp => "clear"
    case MapHashOp => "object_hash"
  }

  /** Which class defines which method: only ListIndex has `pop`, only the proof kinds `object_hash`. */
  predicate ListOffers(kind: IndexKind, op: ListOp) {
    && (kind == ListIndex || kind == ProofListIndex)
    && (op.ListPopOp? ==> kind == ListIndex)
    && (op.ListHashOp? ==> kind == ProofListIndex)
  }

  predicate MapOffers(kind: IndexKind, op: MapOp) {
    && (kind == MapIndex || kind == ProofMapIndex)
    && (op.MapHashOp? ==> kind == ProofMapIndex)
  }

  /** The methods decorated with `BaseIndex.mutable`. */
  predicate ListMutates(op: ListOp) {
    op.ListSetItem? || op.ListPushOp? || op.ListPopOp? || op.ListClearOp?
  }

  predicate MapMutates(op: MapOp) {
    op.MapSetItem? || op.MapDelItem? || op.MapClearOp?
  }

  /** Whether the metaclass wrapped the method, so that it checks the access first. */
  predicate Guarded(methodName: string) {
    IndexGuard.WrappedAsWritten(methodName, IndexGuard.Original(true, 0))
  }

  /** A value read through a wrapper that decodes with `into_bytes`: encoded by Rust, then always popped. */
  function ThroughIntoBytes(v: Option<Bytes>, alloc: Allocator, l: Ledger): Decoded {
    var (b, l1) := Encode(v, alloc, l);
    IntoBytes(b, l1)
  }

  /**
   A value read through the plain list's wrapper: encoded by Rust, popped
   only when non-null. Such a read never raises and leaves the ledger as it
   was; only an empty value under a null-on-empty allocator is lost.
   */
  function ThroughPlainWrapper(v: Option<Bytes>, alloc: Allocator, l: Ledger): (r: Decoded)
    ensures r.Decoded? && r.ledger == l
    ensures r.value == if alloc.nullOnEmpty && v == Some([]) then None else v
  {
    CorrectedRoundTrip(v, alloc, l);
    var (b, l1) := Encode(v, alloc, l);
    IntoBytesCorrected(b, l1)
  }

  /** Turns a decoded read into a call outcome: an item, or a hash when `digest` is set. */
  function AfterRead(a: RawAccess, d: Decoded, digest: bool): Outcome {
    match d
    case PopFromEmpty => FreeRaised
    case Decoded(v, l) => Done(a, if digest then Digest(v) else Item(v), l)
  }

  /** Turns a write's outcome into a call outcome. */
  function AfterWrite(w: Written, reply: Reply, l: Ledger): Outcome {
    match w
    case Applied(a) => Done(a, reply, l)
    case Panicked(m) => Panic(m)
  }

  /**
   The Rust-side effect of a list method (after the guard). `pop` of the
   plain list goes to the storage engine's pop: the last element is removed
   and returned, None for an empty list.
   */
  function ListDispatch(kind: IndexKind, a: RawAccess, name: string, op: ListOp, hash: seq<Bytes> -> Bytes,
                        alloc: Allocator, l: Ledger): Outcome {
    match op
    case ListGetItem(idx) =>
      var v := ListGet(a, name, WrapU64(idx));
      AfterRead(a, if kind == ListIndex then ThroughPlainWrapper(v, alloc, l) else ThroughIntoBytes(v, alloc, l), false)
    case ListSetItem(idx, v) => AfterWrite(ListSet(a, name, WrapU64(idx), v), Nothing, l)
    case ListLenOp => Done(a, Length(ListLen(a, name)), l)
    case ListPushOp(v) => AfterWrite(ListPush(a, name, v), Nothing, l)
    case ListPopOp =>
      var xs := ListOf(a.storage, name);
      if xs == [] then AfterWrite(WriteThrough(a, a.storage), Item(None), l)
      else (match WriteThrough(a, a.storage.(lists := a.storage.lists[name := xs[..|xs| - 1]]))
        case Panicked(m) => Panic(m)
        case Applied(a') => AfterRead(a', ThroughPlainWrapper(Some(xs[|xs| - 1]), alloc, l), false))
    case ListClearOp => AfterWrite(ListClear(a, name), Nothing, l)
    case ListHashOp =>
      var (b, l1) := ListObjectHash(a, name, hash, alloc, l);
      AfterRead(a, IntoBytes(b, l1), true)
  }

  /** The Rust-side effect of a map method (after the guard); both map wrappers decode with `into_bytes`. */
  function MapDispatch(a: RawAccess, name: string, op: MapOp, hash: map<Bytes, Bytes> -> Bytes,
                       alloc: Allocator, l: Ledger): Outcome {
    match op
    case MapGetItem(k) => AfterRead(a, ThroughIntoBytes(MapGet(a, name, k), alloc, l), false)
    case MapSetItem(k, v) => AfterWrite(MapPut(a, name, k, v), Nothing, l)
    case MapDelItem(k) => AfterWrite(MapRemove(a, name, k), Nothing, l)
    case MapClearOp => AfterWrite(MapClear(a, name), Nothing, l)
    case MapHashOp =>
      var (b, l1) := MapObjectHash(a, name, hash, alloc, l);
      AfterRead(a, IntoBytes(b, l1), true)
  }

  /** The reads that pop `_MERKLEDB_ALLOCATED` whatever they find: the proof list's `get` and `object_hash`. */
  predicate ListAlwaysPops(kind: IndexKind, op: ListOp) {
    kind == ProofListIndex && (op.ListGetItem? || op.ListHashOp?)
  }

  /**
   Calling a list method: the guard when the method is wrapped, then the
   dispatch. Only a write can panic, only a read that always pops can raise
   IndexError, and then only with nothing outstanding; a call never adds to
   the outstanding buffers.
   */
  function CallList(ix: Index, op: ListOp, hash: seq<Bytes> -> Bytes, alloc: Allocator, l: Ledger): (r: Outcome)
    requires ListOffers(ix.kind, op)
    ensures Guarded(ListMethodName(op)) && !ix.access.valid ==> r == AccessExpired
    ensures r.Panic? ==> ListMutates(op)
    ensures r.FreeRaised? ==> ListAlwaysPops(ix.kind, op) && l.outstanding == 0
    ensures r.Done? ==> r.ledger.outstanding <= l.outstanding
  {
    if Guarded(ListMethodName(op)) && !ix.access.valid then AccessExpired
    else ListDispatch(ix.kind, ix.access.raw, ix.name, op, hash, alloc, l)
  }

  /** Calling a map method: as for lists, and every read through a map pops whatever it finds. */
  function CallMap(ix: Index, op: MapOp, hash: map<Bytes, Bytes> -> Bytes, alloc: Allocator, l: Ledger): (r: Outcome)
    requires MapOffers(ix.kind, op)
    ensures Guarded(MapMethodName(op)) && !ix.access.valid ==> r == AccessExpired
    ensures r.Panic? ==> MapMutates(op)
    ensures r.FreeRaised? ==> (op.MapGetItem? || op.MapHashOp?) && l.outstanding == 0
    ensures r.Done? ==> r.ledger.outstanding <= l.outstanding
  {
    if Guarded(MapMethodName(op)) && !ix.access.valid then AccessExpired
    else MapDispatch(ix.access.raw, ix.name, op, hash, alloc, l)
  }

  /** Which method names the metaclass wraps: the named methods, not the special ones. */
  lemma GuardedNames()
    ensures Guarded("initialize") && Guarded("push") && Guarded("pop") && Guarded("clear") && Guarded("object_hash")
    ensures !Guarded("__getitem__") && !Guarded("__setitem__") && !Guarded("__delitem__")
    ensures !Guarded("__len__") && !Guarded("__iter__")
  {
    assert "initialize"[..1][0] == 'i' && "push"[..1][0] == 'p' && "pop"[..1][0] == 'p';
    assert "clear"[..1][0] == 'c' && "object_hash"[..1][0] == 'o';
    assert "__getitem__"[..1] == "_" && "__setitem__"[..1] == "_" && "__delitem__"[..1] == "_";
    assert "__len__"[..1] == "_" && "__iter__"[..1] == "_";
  }

  /**
   The outcome of `initialize`: the FFI wrapper for an index name over a raw
   access, IndexAccessError from the guard, or AttributeError for an
   attribute the object does not have.
   */
  datatype InitOutcome = Initialized(indexName: string, raw: RawAccess) | InitExpired | MissingAttribute(attribute: string)

  /**
   `initialize` as written: public, hence guarded; past the guard it reads
   `self._index_id`, which `BaseIndex.__init__` never sets, so it raises
   AttributeError on every valid access.
   */
  function InitializeAsWritten(ix: Index): (r: InitOutcome)
    ensures r == InitExpired <==> !ix.access.valid
    ensures r.MissingAttribute? <==> ix.access.valid
    ensures r.MissingAttribute? ==> r.attribute == "_index_id"
  {
    GuardedNames();
    if Guarded("initialize") && !ix.access.valid then InitExpired
    else MissingAttribute("_index_id")
  }

  /**
   `initialize` with the index name the object was built for: past the
   guard it asks the FFI for a wrapper of that name over `access.inner()`.
   */
  function Initialize(ix: Index): (r: InitOutcome)
    ensures r == InitExpired <==> !ix.access.valid
    ensures r.Initialized? <==> ix.access.valid
    ensures r.Initialized? ==> r.indexName == ix.name && r.raw == ix.access.raw
  {
    GuardedNames();
    if Guarded("initialize") && !ix.access.valid then InitExpired
    else match Access.InnerOf(ix.access)
      case Handle(raw) => Initialized(ix.name, raw)
      case Raised(_) => InitExpired
  }

  // ----------------------------------------------------------------------
  // Properties

  /**
   As written no container can be initialised: wherever the corrected
   `initialize` opens the wrapper, the written one raises AttributeError, and
   the two agree on an expired access.
   */
  lemma InitializeAsWrittenNeverOpens(ix: Index)
    ensures Initialize(ix).Initialized? ==> InitializeAsWritten(ix) == MissingAttribute("_index_id")
    ensures !Initialize(ix).Initialized? ==> InitializeAsWritten(ix) == Initialize(ix)
  {
  }

  /** Through a valid snapshot access, a list method panics exactly when it is marked mutable. */
  lemma ListSnapshotPanicsIffMutable(s: Storage, name: string, kind: IndexKind, op: ListOp,
                                     hash: seq<Bytes> -> Bytes, alloc: Allocator, l: Ledger)
    requires ListOffers(kind, op)
    ensures var ix := Index(kind, name, Access.Access(Access.SnapshotKind, RawSnapshot(s), true));
      CallList(ix, op, hash, alloc, l).Panic? <==> ListMutates(op)
  {
  }

  /** Through a valid snapshot access, a map method panics exactly when it is marked mutable. */
  lemma MapSnapshotPanicsIffMutable(s: Storage, name: string, kind: IndexKind, op: MapOp,
                                    hash: map<Bytes, Bytes> -> Bytes, alloc: Allocator, l: Ledger)
    requires MapOffers(kind, op)
    ensures var ix := Index(kind, name, Access.Access(Access.SnapshotKind, RawSnapshot(s), true));
      CallMap(ix, op, hash, alloc, l).Panic? <==> MapMutates(op)
  {
  }

  /** Reads give the same outcome, reply and ledger through a fork or a snapshot of the same storage. */
  lemma ReadsAgreeOnForkAndSnapshot(s: Storage, name: string, kind: IndexKind, op: ListOp, valid: bool,
                                    hash: seq<Bytes> -> Bytes, alloc: Allocator, l: Ledger)
    requires ListOffers(kind, op) && !ListMutates(op)
    ensures var f := CallList(Index(kind, name, Access.Access(Access.ForkKind, RawFork(s), valid)), op, hash, alloc, l);
      var n := CallList(Index(kind, name, Access.Access(Access.SnapshotKind, RawSnapshot(s), valid)), op, hash, alloc, l);
      && f.Done? == n.Done? && f.FreeRaised? == n.FreeRaised?
      && (f.Done? ==> f.reply == n.reply && f.ledger == n.ledger)
  {
  }

  /**
   Once the access has expired, the public methods (`push`, `pop`, `clear`,
   `object_hash`) raise IndexAccessError, while the item, length and
   iteration methods still reach the storage.
   */
  lemma ExpiredAccessGuardsOnlyPublic(ix: Index, op: ListOp, hash: seq<Bytes> -> Bytes, alloc: Allocator, l: Ledger)
    requires ListOffers(ix.kind, op) && !ix.access.valid
    ensures (op.ListPushOp? || op.ListPopOp? || op.ListClearOp? || op.ListHashOp?) ==>
      CallList(ix, op, hash, alloc, l) == AccessExpired
    ensures (op.ListGetItem? || op.ListSetItem? || op.ListLenOp?) ==>
      CallList(ix, op, hash, alloc, l) == ListDispatch(ix.kind, ix.access.raw, ix.name, op, hash, alloc, l)
  {
    GuardedNames();
  }

  /** `pop` on an empty list returns None and leaves the list and the ledger as they were. */
  lemma PopEmpty(s: Storage, name: string, hash: seq<Bytes> -> Bytes, alloc: Allocator, l: Ledger)
    requires ListOf(s, name) == []
    ensures var ix := Index(ListIndex, name, Access.Access(Access.ForkKind, RawFork(s), true));
      CallList(ix, ListPopOp, hash, alloc, l) == Done(RawFork(s), Item(None), l)
  {
  }

  /** `pop` on a non-empty list removes and returns the last element, freeing the buffer it read. */
  lemma PopRemovesLast(s: Storage, name: string, hash: seq<Bytes> -> Bytes, alloc: Allocator, l: Ledger)
    requires ListOf(s, name) != [] && !alloc.nullOnEmpty
    ensures var ix := Index(ListIndex, name, Access.Access(Access.ForkKind, RawFork(s), true));
      var xs := ListOf(s, name);
      var r := CallList(ix, ListPopOp, hash, alloc, l);
      && r.Done? && r.reply == Item(Some(xs[|xs| - 1])) && r.ledger == l
      && ListOf(r.access.storage, name) + [xs[|xs| - 1]] == xs
  {
    var xs := ListOf(s, name);
    RoundTrip(xs[|xs| - 1], alloc, l);
  }

  /** Pushing and then popping gives back the pushed value and the original list. */
  lemma PushThenPop(s: Storage, name: string, value: Bytes, hash: seq<Bytes> -> Bytes, alloc: Allocator, l: Ledger)
    requires !alloc.nullOnEmpty
    ensures var ix := Index(ListIndex, name, Access.Access(Access.ForkKind, RawFork(s), true));
      var p := CallList(ix, ListPushOp(value), hash, alloc, l);
      && p.Done?
      && var r := CallList(ix.(access := ix.access.(raw := p.access)), ListPopOp, hash, alloc, p.ledger);
      && r.Done? && r.reply == Item(Some(value)) && r.ledger == l
      && ListOf(r.access.storage, name) == ListOf(s, name)
  {
    var xs := ListOf(s, name) + [value];
    assert xs[..|xs| - 1] == ListOf(s, name);
    RoundTrip(value, alloc, l);
  }

  /** A map get after a set reads the value back and frees the one buffer it used. */
  lemma MapSetThenGetItem(s: Storage, name: string, kind: IndexKind, key: Bytes, value: Bytes,
                          hash: map<Bytes, Bytes> -> Bytes, alloc: Allocator, l: Ledger)
    requires (kind == MapIndex || kind == ProofMapIndex) && !alloc.nullOnEmpty
    ensures var ix := Index(kind, name, Access.Access(Access.ForkKind, RawFork(s), true));
      var w := CallMap(ix, MapSetItem(key, value), hash, alloc, l);
      && w.Done?
      && CallMap(ix.(access := ix.access.(raw := w.access)), MapGetItem(key), hash, alloc, w.ledger)
         == Done(w.access, Item(Some(value)), l)
  {
    RoundTrip(value, alloc, l);
  }

  /**
   A map get of an absent key, as written: with no buffer outstanding it
   raises IndexError; otherwise it returns None and drops one unrelated
   outstanding buffer.
   */
  lemma AbsentMapKeyPops(s: Storage, name: string, kind: IndexKind, key: Bytes,
                         hash: map<Bytes, Bytes> -> Bytes, alloc: Allocator, l: Ledger)
    requires (kind == MapIndex || kind == ProofMapIndex) && key !in MapOf(s, name)
    ensures var ix := Index(kind, name, Access.Access(Access.ForkKind, RawFork(s), true));
      CallMap(ix, MapGetItem(key), hash, alloc, l)
        == if l.outstanding == 0 then FreeRaised else Done(RawFork(s), Item(None), Ledger(l.outstanding - 1))
  {
  }

  /** The list methods: ProofListIndex offers no `pop`, and only the proof kinds hash. */
  lemma ProofListHasNoPop()
    ensures !ListOffers(ProofListIndex, ListPopOp)
    ensures !ListOffers(ListIndex, ListHashOp) && !MapOffers(MapIndex, MapHashOp)
  {
  }

  /**
   A negative list position wraps to a huge `c_uint64`, so it reads as
   absent rather than counting from the end. The plain list then returns
   None and frees nothing; the proof list pops anyway, raising IndexError
   with no buffer outstanding and otherwise dropping an unrelated one.
   */
  lemma NegativeIndexReadsNothing(s: Storage, name: string, kind: IndexKind, idx: int,
                                  hash: seq<Bytes> -> Bytes, alloc: Allocator, l: Ledger)
    requires (kind == ListIndex || kind == ProofListIndex) && -TWO_TO_THE_32 <= idx < 0
    requires |ListOf(s, name)| < TWO_TO_THE_32
    ensures var ix := Index(kind, name, Access.Access(Access.ForkKind, RawFork(s), true));
      var r := CallList(ix, ListGetItem(idx), hash, alloc, l);
      && (kind == ListIndex ==> r == Done(RawFork(s), Item(None), l))
      && (kind == ProofListIndex ==>
            r == if l.outstanding == 0 then FreeRaised else Done(RawFork(s), Item(None), Ledger(l.outstanding - 1)))
  {
  }
}
