# Exonum Python runtime, modelled in Dafny

This project models the core of the Exonum Python runtime. That runtime lets
Exonum services written in Python run next to a Rust node. The model covers
three layers.

- **Storage.** The Python-side MerkleDB wrappers: the in-memory backend and
  the list and map forks of the earlier revision, the `Access`
  fork/snapshot scoping and the `_BaseIndexMeta` access guard of the later
  revision, the container classes (`ListIndex`, `ProofListIndex`, `MapIndex`,
  `ProofMapIndex`) and their iterators, the `Schema` / `WithSchema`
  metaclasses, `Database` and `SchemaAccess`. It also covers the Rust
  functions these reach through the FFI (`get`, `put`, `remove`, `push`,
  `set`, `clear`, `object_hash`) and the `BinaryData` buffer protocol
  between the two sides.
- **Deployment.** The Python runtime's `request_deploy`,
  `_deploy_completed` and `is_artifact_deployed`, and `Artifact.deploy` in
  both revisions. On the Rust side it covers the `PendingDeployment` future
  with its shared cells, the `PythonRuntimeInterface` table with
  `deployment_completed`, and the sample Rust `PythonRuntime`. The result
  codes are modelled on both sides (`PythonRuntimeResult`,
  `PythonRuntimeResult::from_value`, `ServiceError`).
- **C boundary.** The `ctypes` structures of `raw_types.py` in both
  revisions: C strings Python builds as UTF-8 with a terminating NUL, names
  the Rust side passes as a `String`'s bytes with no terminator, `c_uint32`
  wrap-around, hashes padded to 32 bytes, the state-hash aggregator
  flattened into parallel arrays, and callers and execution contexts.

Everything is immutable data and pure functions. The only exceptions are two
methods that follow loops of the source. Python exceptions and Rust panics
become variants of outcome datatypes. Several things become parameters:

- object identity, as an arena of dicts in `MemoryDb` and a store of shared
  cells in `PythonInterface`;
- the outside world of a deployment (`World`: what imports before and after
  installation, the wheel found on disk, its hash and pip's exit code);
- the protobuf parser (`Parser`);
- the allocator callback (`Allocator`), with the Python list `_MERKLEDB_ALLOCATED` of live buffers kept as a count (`Ledger`): each allocation adds one entry, and each free pops one and raises IndexError when the list is empty.

The earlier `raw_types.py` shares its `into_artifact_id`, `into_call_info`,
`RawHash.from_hash` and `from_state_hash_aggregator` with the later one.
These are modelled once, in `RawTypes`. Likewise the earlier
`Artifact.get_service` is the later `Artifact.GetService`.

## Model

| member | source | states |
|---|---|---|
| Common.WrapU32 | python_runtime/exonum_runtime/ffi/raw_types.py:43 | a value stored in a `c_uint32` field is congruent to the original modulo 2^32 and equals it when already in range |
| Common.WrapU64 | python_runtime/exonum_runtime/merkledb/ffi/list_index.py:42 | `c_uint64(idx)` keeps an in-range index and maps a negative one to `idx + 2^64` |
| MemoryDb.Empty | python_runtime/runtime/merkledb/backends/memorydb.py:50-52 | a new database has no entries and is well formed |
| MemoryDb.Lookup | python_runtime/runtime/merkledb/backends/memorydb.py:15-18 | an existing entry yields its stored dict and changes nothing; a missing one yields a freshly allocated empty dict that is not stored as an entry |
| MemoryDb.OpenFork | python_runtime/runtime/merkledb/backends/memorydb.py:54-61 | a fork targets the entry `name` or `name_family` and never changes the stored entries |
| MemoryDb.OpenSnapshot | python_runtime/runtime/merkledb/backends/memorydb.py:63-70 | opening a snapshot never changes the stored entries and yields an existing dict |
| MemoryDb.Put | python_runtime/runtime/merkledb/backends/memorydb.py:20-21 | a put updates exactly one key of the fork's dict and no other dict |
| MemoryDb.Delete | python_runtime/runtime/merkledb/backends/memorydb.py:23-25 | a delete removes exactly one key of the fork's dict, silently when it is absent, and touches no other dict |
| MemoryDb.Merge | python_runtime/runtime/merkledb/backends/memorydb.py:30-31 | a merge rebinds the fork's entry to the fork's dict and copies nothing |
| MemoryDb.OpenForkMergeable | python_runtime/runtime/merkledb/backends/memorydb.py:15-18 | a newly opened fork's dict belongs to no other entry |
| MemoryDb.MergePreservesValid | python_runtime/runtime/merkledb/backends/memorydb.py:30-31 | merging such a fork keeps entries and dicts one-to-one |
| MemoryDb.WritesPreserveMergeable | python_runtime/runtime/merkledb/backends/memorydb.py:20-31 | puts and deletes keep the database well formed and the fork mergeable |
| MemoryDb.PutThenGet | python_runtime/runtime/merkledb/backends/memorydb.py:20-28 | a fork reads back what it put, and every other key reads as before |
| MemoryDb.DeleteThenGet | python_runtime/runtime/merkledb/backends/memorydb.py:23-28 | a fork reads None after a delete, and every other key reads as before |
| MemoryDb.DeleteAbsentIsNoop | python_runtime/runtime/merkledb/backends/memorydb.py:23-25 | deleting an absent key leaves the whole database unchanged |
| MemoryDb.MergeThenSnapshot | python_runtime/runtime/merkledb/backends/memorydb.py:30-41 | after a merge, a snapshot of that entry reads exactly what the fork reads |
| MemoryDb.ExistingEntryAliases | python_runtime/runtime/merkledb/backends/memorydb.py:15-21 | on an existing entry, a fork's write is visible to a snapshot before any merge, because both share the stored dict |
| MemoryDb.FreshSnapshotStaysEmpty | python_runtime/runtime/merkledb/backends/memorydb.py:37-38 | a snapshot of a never-merged entry keeps reading None even after a fork of that entry writes and merges |
| MemoryDb.DistinctEntriesIsolated | python_runtime/runtime/merkledb/backends/memorydb.py:54-70 | writes through a fork of one entry never change what a snapshot of another entry reads |
| MemoryDb.EntryNamesCanCollide | python_runtime/runtime/merkledb/backends/memorydb.py:56-59 | the entry naming is not injective: ("a_b", none) and ("a", "b") share an entry, and an empty family equals none |
| MemoryDb.TwoEntriesScenario | python_runtime/tests/merkledb_old/memorydb.py:11-33 | the unit test's two forks, once merged, are each seen only by the snapshot of their own name |
| ListFork.Encode4 | python_runtime/runtime/merkledb/indices/list_index.py:22-24 | the key of an index is exactly 4 bytes long |
| ListFork.Decode4 | python_runtime/runtime/merkledb/indices/list_index.py:26-28 | big-endian decoding of 4 bytes is the positional base-256 value |
| ListFork.IntBytesRoundTrip | python_runtime/runtime/merkledb/indices/list_index.py:22-28 | `to_bytes` succeeds exactly on 0 .. 2^32-1, and `from_bytes` inverts it |
| ListFork.BytesIntRoundTrip | python_runtime/runtime/merkledb/indices/list_index.py:22-28 | any 4-byte key decodes below 2^32 and re-encodes to itself |
| ListFork.KeyInjective | python_runtime/runtime/merkledb/indices/list_index.py:22-24 | distinct indices have distinct keys |
| ListFork.KeysNeverCollide | python_runtime/runtime/merkledb/indices/list_index.py:19-31 | no element key equals the `b"length"` key |
| ListFork.ShiftStep | python_runtime/runtime/merkledb/indices/list_index.py:64-66 | one iteration of the shift loop reads element i, stores it at i-1 and advances the loop state |
| ListFork.ShiftStart | python_runtime/runtime/merkledb/indices/list_index.py:64-66 | a store holding the list satisfies the loop state before the first iteration |
| ListFork.ShiftFinish | python_runtime/runtime/merkledb/indices/list_index.py:68-70 | after the loop, dropping the last key and storing the decremented length gives the list without element idx |
| ListFork.ShiftDown | python_runtime/runtime/merkledb/indices/list_index.py:64-66 | the loop moves every later element one place down, and a negative start raises OverflowError |
| ListFork.DelItem | python_runtime/runtime/merkledb/indices/list_index.py:59-70 | `del xs[idx]` leaves a store holding the list without element idx; idx at or past the length raises IndexError, a negative one OverflowError |
| ListFork.InitEmpty | python_runtime/runtime/merkledb/indices/list_index.py:16-20 | constructing on a fork with no list keys yields the empty list |
| ListFork.InitKeepsExisting | python_runtime/runtime/merkledb/indices/list_index.py:19-20 | constructing on a store that holds a list changes nothing |
| ListFork.LenSpec | python_runtime/runtime/merkledb/indices/list_index.py:39-43 | `len` is the list's length, and a missing length key raises "Corrupted list index" |
| ListFork.GetItemSpec | python_runtime/runtime/merkledb/indices/list_index.py:45-51 | `xs[idx]` returns the element in range, raises IndexError from the length up and OverflowError outside `u32` |
| ListFork.SetItemSpec | python_runtime/runtime/merkledb/indices/list_index.py:53-57 | `xs[idx] = v` replaces exactly element idx, with IndexError past the end and OverflowError for a negative idx |
| ListFork.AppendSpec | python_runtime/runtime/merkledb/indices/list_index.py:72-77 | `append` extends the list by the value; at length 2^32-1 the element is written before the length update overflows |
| ListFork.BasicOperationsScenario | python_runtime/tests/merkledb_old/list_index.py:14-38 | the unit test's appends, delete and set leave the list `[b"678"]` |
| OldBaseIndex.Call | python_runtime/exonum_runtime/merkledb_old/indices/base_index.py:25-33 | `valid()` reports the flag without changing it, and `_invalidate()` clears it |
| OldBaseIndex.NewTokenIsValid | python_runtime/exonum_runtime/merkledb_old/indices/base_index.py:25-30 | a new fork token is valid |
| OldBaseIndex.ExpiredStaysExpired | python_runtime/exonum_runtime/merkledb_old/indices/base_index.py:32-33 | no sequence of calls revalidates an invalidated token |
| OldBaseIndex.ValidIffNeverInvalidated | python_runtime/exonum_runtime/merkledb_old/indices/base_index.py:25-33 | after any calls a token is valid exactly when it started valid and was never invalidated |
| OldBaseIndex.IntoIndexNameInjective | python_runtime/exonum_runtime/merkledb_old/index_owner.py:11-13 | one owner never maps two names to one index name |
| OldBaseIndex.Fork | python_runtime/exonum_runtime/merkledb_old/indices/base_index.py:45-49 | an index's fork targets the owner-prefixed name in its family and leaves the database's entries as they were |
| OldBaseIndex.DistinctIndicesDistinctEntries | python_runtime/exonum_runtime/merkledb_old/indices/base_index.py:45-49 | two indices of one owner with different names never share an entry |
| MapFork.GetItem | python_runtime/exonum_runtime/merkledb_old/indices/map_index.py:24-30 | `m[key]` returns the stored value and raises KeyError exactly when the key is absent |
| MapFork.OpenMapFork | python_runtime/exonum_runtime/merkledb_old/indices/map_index.py:49-52 | a map fork targets its owner-prefixed entry and may be merged |
| MapFork.SetThenGet | python_runtime/exonum_runtime/merkledb_old/indices/map_index.py:24-33 | a set key reads back the value, and other keys read as before |
| MapFork.DelThenGet | python_runtime/exonum_runtime/merkledb_old/indices/map_index.py:24-36 | a deleted key raises KeyError, and other keys read as before |
| MapFork.DelAbsentIsNoop | python_runtime/exonum_runtime/merkledb_old/indices/map_index.py:35-36 | deleting an absent key raises nothing and changes nothing |
| MapFork.ExitPublishes | python_runtime/exonum_runtime/merkledb_old/indices/map_index.py:38-40 | leaving the with-block merges, so a later snapshot of the index reads what the fork read |
| MapFork.BasicOperationsScenario | python_runtime/tests/merkledb/map_index.py:14-27 | the unit test's two keys both read back |
| Access.New | python_runtime/exonum_runtime/merkledb/types.py:11-13 | a new access starts out invalid, keeping its class and handle |
| Access.InnerOf | python_runtime/exonum_runtime/merkledb/types.py:27-32 | `inner()` hands out the raw handle exactly when the access is valid |
| Access.With | python_runtime/exonum_runtime/merkledb/types.py:15-21 | after a with-block, on the normal or the exceptional path, the access is invalid, and the block's ending is passed on |
| Access.EnterGrantsInner | python_runtime/exonum_runtime/merkledb/types.py:15-18 | entering keeps class and handle and makes `inner()` succeed |
| Access.ExitRevokesInner | python_runtime/exonum_runtime/merkledb/types.py:20-32 | after exit, `inner()` raises "Access is not valid anymore", and re-entering restores it |
| Access.NewAccessIsUnusable | python_runtime/exonum_runtime/merkledb/types.py:11-13 | a never-entered access cannot hand out its handle |
| Access.WithScopesValidity | python_runtime/exonum_runtime/merkledb/types.py:15-32 | the handle is usable inside the block and nowhere after it |
| IndexGuard.MetaNew | python_runtime/exonum_runtime/merkledb/indices/base_index.py:13-26 | `BaseIndex` passes unchanged; another class is refused exactly when `BaseIndex` is not a direct base; the attribute names are kept |
| IndexGuard.EnsureAccess | python_runtime/exonum_runtime/merkledb/indices/base_index.py:35-38 | `ensure_access` raises exactly when the access is no longer valid |
| IndexGuard.WrapsExactlyPublicCallables | python_runtime/exonum_runtime/merkledb/indices/base_index.py:22-24 | an attribute is wrapped exactly when it is public and callable, and is otherwise kept |
| IndexGuard.EnsuredTransparent | python_runtime/exonum_runtime/merkledb/indices/base_index.py:42-51 | with a valid access, a wrapper returns what the original returns |
| IndexGuard.EnsuredBlocksExpired | python_runtime/exonum_runtime/merkledb/indices/base_index.py:46-49 | with an expired access, a wrapper raises IndexAccessError without running the original |
| IndexGuard.ItemAccessUnguarded | python_runtime/exonum_runtime/merkledb/indices/base_index.py:23 | as written, `__getitem__` is never wrapped and runs on an expired access |
| IndexGuard.MetaNewCorrected | python_runtime/exonum_runtime/merkledb/indices/base_index.py:13-26 | the corrected metaclass accepts and refuses the same classes as the written one and keeps the attribute names |
| IndexGuard.CorrectedGuardsItemAccess | python_runtime/exonum_runtime/merkledb/indices/base_index.py:22-24 | corrected, every public or special method raises IndexAccessError on an expired access |
| IndexGuard.GetItemIsSpecial | python_runtime/exonum_runtime/merkledb/indices/base_index.py:23 | `__getitem__` falls under the corrected guard, while `__init__` does not |
| IndexGuard.CorrectedExtendsWritten | python_runtime/exonum_runtime/merkledb/indices/base_index.py:23 | the corrected guard covers everything the written one covers |
| BinaryData.Encode | rust_interface/src/merkledb_interface/map_index.rs:82-97 | a present value yields `data_len` equal to its length and a buffer holding it (unless the allocator answers an empty request with null), and each non-null buffer is one more outstanding entry; an absent value yields a null pointer, length 0 and no entry |
| BinaryData.IntoBytes | python_runtime/exonum_runtime/merkledb/ffi/common.py:13-25 | as written, decoding always pops: it raises IndexError exactly when nothing is outstanding, and otherwise leaves one entry fewer and returns None for a null pointer or the first `data_len` bytes of a buffer |
| BinaryData.IntoBytesCorrected | python_runtime/exonum_runtime/merkledb/ffi/common.py:13-25 | corrected, a null pointer decodes to None and leaves the ledger alone, while a buffer is decoded and freed as written |
| BinaryData.RoundTrip | python_runtime/exonum_runtime/merkledb/ffi/common.py:16-25 | a present value read back through `into_bytes` comes back unchanged and leaves the ledger as it was |
| BinaryData.LengthPreserved | rust_interface/src/merkledb_interface/map_index.rs:84-91 | the encoded length of a present value is its length |
| BinaryData.AbsentValueRaises | python_runtime/exonum_runtime/merkledb/ffi/common.py:21-23 | as written, decoding the null pointer of an absent value when no buffer is outstanding raises IndexError from the pop in `free_merkledb_allocated` |
| BinaryData.AbsentValueDropsLiveBuffer | python_runtime/exonum_runtime/merkledb/ffi/common.py:21-23 | as written, reading an absent key while another buffer is outstanding returns None and drops that unrelated buffer |
| BinaryData.CorrectedRoundTrip | python_runtime/exonum_runtime/merkledb/ffi/common.py:13-25 | corrected, every read returns the encoded value, never raises and leaves the ledger as it was |
| RustIndices.WriteThrough | rust_interface/src/merkledb_interface/map_index.rs:106-115 | a write applies to a fork and panics on a snapshot with the snapshot message |
| RustIndices.MapGet | rust_interface/src/merkledb_interface/map_index.rs:60-80 | `get` returns the stored value exactly when the key is present |
| RustIndices.MapObjectHash | rust_interface/src/merkledb_interface/proof_map_index.rs:159-175 | `object_hash` returns a buffer holding the hash of the map's contents with `data_len` its length, and a non-null buffer is one more outstanding entry |
| RustIndices.ListGet | rust_interface/src/merkledb_interface/proof_list_index.rs:71-107 | `get(idx)` returns element idx exactly when idx is below the length |
| RustIndices.ListSet | rust_interface/src/merkledb_interface/proof_list_index.rs:176-191 | `set` panics on a snapshot, and on a fork for a position past the end |
| RustIndices.ListObjectHash | rust_interface/src/merkledb_interface/proof_list_index.rs:209-225 | `object_hash` returns a buffer holding the hash of the list's elements with `data_len` its length, and a non-null buffer is one more outstanding entry |
| RustIndices.ReadsIgnoreAccessKind | rust_interface/src/merkledb_interface/map_index.rs:70-80 | every read gives the same answer through a fork or a snapshot of the same storage |
| RustIndices.SnapshotWritesPanic | rust_interface/src/merkledb_interface/map_index.rs:112-114 | each of the six writes panics through a snapshot |
| RustIndices.MapPutThenGet | rust_interface/src/merkledb_interface/map_index.rs:100-116 | after `put` the key reads the value, while other keys and other indices read as before |
| RustIndices.MapRemoveThenGet | rust_interface/src/merkledb_interface/map_index.rs:118-133 | after `remove` the key reads None, and other keys read as before |
| RustIndices.MapClearOnlyNamed | rust_interface/src/merkledb_interface/map_index.rs:135-149 | `clear` empties the named map and no other |
| RustIndices.ListPushThenGet | rust_interface/src/merkledb_interface/proof_list_index.rs:109-124 | `push` grows the list by one, the old length reads the pushed value, and earlier positions read as before |
| RustIndices.ListSetThenGet | rust_interface/src/merkledb_interface/proof_list_index.rs:176-191 | an in-bounds `set` replaces exactly that element and keeps the length |
| RustIndices.ListClearEmpties | rust_interface/src/merkledb_interface/proof_list_index.rs:193-207 | after `clear` the length is 0 and every get is None |
| RustIndices.AbsentEncodedAsNull | rust_interface/src/merkledb_interface/map_index.rs:93-96 | an absent key is returned as a null pointer with length 0, and nothing is allocated |
| Containers.ThroughPlainWrapper | python_runtime/exonum_runtime/merkledb/ffi/list_index.py:40-51 | a read through the plain list's wrapper never raises and leaves the ledger as it was, returning the stored value |
| Containers.CallList | python_runtime/exonum_runtime/merkledb/indices/list_index.py:21-45 | a guarded list method on an expired access raises IndexAccessError; only mutating methods can panic; only the proof list's `get` and `object_hash` can raise IndexError, and only with nothing outstanding; no call adds to the outstanding buffers |
| Containers.CallMap | python_runtime/exonum_runtime/merkledb/indices/map_index.py:9-37 | a guarded map method on an expired access raises IndexAccessError; only mutating methods can panic; only `get` and `object_hash` can raise IndexError, and only with nothing outstanding |
| Containers.InitializeAsWritten | python_runtime/exonum_runtime/merkledb/indices/list_index.py:12-16 | as written, `initialize` raises IndexAccessError exactly on an expired access and AttributeError for `_index_id` on every valid one |
| Containers.Initialize | python_runtime/exonum_runtime/merkledb/indices/list_index.py:12-16 | corrected, `initialize` opens the wrapper for the index's own name over the access's raw handle exactly when the access is valid |
| Containers.InitializeAsWrittenNeverOpens | python_runtime/exonum_runtime/merkledb/indices/base_index.py:32-33 | wherever the corrected `initialize` opens the wrapper, the written one raises AttributeError, and on an expired access both raise IndexAccessError |
| Containers.GuardedNames | python_runtime/exonum_runtime/merkledb/indices/base_index.py:22-24 | the named methods are guarded, and the item, length and iteration methods are not |
| Containers.ListSnapshotPanicsIffMutable | python_runtime/exonum_runtime/merkledb/indices/list_index.py:24-45 | through a valid snapshot, a list method panics exactly when it mutates |
| Containers.MapSnapshotPanicsIffMutable | python_runtime/exonum_runtime/merkledb/indices/map_index.py:25-37 | through a valid snapshot, a map method panics exactly when it mutates |
| Containers.ReadsAgreeOnForkAndSnapshot | python_runtime/exonum_runtime/merkledb/indices/list_index.py:21-29 | list reads end the same way, with the same reply and ledger, through a fork or a snapshot |
| Containers.ExpiredAccessGuardsOnlyPublic | python_runtime/exonum_runtime/merkledb/indices/base_index.py:22-24 | on an expired access `push`, `pop`, `clear` and `object_hash` raise, while items and length still reach the storage |
| Containers.PopEmpty | python_runtime/exonum_runtime/merkledb/indices/list_index.py:36-40 | `pop` on an empty list returns None and leaves the list and the ledger unchanged |
| Containers.PopRemovesLast | python_runtime/exonum_runtime/merkledb/indices/list_index.py:36-40 | `pop` removes and returns the last element and frees the buffer it read |
| Containers.PushThenPop | python_runtime/exonum_runtime/merkledb/indices/list_index.py:31-40 | `push` followed by `pop` returns the value and restores the list and the ledger |
| Containers.MapSetThenGetItem | python_runtime/exonum_runtime/merkledb/indices/map_index.py:22-27 | for both map kinds, a get after a set reads the value back and leaves the ledger as it was |
| Containers.AbsentMapKeyPops | python_runtime/exonum_runtime/ffi/merkledb/map_index.py:36-42 | as written, a map get of an absent key raises IndexError with nothing outstanding, and otherwise returns None and drops an outstanding buffer |
| Containers.ProofListHasNoPop | python_runtime/exonum_runtime/merkledb/indices/proof_list_index.py:37-41 | `ProofListIndex` offers no `pop`, and only the proof kinds offer `object_hash` |
| Containers.NegativeIndexReadsNothing | python_runtime/exonum_runtime/merkledb/indices/list_index.py:21-22 | a negative position wraps to a huge `c_uint64` and reads as absent: the plain list returns None; the proof list raises IndexError with nothing outstanding, and otherwise returns None and drops an outstanding buffer |
| ListIter.Next | python_runtime/exonum_runtime/merkledb/indices/list_index.py:54-64 | `__next__` yields and advances by one while below the captured length, and stops exactly at it |
| ListIter.NextProofListAsWritten | python_runtime/exonum_runtime/merkledb/indices/proof_list_index.py:59-67 | the proof-list `__next__` as written yields without advancing, and can raise IndexError only with nothing outstanding |
| ListIter.FetchInRange | python_runtime/exonum_runtime/merkledb/indices/list_index.py:58-60 | through the FFI a stored element reads back unchanged, and a position past the end reads None |
| ListIter.DrainYieldsCapturedRange | python_runtime/exonum_runtime/merkledb/indices/list_index.py:48-64 | iteration yields the elements from the position up to the captured length, in order, then stops |
| ListIter.IterationYieldsList | python_runtime/exonum_runtime/merkledb/indices/list_index.py:48-64 | iterating a list yields exactly its elements |
| ListIter.PushedLaterNotYielded | python_runtime/exonum_runtime/merkledb/indices/list_index.py:49-52 | elements pushed after the iterator was created are not yielded |
| ListIter.ShrunkListRaises | python_runtime/exonum_runtime/merkledb/indices/list_index.py:58-60 | a list shrunk below the captured length yields what is left and then raises RuntimeError |
| ListIter.ProofListIteratorStuck | python_runtime/exonum_runtime/merkledb/indices/proof_list_index.py:59-67 | as written, the proof-list iterator yields the first element forever |
| ListIter.Collect | python_runtime/exonum_runtime/merkledb/indices/list_index.py:48-64 | `list(index)` returns exactly the list, unless an empty element comes back as null and raises the size-change error |
| Schema.SchemaMetaAsWritten | python_runtime/exonum_runtime/merkledb/schema.py:85-108 | as written, a schema with annotations is created only when it has none, since every key unpack raises |
| Schema.CheckIndexType | python_runtime/exonum_runtime/merkledb/schema.py:102-103 | an annotated type passes exactly when it is a container class |
| Schema.CollectMeta | python_runtime/exonum_runtime/merkledb/schema.py:99-105 | the annotation loop either records a schema or fails, and raises nothing else |
| Schema.SchemaMeta | python_runtime/exonum_runtime/merkledb/schema.py:85-108 | `Schema` itself passes unchecked; a class not derived from `Schema` or without annotations is refused |
| Schema.Indices | python_runtime/exonum_runtime/merkledb/schema.py:129-133 | `indices()` lists exactly the names `index_type` accepts |
| Schema.IndexType | python_runtime/exonum_runtime/merkledb/schema.py:135-139 | `index_type` returns the declared type, with KeyError exactly for undeclared names |
| Schema.NamesCons | python_runtime/exonum_runtime/merkledb/schema.py:101 | the annotated names split into the first and the rest |
| Schema.CollectMetaAccepts | python_runtime/exonum_runtime/merkledb/schema.py:101-103 | over an annotations dict, the loop succeeds exactly when every annotated type is a container class |
| Schema.CollectMetaKeys | python_runtime/exonum_runtime/merkledb/schema.py:99-105 | a recorded schema declares exactly the annotated names |
| Schema.CollectMetaLast | python_runtime/exonum_runtime/merkledb/schema.py:105 | each annotated name maps to its annotated type |
| Schema.CollectMetaKeeps | python_runtime/exonum_runtime/merkledb/schema.py:105 | names not annotated keep their starting entry |
| Schema.SchemaMetaAcceptsIndexAnnotations | python_runtime/exonum_runtime/merkledb/schema.py:94-105 | corrected, a derived schema is created exactly when all its annotations are container classes, with exactly those names and types |
| Schema.DeclaredTypesAreIndexClasses | python_runtime/exonum_runtime/merkledb/schema.py:101-105 | every declared type of a created schema is a container class |
| Schema.DocumentedSchemaRejected | python_runtime/exonum_runtime/merkledb/schema.py:101 | as written, the documented `wallets: ProofMapIndex` schema raises ValueError; corrected, it is created |
| Schema.WithSchemaMetaAsWritten | python_runtime/exonum_runtime/merkledb/schema.py:15-44 | `WithSchema` itself passes unchecked, as written |
| Schema.WithSchemaMeta | python_runtime/exonum_runtime/merkledb/schema.py:15-44 | `WithSchema` itself passes unchecked, with the corrected lookup |
| Schema.CheckStateHashSpec | python_runtime/exonum_runtime/merkledb/schema.py:35-41 | the `_state_hash_` loop accepts exactly lists of declared names |
| Schema.WithSchemaAcceptsDeclaredNames | python_runtime/exonum_runtime/merkledb/schema.py:29-41 | corrected, a class with a schema is accepted exactly when `_state_hash_` is unset or lists declared names |
| Schema.WithSchemaNeedsSchema | python_runtime/exonum_runtime/merkledb/schema.py:24-27 | without a proper `_schema_` a class is refused in both versions |
| Schema.DocumentedStateHashRejected | python_runtime/exonum_runtime/merkledb/schema.py:40 | as written, the documented `_state_hash_ = ["wallets"]` raises KeyError; corrected, it is accepted |
| Database.Join | python_runtime/exonum_runtime/merkledb/database.py:23 | `os.path.join(a, b)` ends with `b` |
| Database.DbPath | python_runtime/exonum_runtime/merkledb/database.py:20-23 | a database path ends with `owner_index` |
| Database.Open | python_runtime/exonum_runtime/merkledb/database.py:41-48 | a database has one handle per declared index, each opened at that index's path |
| Database.Handle | python_runtime/exonum_runtime/merkledb/database.py:54-56 | `handle` returns the index's handle, with KeyError exactly for undeclared names |
| Database.DbPathInjective | python_runtime/exonum_runtime/merkledb/database.py:23 | distinct index names get distinct paths |
| Database.DistinctIndicesDistinctHandles | python_runtime/exonum_runtime/merkledb/database.py:41-48 | distinct indices never share a handle |
| Database.HandleOfDeclared | python_runtime/exonum_runtime/merkledb/database.py:54-56 | `handle` succeeds exactly for declared indices, with the handle at that index's path |
| SchemaAccess.New | python_runtime/exonum_runtime/merkledb/schema_access.py:17-24 | a new schema access is inactive and has nothing cached |
| SchemaAccess.Enter | python_runtime/exonum_runtime/merkledb/schema_access.py:26-28 | entering activates it and changes nothing else |
| SchemaAccess.Exit | python_runtime/exonum_runtime/merkledb/schema_access.py:30-37 | leaving merges every cached fork, closes every cached snapshot and keeps the caches |
| SchemaAccess.Index | python_runtime/exonum_runtime/merkledb/schema_access.py:39-60 | corrected, `index` raises RuntimeError exactly outside the block, KeyError exactly for a name without a handle or a schema entry inside it, and otherwise builds the class the schema declares |
| SchemaAccess.IndexAsWritten | python_runtime/exonum_runtime/merkledb/schema_access.py:39-60 | as written, `index` never builds a container: RuntimeError exactly outside the block, KeyError exactly for a name without a handle or a schema entry, TypeError otherwise |
| SchemaAccess.OpenedIndexBuildsDeclared | python_runtime/exonum_runtime/merkledb/database.py:41-56 | on a database opened from a schema, `index` raises KeyError exactly for a name the schema does not declare and builds every declared one |
| SchemaAccess.IndexAsWrittenNeverBuilds | python_runtime/exonum_runtime/merkledb/schema_access.py:47-60 | as written, a declared name inside the block raises TypeError after caching exactly what the corrected `index` caches |
| SchemaAccess.AsWrittenCachesThenRaises | python_runtime/exonum_runtime/merkledb/schema_access.py:49-60 | as written, a first request caches one snapshot, plus a fork exactly under write access, and then raises TypeError; a repeated request raises again and opens nothing |
| SchemaAccess.IndexOnlyInsideBlock | python_runtime/exonum_runtime/merkledb/schema_access.py:39-41 | corrected, `index` fails before the block and after it, and builds a declared index inside it |
| SchemaAccess.FirstIndexOpens | python_runtime/exonum_runtime/merkledb/schema_access.py:52-58 | corrected, the first request for a pair opens one snapshot, plus a fork exactly under write access, caches them and builds the container over them |
| SchemaAccess.RepeatedIndexReuses | python_runtime/exonum_runtime/merkledb/schema_access.py:49-50 | corrected, a repeated request opens nothing and builds over the cached views |
| SchemaAccess.FamiliesAreSeparate | python_runtime/exonum_runtime/merkledb/schema_access.py:43 | corrected, two families of one index are separate cache entries on the same database |
| SchemaAccess.IndexPreservesValid | python_runtime/exonum_runtime/merkledb/schema_access.py:47-60 | corrected, `index` keeps forks cached only beside snapshots and only under write access, and builds the declared class |
| SchemaAccess.ReadAccessMergesNothing | python_runtime/exonum_runtime/merkledb/schema_access.py:30-37 | under read access, leaving the block merges nothing |
| SchemaAccess.ReenteringReusesClosedSnapshot | python_runtime/exonum_runtime/merkledb/schema_access.py:30-50 | corrected, after the block is re-entered, a pair seen before is built over the snapshot that leaving closed |
| ResultCodes.FromValue | rust_interface/src/errors.rs:30-97 | a code is success exactly for 0, a runtime error carrying the code in the Rust and Python bands, and service error `code - 65` from 65 up |
| ResultCodes.UnnamedCodesAreUnknown | rust_interface/src/errors.rs:53-82 | codes 3-15 and 18-63 are exactly the unknown codes of the Rust and Python bands |
| ResultCodes.ServiceCodeRoundTrip | rust_interface/src/errors.rs:34-96 | a service code sent as `c + 65` is read back as service error `c` |
| ResultCodes.CodeTablesAgree | python_runtime/exonum_runtime/runtime/types.py:13-30 | the Python and Rust enums agree, their values are distinct and in their bands, and the classifier names each |
| ResultCodes.StoredCode | python_runtime/exonum_runtime/runtime/service_error.py:23-31 | the stored code is the given one exactly when it is at most 128 and, for a subclass, at least 16; otherwise it is 128 |
| ResultCodes.StoredCodeIdempotent | python_runtime/exonum_runtime/runtime/service_error.py:28-31 | storing a stored code changes nothing |
| ResultCodes.GenericCodesReserved | python_runtime/exonum_runtime/runtime/service_error.py:5-31 | generic codes are distinct values below 16; plain errors keep them and subclasses turn them into 128 |
| Artifact.LookupService | python_runtime/exonum_runtime/runtime/artifact.py:124-134 | the class is found exactly when the module imports and its attribute is a `Service` subclass; a non-class attribute raises TypeError |
| Artifact.Deploy | python_runtime/exonum_runtime/runtime/artifact.py:29-71 | `deploy` sets OK or SERVICE_INSTALL_FAILED for its own id; OK means the class is known, anything else leaves the artifact unchanged, and pip runs only on a wheel with the expected hash |
| Artifact.GetService | python_runtime/exonum_runtime/runtime/artifact.py:117-122 | `get_service` answers exactly when the class is known |
| Artifact.InstalledArtifactShortCircuits | python_runtime/exonum_runtime/runtime/artifact.py:33-39 | an already importable service is reported OK without running pip |
| Artifact.HashMismatchNeverInstalls | python_runtime/exonum_runtime/runtime/artifact.py:80-85 | a wheel with the wrong hash is never installed, and the deployment fails |
| Artifact.InstallPathOutcome | python_runtime/exonum_runtime/runtime/artifact.py:45-71 | after installation, OK exactly when pip exits 0 and the class resolves; a non-class attribute leaves the future unset |
| Artifact.ServiceKnownIffDeployed | python_runtime/exonum_runtime/runtime/artifact.py:27-71 | after deploying a fresh artifact, `get_service` answers exactly when the future says OK |
| ArtifactOld.New | python_runtime/runtime/artifact.py:21-27 | a fresh artifact has no class; an already deployed one resolves it at once or raises ArtifactStartError |
| ArtifactOld.Deploy | python_runtime/runtime/artifact.py:29-83 | `deploy` reports success exactly without error, the error being SERVICE_INSTALL_FAILED; success means the class is known, and a failing pip fails it |
| ArtifactOld.DeployIgnoresPriorInstall | python_runtime/runtime/artifact.py:29-47 | the earlier `deploy` does not depend on what was importable beforehand |
| ArtifactOld.RevisionsDisagreeOnReinstall | python_runtime/runtime/artifact.py:47-53 | with the service already installed and pip failing, the later revision says OK and the earlier one fails |
| ArtifactOld.RevisionsAgreeOnFreshInstall | python_runtime/runtime/artifact.py:29-83 | on a fresh install with a matching wheel and pip succeeding, both revisions produce the same artifact and result |
| Runtime.New | python_runtime/exonum_runtime/runtime/runtime.py:41-48 | a new runtime has no pending and no deployed artifacts |
| Runtime.RequestDeploy | python_runtime/exonum_runtime/runtime/runtime.py:87-102 | the result is WRONG_SPEC exactly for an unparsable spec, changing nothing; otherwise OK, with the artifact pending and its deployment scheduled |
| Runtime.DeployCompleted | python_runtime/exonum_runtime/runtime/runtime.py:73-83 | the result is always forwarded to Rust; a pending artifact leaves the pending table and is deployed exactly on OK; otherwise KeyError |
| Runtime.IsArtifactDeployed | python_runtime/exonum_runtime/runtime/runtime.py:104-105 | an artifact is deployed exactly when it is in the deployed table |
| Runtime.MalformedSpecRefused | python_runtime/exonum_runtime/runtime/runtime.py:88-91 | an unparsable spec is refused with WRONG_SPEC, and nothing changes |
| Runtime.DeploymentLifecycle | python_runtime/exonum_runtime/runtime/runtime.py:73-105 | a request answers OK; once the future is set the artifact leaves pending and is deployed, with its class, exactly on OK; otherwise it stays pending |
| Runtime.DuplicateRequestSecondCompletionRaises | python_runtime/exonum_runtime/runtime/runtime.py:79-100 | for a twice-requested artifact, the first completion clears it and the second raises KeyError after forwarding |
| RuntimeOld.RequestDeploy | python_runtime/runtime/runtime.py:43-58 | an error is returned exactly for an unparsable spec; otherwise the artifact is pending |
| RuntimeOld.DeployCompletedAsWritten | python_runtime/runtime/runtime.py:66-74 | as written, a failed result changes nothing, and a successful one for an artifact that is not pending raises KeyError |
| RuntimeOld.DeployCompleted | python_runtime/runtime/runtime.py:66-74 | corrected, a pending artifact leaves the pending table however it ended, and is deployed exactly on success |
| RuntimeOld.FailedDeploymentStaysPending | python_runtime/runtime/runtime.py:70-74 | as written, after a failed completion the artifact stays pending and is not deployed |
| RuntimeOld.CompletionClearsPending | python_runtime/runtime/runtime.py:43-74 | corrected, every completion clears the pending entry, and the two versions agree on success |
| RustRuntimeOld.DeployArtifact | src/rust-interface/src/runtime.rs:46-63 | deploying fails exactly for an artifact already deployed; otherwise it records the spec |
| RustRuntimeOld.IsArtifactDeployed | src/rust-interface/src/runtime.rs:66-68 | an artifact is deployed exactly when its spec is recorded |
| RustRuntimeOld.StartService | src/rust-interface/src/runtime.rs:71-76 | starting a service succeeds exactly when its artifact is deployed, and otherwise fails with ArtifactNotDeployed |
| RustRuntimeOld.ArtifactProtobufSpec | src/rust-interface/src/runtime.rs:104-108 | a protobuf spec is known exactly for deployed artifacts |
| RustRuntimeOld.FirstDeploymentWins | src/rust-interface/src/runtime.rs:52-58 | a second deployment is refused and keeps the first spec; services start only after the first |
| RustRuntimeOld.DeployLeavesOthers | src/rust-interface/src/runtime.rs:52-58 | deploying one artifact changes nothing known about any other |
| PendingDeployment.New | rust_interface/src/pending_deployment.rs:19-24 | a new deployment has no status and no task |
| PendingDeployment.Complete | rust_interface/src/pending_deployment.rs:26-32 | `complete` sets success and wakes the registered task, if any |
| PendingDeployment.Error | rust_interface/src/pending_deployment.rs:34-40 | `error` sets the error and wakes the registered task, if any |
| PendingDeployment.PollFrom | rust_interface/src/pending_deployment.rs:47-56 | `poll` reports a set status unchanged and otherwise registers the current task and answers NotReady |
| PendingDeployment.PollThenSettleWakes | rust_interface/src/pending_deployment.rs:26-56 | a task that polled before settlement is woken, and its next poll reports the outcome |
| PendingDeployment.LastSettlementWins | rust_interface/src/pending_deployment.rs:26-40 | settling twice overwrites, and `poll` reports the last settlement |
| PendingDeployment.SettledPollIsStable | rust_interface/src/pending_deployment.rs:47-50 | once settled, polling changes nothing and reports the same answer for any task |
| PythonInterface.Default | rust_interface/src/python_interface.rs:14-24 | the initial interface has no ongoing deployments |
| PythonInterface.InitPythonSide | rust_interface/src/python_interface.rs:101-106 | registering replaces the callbacks and keeps the deployments |
| PythonInterface.NewDeployment | rust_interface/src/pending_deployment.rs:19-24 | a new deployment gets fresh cells at a new handle, and nothing else changes |
| PythonInterface.NotifyDeploymentStarted | rust_interface/src/python_interface.rs:27-33 | recording a deployment replaces any earlier one for that artifact |
| PythonInterface.ErrorCodeToResult | rust_interface/src/python_interface.rs:35-42 | code 0 is success; any other code is an error carrying that code |
| PythonInterface.DeploymentCompleted | rust_interface/src/python_interface.rs:111-133 | the call panics exactly for an unexpected artifact; otherwise it removes the entry, settles its cells only, by code, and wakes their task |
| PythonInterface.PollDeployment | rust_interface/src/pending_deployment.rs:47-56 | polling a deployment's future reports its cell's status and keeps the ongoing table |
| PythonInterface.DefaultMethodsNotReady | rust_interface/src/python_interface.rs:137-171 | before registration every call answers RuntimeNotReady, which reads as "not initialized", and no artifact is deployed |
| PythonInterface.DeploymentRoundTrip | rust_interface/src/python_interface.rs:27-133 | a started deployment settles on its report, with success exactly for 0, and a second report panics |
| PythonInterface.ReplacedDeploymentNeverSettles | rust_interface/src/python_interface.rs:27-33 | a replaced deployment's future is never settled by a later report |
| Utf8.EncodeScalar | python_runtime/exonum_runtime/ffi/raw_types.py:55 | a scalar encodes to 1-4 bytes; ASCII is one byte, itself, and every byte of a longer form is at least 0x80 |
| Utf8.Encode | python_runtime/exonum_runtime/ffi/raw_types.py:55 | an encoding is never shorter than the string |
| Utf8.DecodeHead | python_runtime/exonum_runtime/ffi/raw_types.py:48 | a well-formed head decodes to a Unicode scalar of 1-4 bytes, and is one byte exactly when ASCII |
| Utf8.DecodeEncodedHead | python_runtime/exonum_runtime/ffi/raw_types.py:45-55 | decoding the head of an encoded scalar gives the scalar and its encoded length |
| Utf8.DecodeTwo | python_runtime/exonum_runtime/ffi/raw_types.py:45-55 | the two-byte form decodes back to its scalar |
| Utf8.DecodeThree | python_runtime/exonum_runtime/ffi/raw_types.py:45-55 | the three-byte form decodes back to its scalar |
| Utf8.DecodeFour | python_runtime/exonum_runtime/ffi/raw_types.py:45-55 | the four-byte form decodes back to its scalar |
| Utf8.DecodeEncode | python_runtime/exonum_runtime/ffi/raw_types.py:45-55 | strict decoding inverts encoding on every string |
| Utf8.DecodeAppend | python_runtime/exonum_runtime/ffi/raw_types.py:65 | decoding an encoding followed by more bytes gives the string followed by the decoding of those bytes, and fails exactly when they fail |
| Utf8.EncodeZero | python_runtime/exonum_runtime/ffi/raw_types.py:55 | an encoding holds a zero byte exactly when the string holds NUL |
| RawTypes.StringAt | python_runtime/exonum_runtime/ffi/raw_types.py:48 | `string_at` returns the longest NUL-free prefix, ending at the first NUL or at the buffer's end |
| RawTypes.StringAtTerminated | python_runtime/exonum_runtime/ffi/raw_types.py:48 | a NUL-free prefix before a NUL is read back exactly |
| RawTypes.CStringRoundTrip | python_runtime/exonum_runtime/ffi/raw_types.py:45-55 | a NUL-free string stored into a `c_char_p` reads back as itself |
| RawTypes.CStringTruncatedAtNul | python_runtime/exonum_runtime/ffi/raw_types.py:45-55 | a string with a NUL reads back truncated at its first NUL |
| RawTypes.RustStrRead | rust_interface/src/types.rs:22 | a name passed as `String::as_ptr()` reads back as the name followed by whatever `string_at` finds after it, and fails to decode when that does |
| RawTypes.RustStrReadsExactly | rust_interface/src/types.rs:22 | such a name reads back as exactly itself iff the byte after it is zero |
| RawTypes.RustFromArtifactIdCorrected | rust_interface/src/types.rs:20-27 | corrected, sending the name as a `CString` succeeds exactly for a NUL-free name, and the id then converts back to itself |
| RawTypes.RustArtifactIdReadsPastName | rust_interface/src/types.rs:20-27 | an id the Rust side sends converts back to itself iff a zero byte follows its name, otherwise the name gains the bytes that follow; the `CString` sender equals the written one with a zero after the name |
| RawTypes.RustArtifactIdOverread | rust_interface/src/types.rs:22 | the id `(7, "a")` followed in memory by `b` and a zero reads back as `(7, "ab")` |
| RawTypes.RustFromInstanceSpecCorrected | rust_interface/src/types.rs:53-61 | corrected, sending both names as `CString`s succeeds exactly when both are NUL-free, and the spec then converts back to itself |
| RawTypes.RustInstanceSpecReadsPastNames | rust_interface/src/types.rs:53-61 | a spec the Rust side sends converts back to itself iff a zero byte follows each of its two names; the `CString` sender places those zeros |
| RawTypes.EncodeAppend | python_runtime/exonum_runtime/ffi/raw_types.py:55 | encoding distributes over concatenation |
| RawTypes.FromArtifactId | python_runtime/exonum_runtime/ffi/raw_types.py:52-55 | the raw id holds the runtime id modulo 2^32 and the UTF-8 name with its NUL |
| RawTypes.IntoArtifactId | python_runtime/exonum_runtime/ffi/raw_types.py:45-50 | conversion succeeds exactly when the name decodes, with the stored runtime id; otherwise UnicodeDecodeError |
| RawTypes.ArtifactIdRoundTrip | python_runtime/exonum_runtime/ffi/raw_types.py:45-55 | an id with a `u32` runtime id and a NUL-free name converts back to itself |
| RawTypes.ArtifactIdLossy | python_runtime/exonum_runtime/ffi/raw_types.py:43-55 | outside those bounds the round trip truncates the name at a NUL and wraps the runtime id |
| RawTypes.IntoInstanceSpecAsWritten | python_runtime/exonum_runtime/ffi/raw_types.py:63-70 | as written, conversion never succeeds: the three-argument constructor raises TypeError once both fields decode |
| RawTypes.FromInstanceSpecAsWritten | python_runtime/exonum_runtime/ffi/raw_types.py:73-76 | as written, the reverse conversion raises AttributeError on the missing `instance_id` |
| RawTypes.IntoInstanceSpec | python_runtime/exonum_runtime/ffi/raw_types.py:63-70 | corrected, conversion succeeds exactly when both names decode, and keeps the instance id, the decoded name and the artifact |
| RawTypes.FromInstanceSpecNameAsWritten | python_runtime/exonum_runtime/ffi/raw_types.py:76 | even with the instance id present, the written conversion raises TypeError, storing the `str` name into a `c_char_p` |
| RawTypes.FromInstanceSpec | python_runtime/exonum_runtime/ffi/raw_types.py:72-76 | corrected, the raw spec holds the wrapped instance id, the raw artifact id and what storing the encoded name into a `c_char_p` gives |
| RawTypes.InstanceSpecRoundTrip | python_runtime/exonum_runtime/ffi/raw_types.py:58-76 | corrected, an in-range spec with NUL-free names converts back to itself |
| RawTypes.InstanceSpecAsWrittenNeverConverts | python_runtime/exonum_runtime/ffi/raw_types.py:63-76 | as written, such a spec fails in both directions |
| RawTypes.IntoCallInfo | python_runtime/exonum_runtime/ffi/raw_types.py:84-86 | the call info keeps both `u32` fields |
| RawTypes.CallInfoRoundTrip | python_runtime/exonum_runtime/ffi/raw_types.py:79-86 | raw and Python call infos convert into each other without loss |
| RawTypes.Pad | python_runtime/exonum_runtime/ffi/raw_types.py:97 | a short hash fills a 32-byte array from the front, and the rest is zero |
| RawTypes.FromHash | python_runtime/exonum_runtime/ffi/raw_types.py:94-99 | `from_hash` succeeds exactly for at most 32 bytes, keeps them as a prefix, and leaves a 32-byte hash unchanged |
| RawTypes.ToRawHashes | python_runtime/exonum_runtime/ffi/raw_types.py:127-132 | `to_raw_hashes` succeeds exactly when all hashes fit, converting each in order |
| RawTypes.FromStateHashAggregator | python_runtime/exonum_runtime/ffi/raw_types.py:123-163 | conversion succeeds exactly when all hashes fit: runtime hashes first, then each instance's with its id, the lengths beside them; reading back gives the aggregator |
| RawTypes.ReadBackInverts | python_runtime/exonum_runtime/ffi/raw_types.py:102-163 | the documented layout read back gives the aggregator that filled it |
| RawTypes.ExactHashesUnchanged | python_runtime/exonum_runtime/ffi/raw_types.py:127-132 | 32-byte hashes pass through unchanged |
| RawTypes.FromArtifactProtobufSpec | python_runtime/exonum_runtime/ffi/raw_types.py:177-186 | one raw file per source, in order, each name and content encoded with its NUL, and the count wrapped to `u32` |
| RawTypes.ProtobufSpecReadable | python_runtime/exonum_runtime/ffi/raw_types.py:166-186 | every NUL-free source file reads back from the raw spec |
| RawTypes.IntoCaller | python_runtime/exonum_runtime/ffi/raw_types.py:199-213 | type 0 is a transaction with a 32-byte hash and author, type 1 is a service, and any other type raises RuntimeError |
| RawTypes.CallerRoundTrip | python_runtime/exonum_runtime/ffi/raw_types.py:189-213 | every well-formed caller converts back to itself |
| RawTypes.IntoExecutionContext | python_runtime/exonum_runtime/ffi/raw_types.py:221-227 | conversion succeeds exactly when the caller converts and the interface name decodes, and the caller's error comes first |
| RawTypes.ExecutionContextRoundTrip | python_runtime/exonum_runtime/ffi/raw_types.py:216-227 | a context with a well-formed caller and a NUL-free interface name, laid out with its name as a C string, converts back to itself |
| RawTypes.ExecutionContextNameCutAtNul | python_runtime/exonum_runtime/ffi/raw_types.py:226 | an interface name holding a NUL comes back cut at its first NUL, with the access and caller unchanged |
| RawTypes.StoreCharP | python_runtime/runtime/raw_types.py:39-41 | a `c_char_p` accepts bytes, adding the NUL, and refuses a `str` with TypeError |
| RawTypes.Encoded | python_runtime/exonum_runtime/ffi/raw_types.py:55 | encoding first makes the store succeed with the C string |
| RawTypesOld.FromArtifactIdAsWritten | python_runtime/runtime/raw_types.py:39-41 | as written, converting any artifact id raises TypeError |
| RawTypesOld.FromArtifactIdCorrected | python_runtime/exonum_runtime/ffi/raw_types.py:52-55 | with the name encoded first, the store succeeds and the id round-trips |
| RawTypesOld.IntoInstanceSpec | python_runtime/runtime/raw_types.py:49-54 | conversion succeeds exactly when both names decode, and keeps them |
| RawTypesOld.FromInstanceSpecAsWritten | python_runtime/runtime/raw_types.py:56-60 | as written, the conversion always raises TypeError |
| RawTypesOld.FromInstanceSpec | python_runtime/runtime/raw_types.py:56-60 | corrected, the raw spec stores the encoded names |
| RawTypesOld.InstanceSpecRoundTrip | python_runtime/runtime/raw_types.py:44-60 | corrected, an in-range spec with NUL-free names converts back to itself |
| RawTypesOld.IntoInstanceDescriptorAsWritten | python_runtime/runtime/raw_types.py:68-73 | as written, conversion never succeeds: AttributeError once the name decodes |
| RawTypesOld.IntoInstanceDescriptor | python_runtime/runtime/raw_types.py:63-73 | corrected, conversion succeeds exactly when the name decodes, and keeps the id |
| RawTypesOld.InstanceDescriptorRoundTrip | rust_interface/src/types.rs:86-96 | a descriptor the Rust side sends reads back as itself, with the `id` field read, exactly when a zero byte follows its unterminated name, and then the written decoder raises AttributeError; the `CString` sender is the written one with that zero placed |
| RawTypesOld.FromInstanceDescriptorCorrected | rust_interface/src/types.rs:86-96 | corrected, sending the name as a `CString` succeeds exactly for a NUL-free name, and the descriptor then reads back as itself |
| RawTypesOld.FromArtifactProtobufSpecAsWritten | python_runtime/runtime/raw_types.py:176-182 | as written, only a spec without sources converts, and then it matches the later revision |

## Left out

- Instance lifecycle: `start_instance`, `initialize_service`, `stop_service`, `execute`, `artifact_protobuf_spec`, `state_hashes`, `before_commit` and `after_commit` of the Python runtime raise NotImplementedError or do nothing, so there is no behaviour to model.
- The FFI wrappers (`ffi/merkledb/*.py`, `merkledb/ffi/*.py`, `merkledb_ffi.py`, `ffi_provider.py`) are modelled by what they are meant to do: a container method goes straight to the Rust function it reaches. What they do with result buffers is modelled as written. The plain list frees only a non-null buffer. The map and proof list wrappers of `ffi/merkledb` go through `into_bytes`, which always pops `_MERKLEDB_ALLOCATED`, and the proof map is modelled after the `ffi/merkledb` proof-map wrapper too (`ffi/merkledb/proof_map_index.py:38-44`, `:64-69`). The lines below list where the wrappers as written do something else.
- Containers.CallList: `ProofListIndexWrapper.clear` calls `self._inner.clear()`, which the structure does not have (`ffi/merkledb/proof_list_index.py:75`). So `clear` on a proof list raises AttributeError; the model clears the list.
- Containers.CallList: both list wrappers' `set_item` call `self._inner.methods.set`, but the field is named `set_item` (`ffi/merkledb/proof_list_index.py:71`, `merkledb/ffi/list_index.py:83`). So `__setitem__` raises AttributeError; the model writes the element.
- Containers.CallList: `ProofListIndexWrapper.len` returns `result.value` of the plain int that ctypes returns for a `c_uint64` (`ffi/merkledb/proof_list_index.py:65`), which raises AttributeError. The model returns the length.
- Containers.CallList: the plain list's `pop` slices by `result.data.value` (`merkledb/ffi/list_index.py:67`), an attribute a `POINTER(c_uint8)` does not have. The model slices by `data_len`, as `get` does.
- Containers.CallMap: `ProofMapIndex` imports `MerkledbFFI` from the `merkledb/ffi` package (`merkledb/indices/proof_map_index.py:7`), not from `ffi/merkledb`. That `MerkledbFFI` builds only `list_index` (`merkledb/ffi/ffi.py:31-46`), so `ffi.proof_map_index(...)` raises AttributeError and no proof map is built as written. The model follows the `ffi/merkledb` proof-map wrapper, so its promise that only `get` and `object_hash` raise IndexError, and only with nothing outstanding, is about that wrapper.
- Containers.AbsentMapKeyPops: for the proof map the model follows `ffi/merkledb/proof_map_index.py:38-44`, not the `merkledb/ffi` wrapper the container imports. That wrapper's `get` returns None on a null buffer without popping anything (`merkledb/ffi/proof_map_index.py:46-47`). So its absent key neither raises IndexError nor drops an unrelated buffer. The MapIndex half follows the wrapper `MapIndex` imports.
- Containers.MapSetThenGetItem: for the proof map the read-back follows `ffi/merkledb/proof_map_index.py:38-44`. The `merkledb/ffi` wrapper the container imports slices a present value by `result.data.value`, which a `POINTER(c_uint8)` does not have, so `get` raises AttributeError before `free_resource` runs (`merkledb/ffi/proof_map_index.py:49-51`). Its `object_hash` does the same (`:78-80`).
- Containers.ThroughPlainWrapper: the plain list's reads follow `merkledb/ffi/list_index.py:40-51`. `ffi/merkledb/list_index.py`, the wrapper `ListIndex` imports, is not part of this model. Slicing a pointer there gives a list of ints; the model returns bytes.
- `BaseIndex.mutable` does not exist: `BaseIndex` defines only `__init__` and `ensure_access` (`merkledb/indices/base_index.py:29-38`). So `@BaseIndex.mutable` raises AttributeError while the class bodies run (`list_index.py:24`, `map_index.py:25`, `proof_list_index.py:25`, `proof_map_index.py:26`), and none of the four containers can be created as written. The model takes the decorator to pass the method through unchanged, so a mutating method's only enforcement is the Rust snapshot panic it reaches.
- `rust_interface/src/merkledb_interface/list_index.rs` is not part of this model; the plain list is modelled through the storage engine's list, with `pop` as its pop.
- The deploy flow of `rust_interface/src/runtime.rs` tests `result.success` on a `u32` and calls `PythonRuntimeError::from_value`. `errors.rs` declares no `PythonRuntimeError`: its enum is `PythonRuntimeResult`, whose `from_value` takes a `u8` (`rust_interface/src/errors.rs:5`, `:29-30`). It is left out, and a failed deployment's error carries the raw code.
- No Rust code fills a `RawExecutionContext`: `execute` ignores its context (`rust_interface/src/runtime.rs:114`). `RawTypes.FromExecutionContext` is the layout the Python decoder expects, with the interface name as a NUL-terminated C string.
- I/O becomes parameters of a `World`: pip, the file system, `importlib` and hashing of the wheel. Protobuf parsing becomes a `Parser` and allocation an `Allocator`.
- The asyncio event loop: a scheduled deployment is run to completion at once by `Runtime.RunDeployment`.
- Concurrency is left out: the `RwLock`s, task notification order, and interleavings of callbacks.
- `proof_map_index.py` passes `self._access` rather than `self._access.inner()` to `initialize`; the raw handle is modelled for all four kinds.
- The earlier `ExpiredForkTokenError` is declared but never raised by the modelled code, so token validity is modelled without enforcement.
- `ProofListIndex::set` past the end is taken to panic as the storage engine does; the engine itself is not part of this model.
- The map and proof map of one name share a namespace in the model's storage.
- Cryptography (signatures, hashes) and protobuf contents are uninterpreted: an owner's prefix is a parameter, and `object_hash` takes the hash function as an argument.
- The earlier `types.py` declares `DeploymentResult` with a result and an artifact id, while the earlier `artifact.py` builds it with success and error and the undefined `PythonRuntimeError`. The model follows `artifact.py`.
- The earlier `Artifact.get_service` is the later one and is not modelled twice. Likewise the earlier `is_artifact_deployed` is the later `Runtime.IsArtifactDeployed` over the earlier tables; `RuntimeOld` writes it as `id in artifacts`.
- `MemoryDb` models the dict-backed backend only; `leveldb.py` is not part of this model.
- RawTypes.FromArtifactId: Dafny's `char` excludes the surrogate code points. So the UnicodeEncodeError that `bytes(name, "utf-8")` raises on a lone surrogate (`ffi/raw_types.py:55`) cannot arise in the model. The same holds for `Utf8.Encode`, `RawTypes.Encoded` and every other conversion that encodes a name: every string the model can express encodes.
- MemoryDb: `runtime/merkledb/backends/memorydb.py:5` imports `Snapshot` from `runtime.merkledb.db`, which declares only `Fork` and `Database` (`runtime/merkledb/db.py:6`, `:32`), so the module raises ImportError as written. The backend, `MapFork` and `OldBaseIndex` are modelled against the `merkledb_old` interface (`exonum_runtime/merkledb_old/db.py`), which does declare `Snapshot`. The scenarios follow the unit tests, whose imports (`runtime.merkledb_old.backends`, `runtime.merkledb.*`) name packages that are not part of this model.
- PythonInterface.ErrorCodeToResult: `python_interface.rs:9` imports the undeclared `PythonRuntimeError`, and line 38 passes a `u32` to a `from_value` that takes a `u8`, so the function does not type-check. The model keeps the error as the raw code. The `RuntimeNotReady as u32` of the default methods (`python_interface.rs:142-170`) is taken as `PythonRuntimeResult::RuntimeNotReady`.
- Containers.AbsentMapKeyPops: `ffi/merkledb/map_index.py:6` imports `BinaryData` from `ffi/merkledb/common.py`, which is not part of this model. The model takes that helper to be `merkledb/ffi/common.py:13-25`, with the same unconditional pop.
- The runtime and deployment members receive artifact ids and specs as values, as the `CString` senders would deliver them. The unterminated names of the written Rust senders (`rust_interface/src/types.rs:22`, `:54`, `:90`, and `src/rust-interface/src/types.rs:21`, `:59`) are modelled only at the conversion level (`RawTypes.RustStrRead` and the members after it). The earlier revision's senders repeat the later ones and are not modelled twice.
- Schema.CheckIndexType: a class value is one of the four container classes, some other class by name, or not a class. So `BaseIndex` itself and a user-defined subclass of a container are "other" classes, and the model refuses them where `issubclass(t, BaseIndex)` (`merkledb/schema.py:102`) accepts them.
- Artifact.Deploy: `World.importAfter` is independent of `World.importBefore`. In Python, `sys.modules` keeps a module that already imported, so importing it again after installation returns the cached module. The model lets installation change what the import gives, in both revisions.

## Findings

| source | as written | input that shows it | evidently intended | confidence | as-written member | corrected member |
|---|---|---|---|---|---|---|
| python_runtime/exonum_runtime/merkledb/indices/base_index.py:23 | only names without a leading underscore are wrapped, so `__getitem__`, `__setitem__`, `__len__` and `__iter__` skip the access check | `index[0]` after the `with` block that opened the access has ended | item and length access raise IndexAccessError on an expired access, like the named methods | not executed | IndexGuard.ItemAccessUnguarded | IndexGuard.CorrectedGuardsItemAccess |
| python_runtime/exonum_runtime/merkledb/ffi/common.py:21-23 | `free_merkledb_allocated()` pops `_MERKLEDB_ALLOCATED` (`ffi/c_callbacks.py:170-172`) even for the null pointer of an absent value, which allocated nothing | `get` of a key that is not in a map: with no other buffer outstanding it raises IndexError, otherwise it drops that unrelated buffer | pop only when a buffer was returned | not executed | BinaryData.AbsentValueRaises | BinaryData.CorrectedRoundTrip |
| python_runtime/exonum_runtime/merkledb/indices/proof_list_index.py:59-67 | `__next__` never increments `_pos`; latent as written, because `__init__` first calls `len()` (proof_list_index.py:57), which raises AttributeError at `result.value` (ffi/merkledb/proof_list_index.py:65) | `list(proof_list)` on a list with one element | yield each element once, then stop | not executed | ListIter.ProofListIteratorStuck | ListIter.IterationYieldsList |
| python_runtime/exonum_runtime/merkledb/schema.py:101 | `for index_name, index_type in annotations` unpacks each key string | a schema declaring `wallets: ProofMapIndex` | iterate `annotations.items()` | not executed | Schema.DocumentedSchemaRejected | Schema.SchemaMetaAcceptsIndexAnnotations |
| python_runtime/exonum_runtime/merkledb/schema.py:40 | the state-hash names are looked up in the new class's own `_schema_meta` | `_schema_ = CurrencySchema`, `_state_hash_ = ["wallets"]` | look them up in the `_schema_meta` of `_schema_` | not executed | Schema.DocumentedStateHashRejected | Schema.WithSchemaAcceptsDeclaredNames |
| python_runtime/runtime/runtime.py:70-74 | the pending entry is deleted only on success; latent in this revision, whose stub `Artifact.deploy` never sets its future (runtime.py:19-21), so the callback never runs | a completion with `success = False` | remove the pending entry however the deployment ended | not executed | RuntimeOld.FailedDeploymentStaysPending | RuntimeOld.CompletionClearsPending |
| python_runtime/exonum_runtime/ffi/raw_types.py:70 | `InstanceSpec(instance_id, name, artifact_id)` is called with three arguments on a two-field type | any raw instance spec whose names decode | build the spec with its instance id, as `rust_interface/src/types.rs` does | not executed | RawTypes.InstanceSpecAsWrittenNeverConverts | RawTypes.InstanceSpecRoundTrip |
| python_runtime/runtime/raw_types.py:41 | a `str` is stored into a `c_char_p` field | any artifact id | encode the name to UTF-8 bytes first | not executed | RawTypesOld.FromArtifactIdAsWritten | RawTypesOld.FromArtifactIdCorrected |
| python_runtime/runtime/raw_types.py:71 | reads `self.instance_id`, a field the structure does not declare | any descriptor whose name decodes | read the declared `id` field | not executed | RawTypesOld.IntoInstanceDescriptorAsWritten | RawTypesOld.InstanceDescriptorRoundTrip |
| python_runtime/exonum_runtime/ffi/raw_types.py:76 | `name=instance_spec.name` stores a `str` into a `c_char_p` field; today the missing `instance_id` on the same line raises first | a spec carrying an instance id, once `instance_id` exists | encode the name to UTF-8, as line 55 does for the artifact name | not executed | RawTypes.FromInstanceSpecNameAsWritten | RawTypes.InstanceSpecRoundTrip |
| python_runtime/exonum_runtime/merkledb/schema_access.py:50-60 | `index_type(snapshot, fork)` calls a container class whose only constructor takes one access (`merkledb/indices/base_index.py:32`), so it raises TypeError | `index("wallets")` inside the block, for a declared index | build the container over the access the cached snapshot and fork provide | not executed | SchemaAccess.IndexAsWrittenNeverBuilds | SchemaAccess.FirstIndexOpens |
| python_runtime/exonum_runtime/merkledb/indices/list_index.py:16 | `initialize` reads `self._index_id`, which `BaseIndex.__init__` never sets; the same holds at `map_index.py:16`, `proof_list_index.py:17` and `proof_map_index.py:17` | `initialize()` on any container whose access is valid | pass the index's own name to the FFI | not executed | Containers.InitializeAsWrittenNeverOpens | Containers.Initialize |
| rust_interface/src/types.rs:22 | names go to Python as `String::as_ptr()`, which has no terminating NUL; the same holds at `:54`, `:90` and in the earlier `src/rust-interface/src/types.rs:21`, `:59` | the artifact id `(7, "a")` whose buffer is followed by the byte `b` and then a zero: Python reads `"ab"` | pass each name as a `CString` kept alive for the call | not executed | RawTypes.RustArtifactIdOverread | RawTypes.RustFromArtifactIdCorrected |
