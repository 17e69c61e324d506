/**
 The `BinaryData` buffer that carries optional byte strings across the
 Python/Rust boundary: the Rust indices encode `Option<Vec<u8>>` into it
 (`rust_interface/src/merkledb_interface/map_index.rs`), and Python decodes
 it with `BinaryData.into_bytes` (`exonum_runtime/merkledb/ffi/common.py`).

 A pointer is modelled by what it points to: `None` for a null pointer, the
 buffer's bytes otherwise. Buffers for results are obtained from the
 allocator callback `merkledb_allocate`
 (`exonum_runtime/ffi/c_callbacks.py`), which appends each buffer it hands
 out to the list `_MERKLEDB_ALLOCATED`; `free_merkledb_allocated` pops the
 last entry of that list, whichever buffer it is. The ledger is the length
 of that list. Whether the allocator answers a zero-length request with a
 null pointer is a parameter.
 */
module BinaryData {
  import opened Common

  /** `BinaryData { data, data_len }`. */
  datatype BinaryData = BinaryData(data: Option<Bytes>, dataLen: nat)

  /** The allocation callback, as far as the encoding can tell. */
  datatype Allocator = Allocator(nullOnEmpty: bool)

  /** The number of buffers held in `_MERKLEDB_ALLOCATED`. */
  datatype Ledger = Ledger(outstanding: nat)

  /**
   What Python gets back from decoding: the value and the ledger after the
   free, or the IndexError ("pop from empty list") that
   `_MERKLEDB_ALLOCATED.pop()` raises when nothing is outstanding.
   */
  datatype Decoded = Decoded(value: Option<Bytes>, ledger: Ledger) | PopFromEmpty

  /** What `allocate(len)` returns, filled with `bytes`. */
  function Allocate(alloc: Allocator, bytes: Bytes): Option<Bytes> {
    if alloc.nullOnEmpty && |bytes| == 0 then None else Some(bytes)
  }

  /** `free_merkledb_allocated()`: one entry fewer, or IndexError on an empty list. */
  function Free(value: Option<Bytes>, l: Ledger): (r: Decoded)
    ensures r.PopFromEmpty? <==> l.outstanding == 0
    ensures r.Decoded? ==> r.value == value && r.ledger.outstanding + 1 == l.outstanding
  {
    if l.outstanding == 0 then PopFromEmpty else Decoded(value, Ledger(l.outstanding - 1))
  }

  /** The bytes a non-null buffer holds: its first `data_len` bytes. */
  function Contents(b: BinaryData): (r: Option<Bytes>)
    requires b.data.Some? ==> b.dataLen <= |b.data.value|
    ensures r.None? <==> b.data.None?
    ensures r.Some? ==> |r.value| == b.dataLen && r.value <= b.data.value
  {
    if b.data.Some? then Some(b.data.value[..b.dataLen]) else None
  }

  /**
   The Rust side of every `get`: `Some(data)` is copied into a freshly
   allocated buffer with `data_len = len`, `None` becomes a null pointer with
   length 0 and allocates nothing. A buffer the allocator handed out is one
   more entry in `_MERKLEDB_ALLOCATED`; a null answer adds none.
   */
  function Encode(v: Option<Bytes>, alloc: Allocator, l: Ledger): (r: (BinaryData, Ledger))
    ensures v.None? ==> r == (BinaryData(None, 0), l)
    ensures v.Some? ==> r.0.dataLen == |v.value|
    ensures v.Some? && !(alloc.nullOnEmpty && v.value == []) ==> r.0.data == Some(v.value)
    ensures r.1 == Ledger(l.outstanding + if r.0.data.Some? then 1 else 0)
    ensures r.0.data.Some? ==> r.0.dataLen <= |r.0.data.value|
  {
    match v
    case None => (BinaryData(None, 0), l)
    case Some(data) =>
      var buffer := Allocate(alloc, data);
      (BinaryData(buffer, |data|), Ledger(l.outstanding + if buffer.Some? then 1 else 0))
  }

  /**
   `BinaryData.into_bytes` as written: a null pointer gives None, any other
   pointer its first `data_len` bytes; either way one entry is popped from
   `_MERKLEDB_ALLOCATED`, which raises IndexError when the list is empty.
   */
  function IntoBytes(b: BinaryData, l: Ledger): (r: Decoded)
    requires b.data.Some? ==> b.dataLen <= |b.data.value|
    ensures r.PopFromEmpty? <==> l.outstanding == 0
    ensures r.Decoded? ==> r.ledger.outstanding + 1 == l.outstanding
    ensures r.Decoded? ==> (r.value.None? <==> b.data.None?)
    ensures r.Decoded? && r.value.Some? ==> |r.value.value| == b.dataLen && r.value.value <= b.data.value
  {
    Free(Contents(b), l)
  }

  /**
   `into_bytes` freeing only the buffer it was actually given. This is also
   what the plain-list wrapper's `get` does (`merkledb/ffi/list_index.py`):
   a null pointer gives None and frees nothing.
   */
  function IntoBytesCorrected(b: BinaryData, l: Ledger): (r: Decoded)
    requires b.data.Some? ==> b.dataLen <= |b.data.value|
    ensures r.PopFromEmpty? <==> b.data.Some? && l.outstanding == 0
    ensures b.data.None? ==> r == Decoded(None, l)
    ensures b.data.Some? ==> r == IntoBytes(b, l)
  {
    if b.data.Some? then Free(Contents(b), l) else Decoded(None, l)
  }

  // ----------------------------------------------------------------------
  // Properties

  /**
   Decoding an encoded present value gives it back and leaves the ledger
   as it was. The one exception is `Some(b"")` under an allocator that
   answers a zero-length request with null: that pointer is null, so it
   behaves like an absent value.
   */
  lemma RoundTrip(v: Bytes, alloc: Allocator, l: Ledger)
    requires !(alloc.nullOnEmpty && v == [])
    ensures var (b, l1) := Encode(Some(v), alloc, l);
      IntoBytes(b, l1) == Decoded(Some(v), l)
  {
    assert v[..|v|] == v;
  }

  /** A present value always keeps its length: `data_len` is the value's length. */
  lemma LengthPreserved(v: Bytes, alloc: Allocator, l: Ledger)
    ensures Encode(Some(v), alloc, l).0.dataLen == |v|
  {
  }

  /**
   As written, reading an absent value with nothing outstanding raises
   IndexError: the null pointer allocated nothing, yet `into_bytes` pops.
   */
  lemma AbsentValueRaises(alloc: Allocator)
    ensures var (b, l1) := Encode(None, alloc, Ledger(0));
      IntoBytes(b, l1) == PopFromEmpty
  {
  }

  /**
   As written, reading an absent value while another buffer is still
   outstanding returns None but drops that unrelated buffer from
   `_MERKLEDB_ALLOCATED`.
   */
  lemma AbsentValueDropsLiveBuffer(alloc: Allocator, l: Ledger)
    requires l.outstanding > 0
    ensures var (b, l1) := Encode(None, alloc, l);
      IntoBytes(b, l1) == Decoded(None, Ledger(l.outstanding - 1))
  {
  }

  /**
   With the corrected decoder every encode/decode pair gives the value back,
   never raises, and leaves `_MERKLEDB_ALLOCATED` as it was, present or
   absent.
   */
  lemma CorrectedRoundTrip(v: Option<Bytes>, alloc: Allocator, l: Ledger)
    ensures var (b, l1) := Encode(v, alloc, l);
      IntoBytesCorrected(b, l1) == Decoded(if alloc.nullOnEmpty && v == Some([]) then None else v, l)
  {
    if v.Some? && !(alloc.nullOnEmpty && v.value == []) {
      RoundTrip(v.value, alloc, l);
    }
  }
}
