/**
 The older list encoding (`runtime/merkledb/indices/list_index.py`,
 `ListIndexFork`): a list stored in the dict of one MemoryDb fork, with
 the key `b"length"` holding the length and element `i` under the 4-byte
 big-endian encoding of `i`.

 Every operation here works on the fork's dict (`db.dicts[f.slot]` in
 `MemoryDb`), which is all that `self._inner.get/put/delete` touch.
 Python exceptions become `Raised`, carrying the dict as it is at the
 moment of raising, since writes done before an exception are not undone.
 */
module ListFork {
  import opened Common
  import MemoryDb

  type Store = MemoryDb.Store

  /** `b"length"`. */
  const LENGTH_KEY: Bytes := [108, 101, 110, 103, 116, 104]

  /** `_INDEX_BYTE_LENGTH`. */
  const INDEX_BYTE_LENGTH: nat := 4

  datatype ListError =
    | IndexError      // "list index out of range"
    | OverflowError   // `int.to_bytes` on a value outside 0 .. 2^32 - 1
    | CorruptedIndex  // RuntimeError("Corrupted list index")

  datatype Step<T> = Done(store: Store, value: T) | Raised(store: Store, error: ListError)

  /** Big-endian 4-byte encoding of an in-range value. */
  function Encode4(v: u32): (b: Bytes)
    ensures |b| == INDEX_BYTE_LENGTH
  {
    var a := v % 256;
    var v1 := v / 256;
    var b1 := v1 % 256;
    var v2 := v1 / 256;
    var c := v2 % 256;
    var d := v2 / 256;
    [d, c, b1, a]
  }

  /** `_int_to_bytes`: `value.to_bytes(4, "big")`, None for OverflowError. */
  function IntToBytes(value: int): Option<Bytes> {
    if 0 <= value < TWO_TO_THE_32 then Some(Key(value)) else None
  }

  /** `_bytes_to_int`: `int.from_bytes(value, "big")`, for any length. */
  function BytesToInt(value: Bytes): nat {
    if |value| == 0 then 0 else BytesToInt(value[..|value| - 1]) * 256 + value[|value| - 1]
  }

  /** The key of element `i` (for `0 <= i < 2^32`). */
  function Key(i: u32): Bytes {
    Encode4(i)
  }

  // ----------------------------------------------------------------------
  // Integer encoding

  lemma {:induction false} Decode4(b: Bytes)
    requires |b| == 4
    ensures BytesToInt(b) == ((b[0] as int * 256 + b[1]) * 256 + b[2]) * 256 + b[3]
  {
    assert b[..1][..0] == [];
    assert BytesToInt(b[..1]) == b[0];
    assert b[..2][..1] == b[..1];
    assert BytesToInt(b[..2]) == b[0] as int * 256 + b[1];
    assert b[..3][..2] == b[..2];
    assert BytesToInt(b[..3]) == (b[0] as int * 256 + b[1]) * 256 + b[2];
    assert b[..4][..3] == b[..3] && b[..4] == b;
  }

  /** Encoding then decoding an index gives it back. */
  lemma {:induction false} IntBytesRoundTrip(v: int)
    ensures 0 <= v < TWO_TO_THE_32 <==> IntToBytes(v).Some?
    ensures 0 <= v < TWO_TO_THE_32 ==> BytesToInt(IntToBytes(v).value) == v
  {
    if 0 <= v < TWO_TO_THE_32 {
      var b := Encode4(v);
      Decode4(b);
      var v1 := v / 256;
      var v2 := v1 / 256;
      assert v == v1 * 256 + v % 256;
      assert v1 == v2 * 256 + v1 % 256;
      assert v2 == (v2 / 256) * 256 + v2 % 256;
    }
  }

  /** One base-256 digit step: `q * 256 + r` splits back into `q` and `r`. */
  lemma DigitSplit(q: int, r: int)
    requires 0 <= r < 256
    ensures (q * 256 + r) % 256 == r && (q * 256 + r) / 256 == q
  {
  }

  /** Decoding then encoding a 4-byte key gives it back. */
  lemma {:induction false} BytesIntRoundTrip(b: Bytes)
    requires |b| == INDEX_BYTE_LENGTH
    ensures BytesToInt(b) < TWO_TO_THE_32
    ensures IntToBytes(BytesToInt(b)) == Some(b)
  {
    Decode4(b);
    var b0: int, b1: int, b2: int, b3: int := b[0], b[1], b[2], b[3];
    var mid := b0 * 256 + b1;
    var hi := mid * 256 + b2;
    var v := hi * 256 + b3;
    assert BytesToInt(b) == v;
    assert mid < 65536 && hi < 16777216;
    DigitSplit(hi, b3);
    DigitSplit(mid, b2);
    DigitSplit(b0, b1);
    assert b0 / 256 == 0 && b0 % 256 == b0;
    assert Encode4(v) == [b0, b1, b2, b3];
    assert [b[0], b[1], b[2], b[3]] == b;
  }

  /** Distinct indices have distinct keys. */
  lemma KeyInjective(i: u32, j: u32)
    ensures Key(i) == Key(j) ==> i == j
  {
    IntBytesRoundTrip(i);
    IntBytesRoundTrip(j);
  }

  /** An element key is 4 bytes and the length key 6, so they never collide. */
  lemma KeysNeverCollide(i: u32)
    ensures Key(i) != LENGTH_KEY
  {
    assert |Key(i)| != |LENGTH_KEY|;
  }

  // ----------------------------------------------------------------------
  // Representation invariant

  /**
   `store` holds the list `xs`: the length key encodes `|xs|`, element `i`
   sits under `Key(i)` for `i < |xs|`, and no element key at or beyond the
   length is present.
   */
  ghost predicate Represents(store: Store, xs: seq<Bytes>) {
    && |xs| < TWO_TO_THE_32
    && LENGTH_KEY in store && store[LENGTH_KEY] == Encode4(|xs|)
    && (forall i | 0 <= i < |xs| :: Key(i) in store && store[Key(i)] == xs[i])
    && (forall i: u32 | |xs| <= i :: Key(i) !in store)
  }

  /** No list keys at all: what a never-written fork holds. */
  ghost predicate NoListKeys(store: Store) {
    && LENGTH_KEY !in store
    && forall i: u32 :: Key(i) !in store
  }

  // ----------------------------------------------------------------------
  // Operations

  /**
   `ListIndexFork.__init__`: writes length 0 when `self._inner.get(b"length")`
   is falsy, that is missing or empty.
   */
  function Init(store: Store): Store {
    if LENGTH_KEY !in store || store[LENGTH_KEY] == [] then store[LENGTH_KEY := Encode4(0)]
    else store
  }

  /** `__len__`. */
  function Len(store: Store): Step<nat> {
    if LENGTH_KEY !in store then Raised(store, CorruptedIndex)
    else Done(store, BytesToInt(store[LENGTH_KEY]))
  }

  /** `__getitem__`: IndexError exactly when no value sits under the key. */
  function GetItem(store: Store, idx: int): Step<Bytes> {
    match IntToBytes(idx)
    case None => Raised(store, OverflowError)
    case Some(key) => if key in store then Done(store, store[key]) else Raised(store, IndexError)
  }

  /** `__setitem__`: checks `idx >= len(self)` before writing. */
  function SetItem(store: Store, idx: int, value: Bytes): Step<()> {
    match Len(store)
    case Raised(s, e) => Raised(s, e)
    case Done(_, n) =>
      if idx >= n then Raised(store, IndexError)
      else match IntToBytes(idx)
        case None => Raised(store, OverflowError)
        case Some(key) => Done(store[key := value], ())
  }

  /**
   `append`: writes the element at position `len`, then the new length. When
   the length would reach 2^32 the element is written and the length update
   raises.
   */
  function Append(store: Store, value: Bytes): Step<()> {
    match Len(store)
    case Raised(s, e) => Raised(s, e)
    case Done(_, n) =>
      match IntToBytes(n)
      case None => Raised(store, OverflowError)
      case Some(key) =>
        var s1 := store[key := value];
        match IntToBytes(n + 1)
        case None => Raised(s1, OverflowError)
        case Some(len) => Done(s1[LENGTH_KEY := len], ())
  }

  /**
   Loop state of `__delitem__(idx)` on the list `xs`, before the iteration
   for position `i`: positions below `i - 1` already hold the result list,
   the others still hold `xs`, and the length key is untouched.
   */
  ghost predicate ShiftedUpTo(cur: Store, xs: seq<Bytes>, idx: int, i: int) {
    && 0 <= idx < |xs| < TWO_TO_THE_32
    && idx + 1 <= i <= |xs|
    && LENGTH_KEY in cur && cur[LENGTH_KEY] == Encode4(|xs|)
    && (forall j: int | 0 <= j < |xs| :: Key(j) in cur && cur[Key(j)] == Shifted(xs, idx, i, j))
    && (forall j: u32 | |xs| <= j :: Key(j) !in cur)
  }

  /** What position `j` holds part-way through the shift. */
  ghost function Shifted(xs: seq<Bytes>, idx: int, i: int, j: int): Bytes
    requires 0 <= idx < i <= |xs| && 0 <= j < |xs|
  {
    if j < idx || i - 1 <= j then xs[j] else xs[j + 1]
  }

  /** One loop iteration: read position `i`, store it at `i - 1`. */
  lemma ShiftStep(cur: Store, xs: seq<Bytes>, idx: int, i: int)
    requires ShiftedUpTo(cur, xs, idx, i) && i < |xs|
    ensures GetItem(cur, i) == Done(cur, xs[i])
    ensures SetItem(cur, i - 1, xs[i]) == Done(cur[Key(i - 1) := xs[i]], ())
    ensures ShiftedUpTo(cur[Key(i - 1) := xs[i]], xs, idx, i + 1)
  {
    IntBytesRoundTrip(|xs|);
    assert 0 <= i < |xs|;
    assert Key(i) in cur;
    assert cur[Key(i)] == xs[i];
    var next := cur[Key(i - 1) := xs[i]];
    KeysNeverCollide(i - 1);
    forall j | 0 <= j < |xs|
      ensures Key(j) in next && next[Key(j)] == Shifted(xs, idx, i + 1, j)
    {
      KeyInjective(j, i - 1);
    }
    forall j: u32 | |xs| <= j
      ensures Key(j) !in next
    {
      KeyInjective(j, i - 1);
    }
  }

  /** After the loop: dropping the last key and storing the new length gives the result list. */
  lemma ShiftFinish(cur: Store, xs: seq<Bytes>, idx: int)
    requires ShiftedUpTo(cur, xs, idx, |xs|)
    ensures Represents((cur - {Key(|xs| - 1)})[LENGTH_KEY := Encode4(|xs| - 1)], xs[..idx] + xs[idx + 1..])
  {
    var ys := xs[..idx] + xs[idx + 1..];
    var fin := (cur - {Key(|xs| - 1)})[LENGTH_KEY := Encode4(|xs| - 1)];
    KeysNeverCollide(|xs| - 1);
    forall j | 0 <= j < |ys|
      ensures Key(j) in fin && fin[Key(j)] == ys[j]
    {
      KeyInjective(j, |xs| - 1);
      KeysNeverCollide(j);
      assert ys[j] == if j < idx then xs[j] else xs[j + 1];
      assert Key(j) in cur && cur[Key(j)] == Shifted(xs, idx, |xs|, j) == ys[j];
    }
    forall j: u32 | |ys| <= j
      ensures Key(j) !in fin
    {
      KeysNeverCollide(j);
    }
  }

  /** Before the first iteration nothing has moved yet. */
  lemma ShiftStart(store: Store, xs: seq<Bytes>, idx: int)
    requires Represents(store, xs) && 0 <= idx < |xs|
    ensures ShiftedUpTo(store, xs, idx, idx + 1)
  {
    forall j: int | 0 <= j < |xs|
      ensures Key(j) in store && store[Key(j)] == Shifted(xs, idx, idx + 1, j)
    {
    }
  }

  /**
   The loop of `__delitem__(idx)`: `self[i - 1] = self[i]` for `i` in
   `range(idx + 1, list_len)`.
   */
  method ShiftDown(store: Store, idx: int, listLen: nat, ghost xs: seq<Bytes>) returns (r: Step<()>)
    ensures idx + 1 >= listLen ==> r == Done(store, ())
    ensures Represents(store, xs) && listLen == |xs| && 0 <= idx < |xs| ==>
      r.Done? && ShiftedUpTo(r.store, xs, idx, |xs|)
    ensures Represents(store, xs) && listLen == |xs| && idx + 1 < listLen && idx < 0 ==>
      r == Raised(store, OverflowError)
  {
    ghost var wf := Represents(store, xs) && listLen == |xs|;
    if wf && 0 <= idx < |xs| {
      ShiftStart(store, xs, idx);
    }
    if wf && idx == -1 && 0 < |xs| {
      assert Key(0) in store;
    }
    var cur := store;
    var i := idx + 1;
    while i < listLen
      invariant idx < 0 ==> cur == store && i == idx + 1
      invariant idx + 1 <= i
      invariant i == idx + 1 ==> cur == store
      invariant idx + 1 >= listLen ==> i == idx + 1
      invariant wf && 0 <= idx < |xs| ==> ShiftedUpTo(cur, xs, idx, i)
    {
      if wf && 0 <= idx < |xs| {
        ShiftStep(cur, xs, idx, i);
      }
      var g := GetItem(cur, i);
      if g.Raised? {
        return Raised(cur, g.error);
      }
      var st := SetItem(cur, i - 1, g.value);
      if st.Raised? {
        return Raised(st.store, st.error);
      }
      cur := st.store;
      i := i + 1;
    }
    return Done(cur, ());
  }

  /**
   `__delitem__`: shifts every later element one place down, deletes the last
   key and stores the decremented length.
   */
  method DelItem(store: Store, idx: int, ghost xs: seq<Bytes>) returns (r: Step<()>)
    ensures Represents(store, xs) && 0 <= idx < |xs| ==>
      r.Done? && Represents(r.store, xs[..idx] + xs[idx + 1..])
    ensures Represents(store, xs) && idx >= |xs| ==> r == Raised(store, IndexError)
    ensures Represents(store, xs) && idx < 0 ==> r == Raised(store, OverflowError)
  {
    var lenStep := Len(store);
    if lenStep.Raised? {
      return Raised(store, lenStep.error);
    }
    var listLen := lenStep.value;
    ghost var wf := Represents(store, xs);
    if wf {
      IntBytesRoundTrip(|xs|);
    }
    if idx >= listLen {
      return Raised(store, IndexError);
    }
    var shifted := ShiftDown(store, idx, listLen, xs);
    if shifted.Raised? {
      return shifted;
    }
    var cur := shifted.store;
    if wf && 0 <= idx {
      ShiftFinish(cur, xs, idx);
    }
    var newLen: int := listLen as int - 1;
    var lastKey := IntToBytes(newLen);
    if lastKey.None? {
      return Raised(cur, OverflowError);
    }
    cur := cur - {lastKey.value};
    var lenBytes := IntToBytes(newLen);
    cur := cur[LENGTH_KEY := lenBytes.value];
    r := Done(cur, ());
  }

  // ----------------------------------------------------------------------
  // Properties

  /** A fresh fork becomes the empty list. */
  lemma InitEmpty(store: Store)
    requires NoListKeys(store)
    ensures Represents(Init(store), [])
  {
    var s := Init(store);
    forall i: u32 ensures Key(i) !in s {
      KeysNeverCollide(i);
    }
  }

  /** An existing list is left untouched by the constructor. */
  lemma InitKeepsExisting(store: Store, xs: seq<Bytes>)
    requires Represents(store, xs)
    ensures Init(store) == store
  {
  }

  /** `len` reads the stored length; a missing length key is a corrupted index. */
  lemma LenSpec(store: Store, xs: seq<Bytes>)
    ensures Represents(store, xs) ==> Len(store) == Done(store, |xs|)
    ensures LENGTH_KEY !in store ==> Len(store) == Raised(store, CorruptedIndex)
  {
    if Represents(store, xs) {
      IntBytesRoundTrip(|xs|);
    }
  }

  /**
   `getitem` returns element `idx`, raises IndexError from `len` on up (for
   example at `idx == len`) and OverflowError for keys `to_bytes` rejects.
   */
  lemma GetItemSpec(store: Store, xs: seq<Bytes>, idx: int)
    requires Represents(store, xs)
    ensures 0 <= idx < |xs| ==> GetItem(store, idx) == Done(store, xs[idx])
    ensures |xs| <= idx < TWO_TO_THE_32 ==> GetItem(store, idx) == Raised(store, IndexError)
    ensures (idx < 0 || idx >= TWO_TO_THE_32) ==> GetItem(store, idx) == Raised(store, OverflowError)
  {
    if |xs| <= idx < TWO_TO_THE_32 {
      assert Key(idx) !in store;
    }
  }

  /** `setitem` replaces only element `idx`, keeping the length. */
  lemma SetItemSpec(store: Store, xs: seq<Bytes>, idx: int, value: Bytes)
    requires Represents(store, xs)
    ensures 0 <= idx < |xs| ==>
      SetItem(store, idx, value).Done? && Represents(SetItem(store, idx, value).store, xs[idx := value])
    ensures idx >= |xs| ==> SetItem(store, idx, value) == Raised(store, IndexError)
    ensures idx < 0 ==> SetItem(store, idx, value) == Raised(store, OverflowError)
  {
    LenSpec(store, xs);
    if 0 <= idx < |xs| {
      var s := SetItem(store, idx, value).store;
      KeysNeverCollide(idx);
      forall i | 0 <= i < |xs| ensures Key(i) in s && s[Key(i)] == xs[idx := value][i] {
        KeyInjective(i, idx);
      }
      forall i: u32 | |xs| <= i ensures Key(i) !in s {
        KeyInjective(i, idx);
      }
    }
  }

  /**
   `append` stores the value at position `len` and increments the length,
   keeping every earlier element; at length 2^32 - 1 the element is written
   but the length update overflows.
   */
  lemma AppendSpec(store: Store, xs: seq<Bytes>, value: Bytes)
    requires Represents(store, xs)
    ensures |xs| + 1 < TWO_TO_THE_32 ==>
      Append(store, value).Done? && Represents(Append(store, value).store, xs + [value])
    ensures |xs| + 1 == TWO_TO_THE_32 ==>
      Append(store, value) == Raised(store[Key(|xs|) := value], OverflowError)
  {
    LenSpec(store, xs);
    if |xs| + 1 < TWO_TO_THE_32 {
      var s := Append(store, value).store;
      var ys := xs + [value];
      KeysNeverCollide(|xs|);
      forall i | 0 <= i < |ys| ensures Key(i) in s && s[Key(i)] == ys[i] {
        KeyInjective(i, |xs|);
        KeysNeverCollide(i);
      }
      forall i: u32 | |ys| <= i ensures Key(i) !in s {
        KeyInjective(i, |xs|);
        KeysNeverCollide(i);
      }
    }
  }

  /**
   The unit test `tests/merkledb_old/list_index.py`, as far as it is a
   statement about the stored list: two appends give `[b"123", b"345"]`, the
   third position raises IndexError, deleting position 0 leaves `[b"345"]`,
   and setting position 0 gives `[b"678"]`.
   */
  method BasicOperationsScenario(store: Store) returns (final: Store)
    requires NoListKeys(store)
    ensures Represents(final, [[54, 55, 56]])
  {
    var v1: Bytes := [49, 50, 51];
    var v2: Bytes := [51, 52, 53];
    var v3: Bytes := [54, 55, 56];
    var s0 := Init(store);
    InitEmpty(store);
    AppendSpec(s0, [], v1);
    var s1 := Append(s0, v1).store;
    assert [] + [v1] == [v1];
    AppendSpec(s1, [v1], v2);
    var s2 := Append(s1, v2).store;
    assert [v1] + [v2] == [v1, v2];
    LenSpec(s2, [v1, v2]);
    GetItemSpec(s2, [v1, v2], 2);
    assert GetItem(s2, 2) == Raised(s2, IndexError);
    var d := DelItem(s2, 0, [v1, v2]);
    assert [v1, v2][..0] + [v1, v2][1..] == [v2];
    var s3 := d.store;
    SetItemSpec(s3, [v2], 0, v3);
    final := SetItem(s3, 0, v3).store;
    assert [v2][0 := v3] == [v3];
  }
}
