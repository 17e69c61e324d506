/**
 The C representations the Python side exchanges with the Rust side
 (`exonum_runtime/ffi/raw_types.py`).

 A `c_char_p` field the Python side fills holds the UTF-8 bytes of a
 string followed by the NUL that ends it. A name the Rust side fills comes
 from `String::as_ptr()`: the bytes with no NUL, followed by whatever
 memory is next. Either is read back with `ctypes.string_at`, which stops
 at the first NUL. A `c_uint32` field keeps the low 32 bits of whatever int
 is stored into it. Pointers to arrays are modelled by the arrays.
 */
module RawTypes {
  import opened Common
  import opened RuntimeTypes
  import Utf8

  // ----------------------------------------------------------------------
  // C strings

  /** `ctypes.string_at(p)`: the bytes before the first NUL. */
  function StringAt(buf: Bytes): (r: Bytes)
    ensures 0 !in r
    ensures |r| <= |buf| && r == buf[..|r|]
    ensures |r| < |buf| ==> buf[|r|] == 0
  {
    if buf == [] || buf[0] == 0 then [] else [buf[0]] + StringAt(buf[1..])
  }

  /** A `c_char_p` field assigned `bytes(s, "utf-8")`: the encoding and its terminating NUL. */
  function ToCString(s: string): Bytes {
    Utf8.Encode(s) + [0]
  }

  /** `str(ctypes.string_at(p), "utf-8")`: None stands for UnicodeDecodeError. */
  function FromCString(buf: Bytes): Option<string> {
    Utf8.Decode(StringAt(buf))
  }

  /** The bytes before an appended NUL are exactly the NUL-free bytes. */
  lemma {:induction false} StringAtTerminated(b: Bytes, rest: Bytes)
    requires 0 !in b
    ensures StringAt(b + [0] + rest) == b
  {
    if b != [] {
      assert (b + [0] + rest)[1..] == b[1..] + [0] + rest;
      StringAtTerminated(b[1..], rest);
      assert [b[0]] + b[1..] == b;
    }
  }

  /** A string without NUL survives the trip through a `c_char_p`. */
  lemma CStringRoundTrip(s: string)
    requires '\0' !in s
    ensures FromCString(ToCString(s)) == Some(s)
  {
    Utf8.EncodeZero(s);
    StringAtTerminated(Utf8.Encode(s), []);
    assert ToCString(s) == Utf8.Encode(s) + [0] + [];
    Utf8.DecodeEncode(s);
  }

  /** A string with a NUL comes back cut at its first NUL. */
  lemma CStringTruncatedAtNul(p: string, q: string)
    requires '\0' !in p
    ensures FromCString(ToCString(p + "\0" + q)) == Some(p)
  {
    var nq := "\0" + q;
    assert p + "\0" + q == p + nq;
    EncodeAppend(p, nq);
    assert nq[0] == '\0' && nq[1..] == q;
    assert Utf8.Encode(nq) == [0] + Utf8.Encode(q);
    Utf8.EncodeZero(p);
    var rest := Utf8.Encode(q) + [0];
    assert ToCString(p + "\0" + q) == Utf8.Encode(p) + [0] + rest;
    StringAtTerminated(Utf8.Encode(p), rest);
    Utf8.DecodeEncode(p);
  }

  lemma {:induction false} EncodeAppend(a: string, b: string)
    ensures Utf8.Encode(a + b) == Utf8.Encode(a) + Utf8.Encode(b)
  {
    if a != [] {
      assert (a + b)[0] == a[0];
      assert (a + b)[1..] == a[1..] + b;
      EncodeAppend(a[1..], b);
    } else {
      assert a + b == b;
    }
  }

  /** `string_at` reads a NUL-free prefix through, then goes on into what follows. */
  lemma {:induction false} StringAtAppend(b: Bytes, rest: Bytes)
    requires 0 !in b
    ensures StringAt(b + rest) == b + StringAt(rest)
  {
    if b == [] {
      assert b + rest == rest;
    } else {
      assert (b + rest)[1..] == b[1..] + rest;
      StringAtAppend(b[1..], rest);
      assert [b[0]] + (b[1..] + StringAt(rest)) == b + StringAt(rest);
    }
  }

  // ----------------------------------------------------------------------
  // Names the Rust side passes

  /**
   What a `*const c_char` filled with `String::as_ptr()` points at: the
   string's UTF-8 bytes, with no terminating NUL, then the memory that
   follows the `String`'s buffer (`after`; an empty `after` reads as the
   end of the string).
   */
  function RustStrPtr(s: string, after: Bytes): Bytes {
    Utf8.Encode(s) + after
  }

  /**
   Python reading such a pointer gets the name, then whatever it finds
   after it up to the next zero byte.
   */
  lemma RustStrRead(s: string, after: Bytes)
    requires '\0' !in s
    ensures StringAt(RustStrPtr(s, after)) == Utf8.Encode(s) + StringAt(after)
    ensures FromCString(after).None? ==> FromCString(RustStrPtr(s, after)).None?
    ensures FromCString(after).Some? ==> FromCString(RustStrPtr(s, after)) == Some(s + FromCString(after).value)
  {
    Utf8.EncodeZero(s);
    StringAtAppend(Utf8.Encode(s), after);
    Utf8.DecodeAppend(s, StringAt(after));
  }

  /** The name comes back exactly when the byte that follows it is zero. */
  lemma RustStrReadsExactly(s: string, after: Bytes)
    requires '\0' !in s
    ensures FromCString(RustStrPtr(s, after)) == Some(s) <==> after == [] || after[0] == 0
  {
    RustStrRead(s, after);
    if after == [] || after[0] == 0 {
      assert StringAt(after) == [];
      assert s + [] == s;
    } else {
      var read := StringAt(after);
      assert read == [after[0]] + StringAt(after[1..]);
      if FromCString(after).Some? {
        var u := FromCString(after).value;
        assert u != [] by {
          assert Utf8.DecodeHead(read).Some?;
        }
        assert |s + u| > |s|;
      }
    }
  }

  /** `CString::new(s)`: the bytes with their terminating NUL, or None for the `NulError` of a NUL inside. */
  function RustCString(s: string): Option<Bytes> {
    if '\0' in s then None else Some(ToCString(s))
  }

  /** The ways a conversion raises. */
  datatype ConversionError =
    | UnicodeDecodeError
    | IndexError                 // "too many initializers" for a fixed-size ctypes array
    | TypeErrorRaised            // a named tuple called with more fields than it declares
    | AttributeErrorRaised       // a field the named tuple does not declare
    | UnknownCallerType(txType: u32)  // RuntimeError("Received unknown caller type")

  datatype Converted<T> = Converted(value: T) | Failed(error: ConversionError)

  // ----------------------------------------------------------------------
  // Storing into `c_char_p`

  /** What the Python side stores into a `c_char_p` field. */
  datatype PyText = Str(s: string) | EncodedBytes(b: Bytes)

  /** Assigning to a `c_char_p` field: bytes are kept with their terminating NUL, a `str` raises TypeError. */
  function StoreCharP(v: PyText): (r: Converted<Bytes>)
    ensures r.Converted? <==> v.EncodedBytes?
    ensures r.Converted? ==> r.value == v.b + [0]
  {
    match v
    case Str(_) => Failed(TypeErrorRaised)
    case EncodedBytes(b) => Converted(b + [0])
  }

  /** `bytes(s, "utf-8")` before storing, as `from_artifact_id` does. */
  function Encoded(s: string): (v: PyText)
    ensures StoreCharP(v) == Converted(ToCString(s))
  {
    EncodedBytes(Utf8.Encode(s))
  }

  // ----------------------------------------------------------------------
  // RawArtifactId

  datatype RawArtifactId = RawArtifactId(runtimeId: u32, name: Bytes)

  /** `RawArtifactId.from_artifact_id`. */
  function FromArtifactId(a: ArtifactId): (r: RawArtifactId)
    ensures r.runtimeId == WrapU32(a.runtimeId)
    ensures r.name == ToCString(a.name)
  {
    RawArtifactId(WrapU32(a.runtimeId), ToCString(a.name))
  }

  /** `RawArtifactId.into_artifact_id`. */
  function IntoArtifactId(r: RawArtifactId): (res: Converted<ArtifactId>)
    ensures res.Converted? <==> FromCString(r.name).Some?
    ensures res.Converted? ==> res.value == ArtifactId(r.runtimeId, FromCString(r.name).value)
    ensures res.Failed? ==> res.error == UnicodeDecodeError
  {
    match FromCString(r.name)
    case None => Failed(UnicodeDecodeError)
    case Some(name) => Converted(ArtifactId(r.runtimeId, name))
  }

  /** An artifact id with a `u32` runtime id and a NUL-free name converts back to itself. */
  lemma ArtifactIdRoundTrip(a: ArtifactId)
    requires 0 <= a.runtimeId < TWO_TO_THE_32 && '\0' !in a.name
    ensures IntoArtifactId(FromArtifactId(a)) == Converted(a)
  {
    CStringRoundTrip(a.name);
  }

  /** Outside those bounds the id changes: the runtime id keeps its low 32 bits, the name is cut at a NUL. */
  lemma ArtifactIdLossy(runtimeId: int, p: string, q: string)
    requires '\0' !in p
    ensures IntoArtifactId(FromArtifactId(ArtifactId(runtimeId, p + "\0" + q))) == Converted(ArtifactId(WrapU32(runtimeId), p))
    ensures IntoArtifactId(FromArtifactId(ArtifactId(TWO_TO_THE_32 + 2, p))) == Converted(ArtifactId(2, p))
  {
    CStringTruncatedAtNul(p, q);
    CStringRoundTrip(p);
  }

  /** The Rust side's `RawArtifactId::from_artifact_id` as written: the name is `String::as_ptr()`. */
  function RustFromArtifactId(a: ArtifactId, after: Bytes): RawArtifactId
    requires 0 <= a.runtimeId < TWO_TO_THE_32
  {
    RawArtifactId(a.runtimeId, RustStrPtr(a.name, after))
  }

  /** `from_artifact_id` passing a `CString`: the name arrives terminated, whatever memory follows. */
  function RustFromArtifactIdCorrected(a: ArtifactId): (r: Option<RawArtifactId>)
    requires 0 <= a.runtimeId < TWO_TO_THE_32
    ensures r.Some? <==> '\0' !in a.name
    ensures r.Some? ==> IntoArtifactId(r.value) == Converted(a)
  {
    match RustCString(a.name)
    case None => None
    case Some(name) =>
      CStringRoundTrip(a.name);
      Some(RawArtifactId(a.runtimeId, name))
  }

  /**
   An artifact id the Rust side sends reads back as itself exactly when the
   byte after its name is zero; otherwise Python reads on into the
   following memory. The corrected sender is the written one with a zero
   byte placed after the name.
   */
  lemma RustArtifactIdReadsPastName(a: ArtifactId, after: Bytes)
    requires 0 <= a.runtimeId < TWO_TO_THE_32 && '\0' !in a.name
    ensures IntoArtifactId(RustFromArtifactId(a, after)) == Converted(a) <==> after == [] || after[0] == 0
    ensures FromCString(after).Some? ==>
      IntoArtifactId(RustFromArtifactId(a, after)) == Converted(ArtifactId(a.runtimeId, a.name + FromCString(after).value))
    ensures RustFromArtifactIdCorrected(a) == Some(RustFromArtifactId(a, [0]))
  {
    RustStrRead(a.name, after);
    RustStrReadsExactly(a.name, after);
  }

  /** The id `(7, "a")`, with the byte `b` and then a zero after the name, is read as `(7, "ab")`. */
  lemma RustArtifactIdOverread()
    ensures IntoArtifactId(RustFromArtifactId(ArtifactId(7, "a"), [0x62, 0])) == Converted(ArtifactId(7, "ab"))
  {
    var after: Bytes := [0x62, 0];
    assert StringAt(after) == [0x62];
    assert Utf8.Encode("b") == [0x62];
    Utf8.DecodeEncode("b");
    RustArtifactIdReadsPastName(ArtifactId(7, "a"), after);
    assert "a" + "b" == "ab";
  }

  // ----------------------------------------------------------------------
  // RawInstanceSpec

  datatype RawInstanceSpec = RawInstanceSpec(instanceId: u32, name: Bytes, artifact: RawArtifactId)

  /**
   `RawInstanceSpec.into_instance_spec` as written: after decoding the
   name and the artifact id it calls the two-field `InstanceSpec` with
   three values, which raises TypeError. No raw spec converts.
   */
  function IntoInstanceSpecAsWritten(r: RawInstanceSpec): (res: Converted<InstanceSpec>)
    ensures res.Failed?
    ensures res.error == TypeErrorRaised <==> FromCString(r.name).Some? && IntoArtifactId(r.artifact).Converted?
  {
    if FromCString(r.name).None? then Failed(UnicodeDecodeError)
    else match IntoArtifactId(r.artifact)
      case Failed(e) => Failed(e)
      case Converted(_) => Failed(TypeErrorRaised)
  }

  /**
   `RawInstanceSpec.from_instance_spec` as written: it reads
   `instance_spec.instance_id`, which the two-field `InstanceSpec` does not
   have, so it raises AttributeError for every spec.
   */
  function FromInstanceSpecAsWritten(spec: InstanceSpec): (res: Converted<RawInstanceSpec>)
    ensures res == Failed(AttributeErrorRaised)
  {
    Failed(AttributeErrorRaised)
  }

  /** The instance spec the raw layout carries, as the Rust side declares it: an id, a name and an artifact. */
  datatype IdentifiedInstanceSpec = IdentifiedInstanceSpec(instanceId: int, name: string, artifact: ArtifactId)

  /** `into_instance_spec` against a spec that has the instance id. */
  function IntoInstanceSpec(r: RawInstanceSpec): (res: Converted<IdentifiedInstanceSpec>)
    ensures res.Converted? <==> FromCString(r.name).Some? && IntoArtifactId(r.artifact).Converted?
    ensures res.Converted? ==> res.value.instanceId == r.instanceId && res.value.artifact == IntoArtifactId(r.artifact).value
    ensures res.Converted? ==> res.value.name == FromCString(r.name).value
  {
    match FromCString(r.name)
    case None => Failed(UnicodeDecodeError)
    case Some(name) =>
      match IntoArtifactId(r.artifact)
      case Failed(e) => Failed(e)
      case Converted(artifact) => Converted(IdentifiedInstanceSpec(r.instanceId, name, artifact))
  }

  /**
   `from_instance_spec` against a spec that has the instance id, but with
   the instance name passed as it is written, a `str`: ctypes refuses it
   for the `c_char_p` field with TypeError. (Against the two-field spec the
   missing `instance_id` raises first.)
   */
  function FromInstanceSpecNameAsWritten(spec: IdentifiedInstanceSpec): (res: Converted<RawInstanceSpec>)
    ensures res == Failed(TypeErrorRaised)
  {
    match StoreCharP(Str(spec.name))
    case Failed(e) => Failed(e)
    case Converted(name) => Converted(RawInstanceSpec(WrapU32(spec.instanceId), name, FromArtifactId(spec.artifact)))
  }

  /** `from_instance_spec` against a spec that has the instance id, storing the name's UTF-8 bytes. */
  function FromInstanceSpec(spec: IdentifiedInstanceSpec): (r: RawInstanceSpec)
    ensures r.instanceId == WrapU32(spec.instanceId) && r.artifact == FromArtifactId(spec.artifact)
    ensures StoreCharP(Encoded(spec.name)) == Converted(r.name)
  {
    RawInstanceSpec(WrapU32(spec.instanceId), ToCString(spec.name), FromArtifactId(spec.artifact))
  }

  /** With the instance id in the spec, conversion is a round trip for `u32` ids and NUL-free names. */
  lemma InstanceSpecRoundTrip(spec: IdentifiedInstanceSpec)
    requires 0 <= spec.instanceId < TWO_TO_THE_32 && '\0' !in spec.name
    requires 0 <= spec.artifact.runtimeId < TWO_TO_THE_32 && '\0' !in spec.artifact.name
    ensures IntoInstanceSpec(FromInstanceSpec(spec)) == Converted(spec)
  {
    CStringRoundTrip(spec.name);
    ArtifactIdRoundTrip(spec.artifact);
  }

  /** The Rust side's `RawInstanceSpec::from_instance_spec` as written: both names are `String::as_ptr()`. */
  function RustFromInstanceSpec(spec: IdentifiedInstanceSpec, nameAfter: Bytes, artifactAfter: Bytes): RawInstanceSpec
    requires 0 <= spec.instanceId < TWO_TO_THE_32 && 0 <= spec.artifact.runtimeId < TWO_TO_THE_32
  {
    RawInstanceSpec(spec.instanceId, RustStrPtr(spec.name, nameAfter), RustFromArtifactId(spec.artifact, artifactAfter))
  }

  /** `from_instance_spec` passing `CString`s for both names. */
  function RustFromInstanceSpecCorrected(spec: IdentifiedInstanceSpec): (r: Option<RawInstanceSpec>)
    requires 0 <= spec.instanceId < TWO_TO_THE_32 && 0 <= spec.artifact.runtimeId < TWO_TO_THE_32
    ensures r.Some? <==> '\0' !in spec.name && '\0' !in spec.artifact.name
    ensures r.Some? ==> IntoInstanceSpec(r.value) == Converted(spec)
  {
    match (RustCString(spec.name), RustFromArtifactIdCorrected(spec.artifact))
    case (Some(name), Some(artifact)) =>
      CStringRoundTrip(spec.name);
      Some(RawInstanceSpec(spec.instanceId, name, artifact))
    case _ => None
  }

  /**
   A spec the Rust side sends reads back as itself exactly when a zero byte
   follows each of its two names; the corrected sender places those zeros.
   */
  lemma RustInstanceSpecReadsPastNames(spec: IdentifiedInstanceSpec, nameAfter: Bytes, artifactAfter: Bytes)
    requires 0 <= spec.instanceId < TWO_TO_THE_32 && 0 <= spec.artifact.runtimeId < TWO_TO_THE_32
    requires '\0' !in spec.name && '\0' !in spec.artifact.name
    ensures IntoInstanceSpec(RustFromInstanceSpec(spec, nameAfter, artifactAfter)) == Converted(spec)
      <==> (nameAfter == [] || nameAfter[0] == 0) && (artifactAfter == [] || artifactAfter[0] == 0)
    ensures RustFromInstanceSpecCorrected(spec) == Some(RustFromInstanceSpec(spec, [0], [0]))
  {
    RustStrReadsExactly(spec.name, nameAfter);
    RustArtifactIdReadsPastName(spec.artifact, artifactAfter);
  }

  /** The spec the Rust side sends cannot be converted as written, in either direction. */
  lemma InstanceSpecAsWrittenNeverConverts(spec: IdentifiedInstanceSpec)
    requires 0 <= spec.instanceId < TWO_TO_THE_32 && '\0' !in spec.name
    requires 0 <= spec.artifact.runtimeId < TWO_TO_THE_32 && '\0' !in spec.artifact.name
    ensures IntoInstanceSpecAsWritten(FromInstanceSpec(spec)) == Failed(TypeErrorRaised)
    ensures FromInstanceSpecAsWritten(InstanceSpec(spec.name, spec.artifact)) == Failed(AttributeErrorRaised)
  {
    CStringRoundTrip(spec.name);
    ArtifactIdRoundTrip(spec.artifact);
  }

  // ----------------------------------------------------------------------
  // RawCallInfo

  datatype RawCallInfo = RawCallInfo(instanceId: u32, methodId: u32)

  /** `RawCallInfo.into_call_info`: the two numbers, each within `u32`. */
  function IntoCallInfo(r: RawCallInfo): (c: CallInfo)
    ensures 0 <= c.instanceId < TWO_TO_THE_32 && 0 <= c.methodId < TWO_TO_THE_32
    ensures c.instanceId == r.instanceId && c.methodId == r.methodId
  {
    CallInfo(r.instanceId, r.methodId)
  }

  /** The Rust side's `RawCallInfo::from_call_info`. */
  function FromCallInfo(c: CallInfo): RawCallInfo
    requires 0 <= c.instanceId < TWO_TO_THE_32 && 0 <= c.methodId < TWO_TO_THE_32
  {
    RawCallInfo(c.instanceId, c.methodId)
  }

  /** Call info crosses the boundary unchanged, both ways. */
  lemma CallInfoRoundTrip(c: CallInfo, r: RawCallInfo)
    requires 0 <= c.instanceId < TWO_TO_THE_32 && 0 <= c.methodId < TWO_TO_THE_32
    ensures IntoCallInfo(FromCallInfo(c)) == c
    ensures FromCallInfo(IntoCallInfo(r)) == r
  {
  }

  // ----------------------------------------------------------------------
  // RawHash

  const HASH_SIZE: nat := 32

  /** A hash's bytes laid into the 32-byte array, the rest zero. */
  function Pad(h: Hash): (r: Bytes)
    requires |h| <= HASH_SIZE
    ensures |r| == HASH_SIZE && r[..|h|] == h
    ensures forall i | |h| <= i < HASH_SIZE :: r[i] == 0
  {
    h + seq(HASH_SIZE - |h|, _ => 0)
  }

  /** `RawHash.from_hash`: a longer value has too many initializers for the array. */
  function FromHash(h: Hash): (r: Converted<Bytes>)
    ensures r.Converted? <==> |h| <= HASH_SIZE
    ensures r.Converted? ==> |r.value| == HASH_SIZE && r.value[..|h|] == h
    ensures |h| == HASH_SIZE ==> r == Converted(h)
  {
    if |h| > HASH_SIZE then Failed(IndexError)
    else
      var padded := Pad(h);
      assert padded[..|padded|] == padded;
      Converted(padded)
  }

  predicate Fits(hs: seq<Hash>) {
    forall i | 0 <= i < |hs| :: |hs[i]| <= HASH_SIZE
  }

  /** `to_raw_hashes`, without its length: each hash converted, or None for the IndexError of an oversized one. */
  function ToRawHashes(hs: seq<Hash>): (r: Option<seq<Bytes>>)
    ensures r.Some? <==> Fits(hs)
    ensures r.Some? ==> |r.value| == |hs| && forall i | 0 <= i < |hs| :: FromHash(hs[i]) == Converted(r.value[i])
  {
    if Fits(hs) then Some(seq(|hs|, i requires 0 <= i < |hs| => Pad(hs[i]))) else None
  }

  // ----------------------------------------------------------------------
  // RawStateHashAggregator

  /**
   The C layout: one hash array per owner, the runtime's first; the length
   of each; the instance ids, in the order of the arrays after the first;
   and the number of arrays.
   */
  datatype RawStateHashAggregator = RawStateHashAggregator(
    hashes: seq<seq<Bytes>>,
    hashesLength: seq<u32>,
    instanceIds: seq<u32>,
    length: u32)

  /** The layout's own consistency, as the class documents it. */
  predicate WellFormed(raw: RawStateHashAggregator) {
    && |raw.hashes| == |raw.hashesLength| == raw.length == |raw.instanceIds| + 1
    && forall k | 0 <= k < |raw.hashes| :: raw.hashesLength[k] <= |raw.hashes[k]|
  }

  /** Reading the layout back into an aggregator, as its receiver does. */
  function ReadBack(raw: RawStateHashAggregator): StateHashAggregator
    requires WellFormed(raw)
  {
    StateHashAggregator(
      raw.hashes[0][..raw.hashesLength[0]],
      seq(|raw.instanceIds|, k requires 0 <= k < |raw.instanceIds| => (raw.instanceIds[k] as int, raw.hashes[k + 1][..raw.hashesLength[k + 1]])))
  }

  /** Every hash converts. */
  predicate AllFit(agg: StateHashAggregator) {
    Fits(agg.runtime) && forall k | 0 <= k < |agg.instances| :: Fits(agg.instances[k].1)
  }

  /** What the layout can carry without loss: 32-byte hashes, `u32` ids and counts. */
  predicate Representable(agg: StateHashAggregator) {
    && |agg.instances| + 1 < TWO_TO_THE_32
    && |agg.runtime| < TWO_TO_THE_32
    && (forall i | 0 <= i < |agg.runtime| :: |agg.runtime[i]| == HASH_SIZE)
    && forall k | 0 <= k < |agg.instances| ::
         && 0 <= agg.instances[k].0 < TWO_TO_THE_32
         && |agg.instances[k].1| < TWO_TO_THE_32
         && forall i | 0 <= i < |agg.instances[k].1| :: |agg.instances[k].1[i]| == HASH_SIZE
  }

  /**
   `RawStateHashAggregator.from_state_hash_aggregator`. None stands for the
   IndexError of an oversized hash. The arrays follow the aggregator owner
   by owner, and an aggregator the layout can carry is read back unchanged.
   */
  method FromStateHashAggregator(agg: StateHashAggregator) returns (r: Option<RawStateHashAggregator>)
    ensures r.Some? <==> AllFit(agg)
    ensures r.Some? ==>
      var raw := r.value;
      && |raw.hashes| == |raw.hashesLength| == |agg.instances| + 1
      && |raw.instanceIds| == |agg.instances|
      && raw.length == WrapU32(|agg.instances| + 1)
      && Some(raw.hashes[0]) == ToRawHashes(agg.runtime)
      && raw.hashesLength[0] == WrapU32(|agg.runtime|)
      && forall k | 0 <= k < |agg.instances| ::
           && Some(raw.hashes[k + 1]) == ToRawHashes(agg.instances[k].1)
           && raw.hashesLength[k + 1] == WrapU32(|agg.instances[k].1|)
           && raw.instanceIds[k] == WrapU32(agg.instances[k].0)
    ensures r.Some? && Representable(agg) ==> WellFormed(r.value) && ReadBack(r.value) == agg
  {
    var runtimeHashes := ToRawHashes(agg.runtime);
    if runtimeHashes.None? {
      return None;
    }
    var hashes := [runtimeHashes.value];
    var lengths: seq<u32> := [WrapU32(|agg.runtime|)];
    var ids: seq<u32> := [];
    var k := 0;
    while k < |agg.instances|
      invariant 0 <= k <= |agg.instances|
      invariant |hashes| == |lengths| == k + 1 && |ids| == k
      invariant Some(hashes[0]) == ToRawHashes(agg.runtime) && lengths[0] == WrapU32(|agg.runtime|)
      invariant forall j | 0 <= j < k ::
        && Some(hashes[j + 1]) == ToRawHashes(agg.instances[j].1)
        && lengths[j + 1] == WrapU32(|agg.instances[j].1|)
        && ids[j] == WrapU32(agg.instances[j].0)
    {
      var instanceHashes := ToRawHashes(agg.instances[k].1);
      if instanceHashes.None? {
        return None;
      }
      hashes := hashes + [instanceHashes.value];
      lengths := lengths + [WrapU32(|agg.instances[k].1|)];
      ids := ids + [WrapU32(agg.instances[k].0)];
      k := k + 1;
    }
    var raw := RawStateHashAggregator(hashes, lengths, ids, WrapU32(|agg.instances| + 1));
    if Representable(agg) {
      ReadBackInverts(agg, raw);
    }
    return Some(raw);
  }

  /** The read-back half of the round trip, for a layout built owner by owner from a representable aggregator. */
  lemma ReadBackInverts(agg: StateHashAggregator, raw: RawStateHashAggregator)
    requires Representable(agg)
    requires |raw.hashes| == |raw.hashesLength| == |agg.instances| + 1 && |raw.instanceIds| == |agg.instances|
    requires raw.length == WrapU32(|agg.instances| + 1)
    requires Some(raw.hashes[0]) == ToRawHashes(agg.runtime) && raw.hashesLength[0] == WrapU32(|agg.runtime|)
    requires forall k | 0 <= k < |agg.instances| ::
      && Some(raw.hashes[k + 1]) == ToRawHashes(agg.instances[k].1)
      && raw.hashesLength[k + 1] == WrapU32(|agg.instances[k].1|)
      && raw.instanceIds[k] == WrapU32(agg.instances[k].0)
    ensures WellFormed(raw) && ReadBack(raw) == agg
  {
    ExactHashesUnchanged(agg.runtime);
    assert raw.hashesLength[0] == |raw.hashes[0]|;
    forall k | 0 <= k < |agg.instances|
      ensures raw.hashes[k + 1] == agg.instances[k].1
      ensures raw.hashesLength[k + 1] == |raw.hashes[k + 1]|
      ensures raw.instanceIds[k] == agg.instances[k].0
    {
      ExactHashesUnchanged(agg.instances[k].1);
    }
    forall k | 0 <= k < |raw.hashes|
      ensures raw.hashesLength[k] == |raw.hashes[k]|
    {
      if k > 0 {
        var j := k - 1;
        ExactHashesUnchanged(agg.instances[j].1);
        assert raw.hashes[j + 1] == agg.instances[j].1;
      }
    }
    var back := ReadBack(raw);
    assert back.runtime == agg.runtime;
    assert |back.instances| == |agg.instances|;
    forall k | 0 <= k < |agg.instances|
      ensures back.instances[k] == agg.instances[k]
    {
      var h := raw.hashes[k + 1];
      assert h[..raw.hashesLength[k + 1]] == h[..|h|] == h;
    }
  }

  /** Hashes of exactly 32 bytes convert to themselves. */
  lemma ExactHashesUnchanged(hs: seq<Hash>)
    requires forall i | 0 <= i < |hs| :: |hs[i]| == HASH_SIZE
    ensures ToRawHashes(hs) == Some(hs)
  {
    var r := ToRawHashes(hs).value;
    forall i | 0 <= i < |hs|
      ensures r[i] == hs[i]
    {
      assert FromHash(hs[i]) == Converted(r[i]);
      assert r[i] == r[i][..HASH_SIZE];
    }
    assert r == hs;
  }

  // ----------------------------------------------------------------------
  // RawArtifactProtobufSpec

  datatype RawProtoSourceFile = RawProtoSourceFile(name: Bytes, content: Bytes)

  datatype RawArtifactProtobufSpec = RawArtifactProtobufSpec(files: seq<RawProtoSourceFile>, filesAmount: u32)

  /** `RawArtifactProtobufSpec.from_artifact_protobuf_spec`: one C file record per source file, in order. */
  function FromArtifactProtobufSpec(spec: ArtifactProtobufSpec): (r: RawArtifactProtobufSpec)
    ensures |r.files| == |spec.sources| && r.filesAmount == WrapU32(|spec.sources|)
    ensures forall i | 0 <= i < |spec.sources| ::
      r.files[i] == RawProtoSourceFile(ToCString(spec.sources[i].name), ToCString(spec.sources[i].content))
  {
    RawArtifactProtobufSpec(
      seq(|spec.sources|, i requires 0 <= i < |spec.sources| =>
        RawProtoSourceFile(ToCString(spec.sources[i].name), ToCString(spec.sources[i].content))),
      WrapU32(|spec.sources|))
  }

  /** The count is the number of records, and each record reads back as its source file when neither field has a NUL. */
  lemma ProtobufSpecReadable(spec: ArtifactProtobufSpec, i: nat)
    requires i < |spec.sources| < TWO_TO_THE_32
    requires '\0' !in spec.sources[i].name && '\0' !in spec.sources[i].content
    ensures var r := FromArtifactProtobufSpec(spec);
      && r.filesAmount == |r.files|
      && FromCString(r.files[i].name) == Some(spec.sources[i].name)
      && FromCString(r.files[i].content) == Some(spec.sources[i].content)
  {
    CStringRoundTrip(spec.sources[i].name);
    CStringRoundTrip(spec.sources[i].content);
  }

  // ----------------------------------------------------------------------
  // RawCaller and RawExecutionContext

  /** `RawCaller`: the type tag, pointers to the hash and the author key, and the instance id. */
  datatype RawCaller = RawCaller(txType: u32, hash: Bytes, author: Bytes, instanceId: u32)

  /** A transaction caller's pointers must reach 32 readable bytes each. */
  predicate Readable(r: RawCaller) {
    r.txType == 0 ==> |r.hash| >= HASH_SIZE && |r.author| >= HASH_SIZE
  }

  /** `RawCaller.into_caller`: type 0 is a transaction, type 1 a service; any other raises RuntimeError. */
  function IntoCaller(r: RawCaller): (res: Converted<Caller>)
    requires Readable(r)
    ensures res.Converted? <==> r.txType == 0 || r.txType == 1
    ensures res.Failed? ==> res.error == UnknownCallerType(r.txType)
    ensures res.Converted? ==> (res.value.TransactionCaller? <==> r.txType == 0)
    ensures res.Converted? && res.value.TransactionCaller? ==> |res.value.txHash| == |res.value.author| == HASH_SIZE
  {
    if r.txType == 0 then Converted(TransactionCaller(r.hash[..HASH_SIZE], r.author[..HASH_SIZE]))
    else if r.txType == 1 then Converted(ServiceCaller(r.instanceId))
    else Failed(UnknownCallerType(r.txType))
  }

  /** The layout a caller is sent in: the unused fields of a service caller hold nothing and zero. */
  function FromCaller(c: Caller): RawCaller {
    match c
    case TransactionCaller(txHash, author) => RawCaller(0, txHash, author, 0)
    case ServiceCaller(id) => RawCaller(1, [], [], WrapU32(id))
  }

  /** Callers with 32-byte hash and key and a `u32` instance id cross the boundary unchanged. */
  lemma CallerRoundTrip(c: Caller)
    requires c.TransactionCaller? ==> |c.txHash| == HASH_SIZE && |c.author| == HASH_SIZE
    requires c.ServiceCaller? ==> 0 <= c.instanceId < TWO_TO_THE_32
    ensures Readable(FromCaller(c)) && IntoCaller(FromCaller(c)) == Converted(c)
  {
    if c.TransactionCaller? {
      assert c.txHash[..HASH_SIZE] == c.txHash && c.author[..HASH_SIZE] == c.author;
    }
  }

  datatype ExecutionContext = ExecutionContext(access: nat, caller: Caller, interfaceName: string)

  datatype RawExecutionContext = RawExecutionContext(access: nat, caller: RawCaller, interfaceName: Bytes)

  /** `RawExecutionContext.into_execution_context`: the caller is converted before the interface name. */
  function IntoExecutionContext(r: RawExecutionContext): (res: Converted<ExecutionContext>)
    requires Readable(r.caller)
    ensures res.Converted? <==> IntoCaller(r.caller).Converted? && FromCString(r.interfaceName).Some?
    ensures IntoCaller(r.caller).Failed? ==> res == Failed(IntoCaller(r.caller).error)
    ensures res.Converted? ==> res.value.access == r.access && res.value.caller == IntoCaller(r.caller).value
  {
    match IntoCaller(r.caller)
    case Failed(e) => Failed(e)
    case Converted(caller) =>
      match FromCString(r.interfaceName)
      case None => Failed(UnicodeDecodeError)
      case Some(name) => Converted(ExecutionContext(r.access, caller, name))
  }

  /** The layout a context is sent in: the caller as `FromCaller` lays it out, the interface name as a C string. */
  function FromExecutionContext(ctx: ExecutionContext): RawExecutionContext {
    RawExecutionContext(ctx.access, FromCaller(ctx.caller), ToCString(ctx.interfaceName))
  }

  /** A well-formed context with a NUL-free interface name crosses the boundary unchanged. */
  lemma ExecutionContextRoundTrip(ctx: ExecutionContext)
    requires ctx.caller.TransactionCaller? ==> |ctx.caller.txHash| == HASH_SIZE && |ctx.caller.author| == HASH_SIZE
    requires ctx.caller.ServiceCaller? ==> 0 <= ctx.caller.instanceId < TWO_TO_THE_32
    requires '\0' !in ctx.interfaceName
    ensures Readable(FromExecutionContext(ctx).caller)
    ensures IntoExecutionContext(FromExecutionContext(ctx)) == Converted(ctx)
  {
    CallerRoundTrip(ctx.caller);
    CStringRoundTrip(ctx.interfaceName);
  }

  /** An interface name with a NUL comes back cut at its first NUL; the rest of the context is unchanged. */
  lemma ExecutionContextNameCutAtNul(access: nat, caller: Caller, p: string, q: string)
    requires caller.TransactionCaller? ==> |caller.txHash| == HASH_SIZE && |caller.author| == HASH_SIZE
    requires caller.ServiceCaller? ==> 0 <= caller.instanceId < TWO_TO_THE_32
    requires '\0' !in p
    ensures Readable(FromCaller(caller))
    ensures IntoExecutionContext(FromExecutionContext(ExecutionContext(access, caller, p + "\0" + q)))
      == Converted(ExecutionContext(access, caller, p))
  {
    CallerRoundTrip(caller);
    CStringTruncatedAtNul(p, q);
  }
}
