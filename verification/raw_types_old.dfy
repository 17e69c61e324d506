/**
 The C representations of the earlier revision (`runtime/raw_types.py`).

 Its `into_artifact_id`, `into_call_info`, `RawHash.from_hash` and
 `from_state_hash_aggregator` are the code of the later revision and are
 modelled once, in `RawTypes`. What differs: the instance spec has no
 instance id, there is an instance descriptor, and the conversions towards
 C store Python `str` values into `c_char_p` fields, which ctypes refuses
 with TypeError (it takes `bytes` or an address); the later revision
 encodes the artifact name first, though not the instance name.
 */
module RawTypesOld {
  import opened Common
  import opened RuntimeTypes
  import RawTypes
  import Utf8

  // ----------------------------------------------------------------------
  // RawArtifactId

  /** `RawArtifactId.from_artifact_id` as written: the name goes in as a `str`, so it always raises. */
  function FromArtifactIdAsWritten(a: ArtifactId): (r: RawTypes.Converted<RawTypes.RawArtifactId>)
    ensures r == RawTypes.Failed(RawTypes.TypeErrorRaised)
  {
    match RawTypes.StoreCharP(RawTypes.Str(a.name))
    case Failed(e) => RawTypes.Failed(e)
    case Converted(name) => RawTypes.Converted(RawTypes.RawArtifactId(WrapU32(a.runtimeId), name))
  }

  /** Corrected, the earlier `from_artifact_id` is the later one, and it round-trips. */
  lemma FromArtifactIdCorrected(a: ArtifactId)
    requires 0 <= a.runtimeId < TWO_TO_THE_32 && '\0' !in a.name
    ensures RawTypes.StoreCharP(RawTypes.Encoded(a.name)) == RawTypes.Converted(RawTypes.FromArtifactId(a).name)
    ensures RawTypes.IntoArtifactId(RawTypes.FromArtifactId(a)) == RawTypes.Converted(a)
  {
    RawTypes.ArtifactIdRoundTrip(a);
  }

  // ----------------------------------------------------------------------
  // RawInstanceSpec

  /** The earlier layout: a name and an artifact id. */
  datatype RawInstanceSpec = RawInstanceSpec(name: Bytes, artifact: RawTypes.RawArtifactId)

  /** `RawInstanceSpec.into_instance_spec`: decode the name, then the artifact id. */
  function IntoInstanceSpec(r: RawInstanceSpec): (res: RawTypes.Converted<InstanceSpec>)
    ensures res.Converted? <==> RawTypes.FromCString(r.name).Some? && RawTypes.IntoArtifactId(r.artifact).Converted?
    ensures res.Converted? ==> res.value.name == RawTypes.FromCString(r.name).value && res.value.artifact == RawTypes.IntoArtifactId(r.artifact).value
  {
    match RawTypes.FromCString(r.name)
    case None => RawTypes.Failed(RawTypes.UnicodeDecodeError)
    case Some(name) =>
      match RawTypes.IntoArtifactId(r.artifact)
      case Failed(e) => RawTypes.Failed(e)
      case Converted(artifact) => RawTypes.Converted(InstanceSpec(name, artifact))
  }

  /** `RawInstanceSpec.from_instance_spec` as written: the artifact id conversion already raises. */
  function FromInstanceSpecAsWritten(spec: InstanceSpec): (r: RawTypes.Converted<RawInstanceSpec>)
    ensures r == RawTypes.Failed(RawTypes.TypeErrorRaised)
  {
    match FromArtifactIdAsWritten(spec.artifact)
    case Failed(e) => RawTypes.Failed(e)
    case Converted(artifact) =>
      match RawTypes.StoreCharP(RawTypes.Str(spec.name))
      case Failed(e) => RawTypes.Failed(e)
      case Converted(name) => RawTypes.Converted(RawInstanceSpec(name, artifact))
  }

  /** `from_instance_spec` with both names encoded first. */
  function FromInstanceSpec(spec: InstanceSpec): (r: RawInstanceSpec)
    ensures r.artifact == RawTypes.FromArtifactId(spec.artifact)
    ensures RawTypes.StoreCharP(RawTypes.Encoded(spec.name)) == RawTypes.Converted(r.name)
  {
    RawInstanceSpec(RawTypes.ToCString(spec.name), RawTypes.FromArtifactId(spec.artifact))
  }

  /** Corrected, an instance spec with a `u32` runtime id and NUL-free names converts back to itself. */
  lemma InstanceSpecRoundTrip(spec: InstanceSpec)
    requires 0 <= spec.artifact.runtimeId < TWO_TO_THE_32
    requires '\0' !in spec.name && '\0' !in spec.artifact.name
    ensures IntoInstanceSpec(FromInstanceSpec(spec)) == RawTypes.Converted(spec)
  {
    RawTypes.CStringRoundTrip(spec.name);
    RawTypes.ArtifactIdRoundTrip(spec.artifact);
  }

  // ----------------------------------------------------------------------
  // RawInstanceDescriptor

  /** The layout: a `u32` id and a name. */
  datatype RawInstanceDescriptor = RawInstanceDescriptor(id: u32, name: Bytes)

  /**
   `RawInstanceDescriptor.into_instance_descriptor` as written: after
   decoding the name it reads `self.instance_id`, a field the structure
   does not have, and raises AttributeError.
   */
  function IntoInstanceDescriptorAsWritten(r: RawInstanceDescriptor): (res: RawTypes.Converted<InstanceDescriptor>)
    ensures res.Failed?
    ensures res.error == RawTypes.AttributeErrorRaised <==> RawTypes.FromCString(r.name).Some?
  {
    match RawTypes.FromCString(r.name)
    case None => RawTypes.Failed(RawTypes.UnicodeDecodeError)
    case Some(_) => RawTypes.Failed(RawTypes.AttributeErrorRaised)
  }

  /** `into_instance_descriptor` reading the `id` field the structure declares. */
  function IntoInstanceDescriptor(r: RawInstanceDescriptor): (res: RawTypes.Converted<InstanceDescriptor>)
    ensures res.Converted? <==> RawTypes.FromCString(r.name).Some?
    ensures res.Converted? ==> res.value.id == r.id && res.value.name == RawTypes.FromCString(r.name).value
  {
    match RawTypes.FromCString(r.name)
    case None => RawTypes.Failed(RawTypes.UnicodeDecodeError)
    case Some(name) => RawTypes.Converted(InstanceDescriptor(r.id, name))
  }

  /**
   The Rust side's `RawInstanceDescriptor::from_instance_descriptor` as
   written: the id, and the name as `String::as_ptr()`, unterminated and
   followed by the memory `after` it.
   */
  function FromInstanceDescriptor(d: InstanceDescriptor, after: Bytes): RawInstanceDescriptor
    requires 0 <= d.id < TWO_TO_THE_32
  {
    RawInstanceDescriptor(d.id, RawTypes.RustStrPtr(d.name, after))
  }

  /** `from_instance_descriptor` passing a `CString` for the name. */
  function FromInstanceDescriptorCorrected(d: InstanceDescriptor): (r: Option<RawInstanceDescriptor>)
    requires 0 <= d.id < TWO_TO_THE_32
    ensures r.Some? <==> '\0' !in d.name
    ensures r.Some? ==> IntoInstanceDescriptor(r.value) == RawTypes.Converted(d)
  {
    match RawTypes.RustCString(d.name)
    case None => None
    case Some(name) =>
      RawTypes.CStringRoundTrip(d.name);
      Some(RawInstanceDescriptor(d.id, name))
  }

  /**
   A descriptor the Rust side sends reads back as itself, once the `id`
   field is read, exactly when a zero byte follows its name; in that case
   the written conversion raises AttributeError. The corrected sender
   places the zero.
   */
  lemma InstanceDescriptorRoundTrip(d: InstanceDescriptor, after: Bytes)
    requires 0 <= d.id < TWO_TO_THE_32 && '\0' !in d.name
    ensures IntoInstanceDescriptor(FromInstanceDescriptor(d, after)) == RawTypes.Converted(d) <==> after == [] || after[0] == 0
    ensures (after == [] || after[0] == 0) ==>
      IntoInstanceDescriptorAsWritten(FromInstanceDescriptor(d, after)) == RawTypes.Failed(RawTypes.AttributeErrorRaised)
    ensures FromInstanceDescriptorCorrected(d) == Some(FromInstanceDescriptor(d, [0]))
  {
    RawTypes.RustStrReadsExactly(d.name, after);
  }

  // ----------------------------------------------------------------------
  // RawArtifactProtobufSpec

  /**
   `RawArtifactProtobufSpec.from_artifact_protobuf_spec` as written: the
   first source file's `str` name raises, so only a spec without sources
   converts.
   */
  function FromArtifactProtobufSpecAsWritten(spec: ArtifactProtobufSpec): (r: RawTypes.Converted<RawTypes.RawArtifactProtobufSpec>)
    ensures r.Converted? <==> spec.sources == []
    ensures r.Converted? ==> r.value == RawTypes.FromArtifactProtobufSpec(spec)
  {
    if spec.sources == [] then RawTypes.Converted(RawTypes.RawArtifactProtobufSpec([], 0))
    else match RawTypes.StoreCharP(RawTypes.Str(spec.sources[0].name))
      case Failed(e) => RawTypes.Failed(e)
      case Converted(_) => RawTypes.Failed(RawTypes.TypeErrorRaised)
  }
}
