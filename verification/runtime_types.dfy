/**
 The records the runtime passes around (`exonum_runtime/runtime/types.py`),
 and the oracles that stand for the outside world of a deployment.
 */
module RuntimeTypes {
  import opened Common
  import ResultCodes

  /** `ArtifactId(runtime_id, name)`: a named tuple, so equality is structural. */
  datatype ArtifactId = ArtifactId(runtimeId: int, name: string)

  /** `InstanceSpec(name, artifact)`: the two declared fields. */
  datatype InstanceSpec = InstanceSpec(name: string, artifact: ArtifactId)

  /** `InstanceDescriptor(id, name)`. */
  datatype InstanceDescriptor = InstanceDescriptor(id: int, name: string)

  /** `CallInfo(instance_id, method_id)`. */
  datatype CallInfo = CallInfo(instanceId: int, methodId: int)

  /** `DeploymentResult(result, artifact_id)`. */
  datatype DeploymentResult = DeploymentResult(result: ResultCodes.PythonResult, artifactId: ArtifactId)

  /** `ProtoSourceFile(name, content)` and `ArtifactProtobufSpec(sources)`. */
  datatype ProtoSourceFile = ProtoSourceFile(name: string, content: string)
  datatype ArtifactProtobufSpec = ArtifactProtobufSpec(sources: seq<ProtoSourceFile>)

  /** A 32-byte hash (`Hash`) or public key (`PublicKey`), by its bytes. */
  type Hash = Bytes

  /** `StateHashAggregator`: the runtime's hashes and, in order, each instance's id with its hashes. */
  datatype StateHashAggregator = StateHashAggregator(runtime: seq<Hash>, instances: seq<(int, seq<Hash>)>)

  /** `Caller`: exactly one of a transaction (hash and author) or a service instance. */
  datatype Caller = TransactionCaller(txHash: Hash, author: Hash) | ServiceCaller(instanceId: int)

  // ----------------------------------------------------------------------
  // Deployment oracles

  /** The fields of `PythonArtifactSpec` that deployment reads. */
  datatype ArtifactSpec = ArtifactSpec(sourceWheelName: string, expectedHash: Hash, serviceLibraryName: string, serviceClassName: string)

  /**
   A module attribute as `_get_service_class` sees it: a `Service`
   subclass (identified by a number), another class, or a value that is
   not a class at all, on which `issubclass` raises TypeError.
   */
  datatype Attribute = ServiceSubclass(cls: nat) | OtherClass | NonClassValue

  /** An imported module: its attributes by name. */
  type Module = map<string, Attribute>

  /**
   What deployment can observe of the machine: which modules import
   (None standing for ModuleNotFoundError/ImportError) before and after the
   wheel is installed, the wheel file's bytes (None when it cannot be read),
   the hash function, and pip's exit status.
   */
  datatype World = World(
    importBefore: string -> Option<Module>,
    importAfter: string -> Option<Module>,
    wheel: Option<Bytes>,
    hashData: Bytes -> Hash,
    pipExit: int)

  /** Resolving a class from a module: None standing for AttributeError. */
  function GetAttr(m: Module, name: string): Option<Attribute> {
    if name in m then Some(m[name]) else None
  }
}
