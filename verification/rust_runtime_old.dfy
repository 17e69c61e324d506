/**
 The earlier Rust half of the Python runtime (`src/rust-interface/src/runtime.rs`).

 It keeps only a table of deployed artifacts with the spec each was
 deployed with: deploying is recording, starting a service checks the
 table, and the protobuf spec of a deployed artifact is the default one.
 The spec (a protobuf `Any`) is modelled by its bytes.
 */
module RustRuntimeOld {
  import opened Common
  import opened RuntimeTypes

  /** `PythonRuntime::ID`, the runtime identifier this runtime registers under. */
  const PYTHON_RUNTIME_ID: u32 := 2

  datatype PythonRuntime = PythonRuntime(deployedArtifacts: map<ArtifactId, Bytes>)

  /** The dispatcher errors this runtime raises. */
  datatype DispatcherError = ArtifactAlreadyDeployed | ArtifactNotDeployed

  datatype Deployed = DeployOk(state: PythonRuntime) | DeployErr(error: DispatcherError)

  /** `ArtifactProtobufSpec::default()`: no sources. */
  datatype ProtobufSpec = DefaultProtobufSpec

  /** `deploy_artifact`: a vacant entry is filled with the spec; an occupied one is an error. */
  function DeployArtifact(rt: PythonRuntime, artifact: ArtifactId, spec: Bytes): (r: Deployed)
    ensures r.DeployErr? <==> artifact in rt.deployedArtifacts
    ensures r.DeployErr? ==> r.error == ArtifactAlreadyDeployed
    ensures r.DeployOk? ==> r.state.deployedArtifacts == rt.deployedArtifacts[artifact := spec]
  {
    if artifact in rt.deployedArtifacts then DeployErr(ArtifactAlreadyDeployed)
    else DeployOk(PythonRuntime(rt.deployedArtifacts[artifact := spec]))
  }

  /** `is_artifact_deployed`. */
  function IsArtifactDeployed(rt: PythonRuntime, id: ArtifactId): (r: bool)
    ensures r <==> id in rt.deployedArtifacts
  {
    id in rt.deployedArtifacts
  }

  /** `start_service`: None for `Ok(())`, otherwise the error. */
  function StartService(rt: PythonRuntime, spec: InstanceSpec): (r: Option<DispatcherError>)
    ensures r.None? <==> spec.artifact in rt.deployedArtifacts
    ensures r.Some? ==> r.value == ArtifactNotDeployed
  {
    if spec.artifact !in rt.deployedArtifacts then Some(ArtifactNotDeployed) else None
  }

  /** `artifact_protobuf_spec`: the default spec for a deployed artifact, nothing otherwise. */
  function ArtifactProtobufSpec(rt: PythonRuntime, id: ArtifactId): (r: Option<ProtobufSpec>)
    ensures r.Some? <==> id in rt.deployedArtifacts
  {
    if id in rt.deployedArtifacts then Some(DefaultProtobufSpec) else None
  }

  // ----------------------------------------------------------------------
  // Properties

  /**
   An artifact is deployed once: a second deployment is refused and the
   first spec stays recorded; after the first, services of the artifact
   start and its protobuf spec is known.
   */
  lemma FirstDeploymentWins(rt: PythonRuntime, id: ArtifactId, s1: Bytes, s2: Bytes, name: string)
    requires id !in rt.deployedArtifacts
    ensures var r1 := DeployArtifact(rt, id, s1);
      && r1.DeployOk?
      && DeployArtifact(r1.state, id, s2) == DeployErr(ArtifactAlreadyDeployed)
      && r1.state.deployedArtifacts[id] == s1
      && StartService(r1.state, InstanceSpec(name, id)).None?
      && ArtifactProtobufSpec(r1.state, id) == Some(DefaultProtobufSpec)
    ensures StartService(rt, InstanceSpec(name, id)) == Some(ArtifactNotDeployed)
  {
  }

  /** Deploying one artifact leaves what is known of every other unchanged. */
  lemma DeployLeavesOthers(rt: PythonRuntime, id: ArtifactId, spec: Bytes, other: ArtifactId)
    requires other != id && DeployArtifact(rt, id, spec).DeployOk?
    ensures IsArtifactDeployed(DeployArtifact(rt, id, spec).state, other) == IsArtifactDeployed(rt, other)
    ensures other in rt.deployedArtifacts ==> DeployArtifact(rt, id, spec).state.deployedArtifacts[other] == rt.deployedArtifacts[other]
  {
  }
}
