/**
 The earlier revision of artifact deployment (`runtime/artifact.py`).

 Here the constructor can resolve the service class at once for an
 artifact known to be deployed, and `deploy` always runs pip first, with no
 hash check and no attempt to load an already installed service. Its
 `DeploymentResult` carries a success flag and an optional error code.
 */
module ArtifactOld {
  import opened Common
  import opened RuntimeTypes
  import ResultCodes
  import Artifact

  /** `Artifact.__init__`: the artifact, ArtifactStartError, or the TypeError `issubclass` lets through. */
  datatype Constructed = Constructed(artifact: Artifact.Artifact) | StartError | ConstructorCrashed

  /**
   `Artifact(artifact_id, spec, config, already_deployed)`. For an artifact
   already deployed the service class is resolved at once and any failure
   the lookup catches becomes ArtifactStartError.
   */
  function New(id: ArtifactId, spec: ArtifactSpec, alreadyDeployed: bool, w: World): (r: Constructed)
    ensures !alreadyDeployed ==> r == Constructed(Artifact.New(id, spec))
    ensures alreadyDeployed ==>
      var lookup := Artifact.LookupService(w.importBefore(spec.serviceLibraryName), spec.serviceClassName);
      && (r.Constructed? <==> lookup.Found?)
      && (r.StartError? <==> lookup.NotFound?)
      && (r.Constructed? ==> r.artifact == Artifact.Artifact(id, spec, Some(lookup.cls)))
  {
    if !alreadyDeployed then Constructed(Artifact.New(id, spec))
    else match Artifact.LookupService(w.importBefore(spec.serviceLibraryName), spec.serviceClassName)
      case Found(c) => Constructed(Artifact.Artifact(id, spec, Some(c)))
      case NotFound => StartError
      case TypeErrorRaised => ConstructorCrashed
  }

  /** The earlier `DeploymentResult(success, error, artifact_id)`. */
  datatype OldResult = OldResult(success: bool, error: Option<ResultCodes.PythonResult>, artifactId: ArtifactId)

  /** The artifact after `deploy` and what the future was set to (None when TypeError ended the coroutine). */
  datatype OldDeployed = OldDeployed(artifact: Artifact.Artifact, future: Option<OldResult>)

  function Failure(a: Artifact.Artifact): OldDeployed {
    OldDeployed(a, Some(OldResult(false, Some(ResultCodes.SERVICE_INSTALL_FAILED), a.id)))
  }

  /** `Artifact.deploy`: pip, then import, then the class lookup. */
  function Deploy(a: Artifact.Artifact, w: World): (r: OldDeployed)
    ensures r.artifact.id == a.id && r.artifact.spec == a.spec
    ensures r.future.Some? ==> r.future.value.artifactId == a.id
    ensures r.future.Some? ==> (r.future.value.success <==> r.future.value.error.None?)
    ensures r.future.Some? && !r.future.value.success ==> r.future.value.error == Some(ResultCodes.SERVICE_INSTALL_FAILED)
    ensures r.future.Some? && r.future.value.success ==> r.artifact.serviceClass.Some?
    ensures !(r.future.Some? && r.future.value.success) ==> r.artifact == a
    ensures w.pipExit != 0 ==> r == Failure(a)
  {
    if w.pipExit != 0 then Failure(a)
    else match Artifact.LookupService(w.importAfter(a.spec.serviceLibraryName), a.spec.serviceClassName)
      case Found(c) => OldDeployed(a.(serviceClass := Some(c)), Some(OldResult(true, None, a.id)))
      case NotFound => Failure(a)
      case TypeErrorRaised => OldDeployed(a, None)
  }

  // ----------------------------------------------------------------------
  // Properties

  /**
   The earlier `deploy` ignores what was importable before installation:
   its outcome is the same whatever the machine held beforehand.
   */
  lemma DeployIgnoresPriorInstall(a: Artifact.Artifact, w: World, before: string -> Option<Module>)
    ensures Deploy(a, w) == Deploy(a, w.(importBefore := before))
  {
  }

  /**
   Where the two revisions part: with the service already importable and
   pip failing, the later revision reports OK without running pip, while
   the earlier one reports SERVICE_INSTALL_FAILED.
   */
  lemma RevisionsDisagreeOnReinstall(a: Artifact.Artifact, w: World, c: nat)
    requires w.pipExit != 0
    requires w.importBefore(a.spec.serviceLibraryName).Some?
    requires GetAttr(w.importBefore(a.spec.serviceLibraryName).value, a.spec.serviceClassName) == Some(ServiceSubclass(c))
    ensures Artifact.Deploy(a, w).future == Some(DeploymentResult(ResultCodes.OK, a.id))
    ensures Deploy(a, w).future == Some(OldResult(false, Some(ResultCodes.SERVICE_INSTALL_FAILED), a.id))
  {
  }

  /**
   With pip succeeding and a wheel whose hash matches, the two revisions
   agree whenever the service was not installed beforehand.
   */
  lemma RevisionsAgreeOnFreshInstall(a: Artifact.Artifact, w: World)
    requires w.pipExit == 0 && w.wheel.Some? && w.hashData(w.wheel.value) == a.spec.expectedHash
    requires Artifact.LookupService(w.importBefore(a.spec.serviceLibraryName), a.spec.serviceClassName).NotFound?
    ensures Artifact.Deploy(a, w).artifact == Deploy(a, w).artifact
    ensures Artifact.Deploy(a, w).future.Some? <==> Deploy(a, w).future.Some?
    ensures Artifact.Deploy(a, w).future.Some? ==>
      (Artifact.Deploy(a, w).future.value.result == ResultCodes.OK <==> Deploy(a, w).future.value.success)
  {
  }
}
