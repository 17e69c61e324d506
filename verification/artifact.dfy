/**
 Deployment of one artifact (`exonum_runtime/runtime/artifact.py`).

 `Artifact.deploy` first tries to load the service class as if the
 artifact were already installed; failing that it checks the wheel's hash,
 installs the wheel with pip, imports the service library and resolves the
 service class. Every ordinary path sets the deployment future once with a
 `DeploymentResult`; the machine (imports, the wheel, pip) is an oracle.
 */
module Artifact {
  import opened Common
  import opened RuntimeTypes
  import ResultCodes

  /** An artifact: its id, its spec, and the service class once it is known. */
  datatype Artifact = Artifact(id: ArtifactId, spec: ArtifactSpec, serviceClass: Option<nat>)

  /** Resolving the service class: found, not found (an error the code catches), or TypeError (not caught). */
  datatype Lookup = Found(cls: nat) | NotFound | TypeErrorRaised

  /**
   The lookup shared by `_get_service_class` and
   `_get_service_class_from_module`: the module must import, have the
   attribute, and the attribute must be a `Service` subclass. `issubclass`
   on a non-class raises TypeError, which neither catches.
   */
  function LookupService(imported: Option<Module>, className: string): (r: Lookup)
    ensures r.Found? <==> imported.Some? && GetAttr(imported.value, className).Some? && GetAttr(imported.value, className).value.ServiceSubclass?
    ensures r.Found? ==> GetAttr(imported.value, className) == Some(ServiceSubclass(r.cls))
    ensures r.TypeErrorRaised? <==> imported.Some? && GetAttr(imported.value, className) == Some(NonClassValue)
  {
    match imported
    case None => NotFound
    case Some(m) =>
      match GetAttr(m, className)
      case None => NotFound
      case Some(ServiceSubclass(c)) => Found(c)
      case Some(OtherClass) => NotFound
      case Some(NonClassValue) => TypeErrorRaised
  }

  /** `Artifact(artifact_id, spec, config)`: no service class yet. */
  function New(id: ArtifactId, spec: ArtifactSpec): Artifact {
    Artifact(id, spec, None)
  }

  /**
   The end of `deploy`: the artifact after it, the result the future was
   set to (None when an uncaught exception ended the coroutine first), and
   whether pip was run.
   */
  datatype Deployed = Deployed(artifact: Artifact, future: Option<DeploymentResult>, ranPip: bool)

  /** `deploy` failing with SERVICE_INSTALL_FAILED. */
  function InstallFailed(a: Artifact, ranPip: bool): Deployed {
    Deployed(a, Some(DeploymentResult(ResultCodes.SERVICE_INSTALL_FAILED, a.id)), ranPip)
  }

  /** `deploy` succeeding with the service class `c`. */
  function Succeeded(a: Artifact, c: nat, ranPip: bool): Deployed {
    Deployed(a.(serviceClass := Some(c)), Some(DeploymentResult(ResultCodes.OK, a.id)), ranPip)
  }

  /** `Artifact.deploy`. */
  function Deploy(a: Artifact, w: World): (r: Deployed)
    ensures r.artifact.id == a.id && r.artifact.spec == a.spec
    ensures r.future.Some? ==> r.future.value.artifactId == a.id
    ensures r.future.Some? ==> r.future.value.result in {ResultCodes.OK, ResultCodes.SERVICE_INSTALL_FAILED}
    ensures r.future.Some? && r.future.value.result == ResultCodes.OK ==> r.artifact.serviceClass.Some?
    ensures !(r.future.Some? && r.future.value.result == ResultCodes.OK) ==> r.artifact == a
    ensures r.ranPip ==> w.wheel.Some? && w.hashData(w.wheel.value) == a.spec.expectedHash
  {
    match LookupService(w.importBefore(a.spec.serviceLibraryName), a.spec.serviceClassName)
    case Found(c) => Succeeded(a, c, false)
    case TypeErrorRaised => Deployed(a, None, false)
    case NotFound =>
      if w.wheel.None? then Deployed(a, None, false)
      else if w.hashData(w.wheel.value) != a.spec.expectedHash then InstallFailed(a, false)
      else if w.pipExit != 0 then InstallFailed(a, true)
      else match LookupService(w.importAfter(a.spec.serviceLibraryName), a.spec.serviceClassName)
        case Found(c) => Succeeded(a, c, true)
        case NotFound => InstallFailed(a, true)
        case TypeErrorRaised => Deployed(a, None, true)
  }

  /** `get_service`: the class, None standing for RuntimeError("Artifact is not yet deployed"). */
  function GetService(a: Artifact): (r: Option<nat>)
    ensures r.Some? <==> a.serviceClass.Some?
  {
    a.serviceClass
  }

  // ----------------------------------------------------------------------
  // Properties

  /** An artifact whose service class already resolves is reported deployed without running pip. */
  lemma InstalledArtifactShortCircuits(a: Artifact, w: World, c: nat)
    requires w.importBefore(a.spec.serviceLibraryName).Some?
    requires GetAttr(w.importBefore(a.spec.serviceLibraryName).value, a.spec.serviceClassName) == Some(ServiceSubclass(c))
    ensures Deploy(a, w) == Deployed(a.(serviceClass := Some(c)), Some(DeploymentResult(ResultCodes.OK, a.id)), false)
  {
  }

  /** A wheel whose hash differs from the expected one is never installed, and deployment fails. */
  lemma HashMismatchNeverInstalls(a: Artifact, w: World)
    requires LookupService(w.importBefore(a.spec.serviceLibraryName), a.spec.serviceClassName).NotFound?
    requires w.wheel.Some? && w.hashData(w.wheel.value) != a.spec.expectedHash
    ensures !Deploy(a, w).ranPip
    ensures Deploy(a, w).future == Some(DeploymentResult(ResultCodes.SERVICE_INSTALL_FAILED, a.id))
  {
  }

  /**
   Once the wheel is to be installed, the deployment succeeds exactly when
   pip exits with 0 and the service class then resolves; every other
   ending sets SERVICE_INSTALL_FAILED, save an attribute that is not a
   class, which ends the coroutine without setting the future.
   */
  lemma InstallPathOutcome(a: Artifact, w: World)
    requires LookupService(w.importBefore(a.spec.serviceLibraryName), a.spec.serviceClassName).NotFound?
    requires w.wheel.Some? && w.hashData(w.wheel.value) == a.spec.expectedHash
    ensures var after := LookupService(w.importAfter(a.spec.serviceLibraryName), a.spec.serviceClassName);
      && (Deploy(a, w).future == Some(DeploymentResult(ResultCodes.OK, a.id)) <==> w.pipExit == 0 && after.Found?)
      && (Deploy(a, w).future.None? <==> w.pipExit == 0 && after.TypeErrorRaised?)
      && Deploy(a, w).ranPip
  {
  }

  /** After a deployment of a fresh artifact, `get_service` answers exactly when the future says OK. */
  lemma ServiceKnownIffDeployed(id: ArtifactId, spec: ArtifactSpec, w: World)
    ensures var r := Deploy(New(id, spec), w);
      GetService(r.artifact).Some? <==> r.future == Some(DeploymentResult(ResultCodes.OK, id))
  {
  }
}
