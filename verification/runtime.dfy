/**
 The artifact tables of the Python runtime
 (`exonum_runtime/runtime/runtime.py`).

 `request_deploy` parses the artifact spec, schedules the artifact's
 deployment and records the artifact as pending; when the deployment future
 is set, `_deploy_completed` forwards the result to the Rust side and moves
 the artifact from the pending table to the deployed one on success. Spec
 parsing is an oracle; the event loop is replaced by running the scheduled
 deployment explicitly.
 */
module Runtime {
  import opened Common
  import opened RuntimeTypes
  import ResultCodes
  import Artifact

  /** `_pending_deployments` and `_artifacts`. */
  datatype PythonRuntime = PythonRuntime(
    pending: map<ArtifactId, Artifact.Artifact>,
    artifacts: map<ArtifactId, Artifact.Artifact>)

  /** A freshly constructed runtime: both tables empty. */
  function New(): (r: PythonRuntime)
    ensures r.pending == map[] && r.artifacts == map[]
  {
    PythonRuntime(map[], map[])
  }

  /** `PythonArtifactSpec.from_bytes`: None stands for ParseError. */
  type Parser = Bytes -> Option<ArtifactSpec>

  /** What `request_deploy` leaves behind: the tables, the returned code, and the artifact whose deployment it scheduled. */
  datatype Requested = Requested(state: PythonRuntime, result: ResultCodes.PythonResult, scheduled: Option<Artifact.Artifact>)

  /** `request_deploy`. */
  function RequestDeploy(rt: PythonRuntime, id: ArtifactId, specBytes: Bytes, parse: Parser): (r: Requested)
    ensures r.result in {ResultCodes.OK, ResultCodes.WRONG_SPEC}
    ensures r.result == ResultCodes.WRONG_SPEC <==> parse(specBytes).None?
    ensures r.result == ResultCodes.WRONG_SPEC ==> r.state == rt && r.scheduled.None?
    ensures r.result == ResultCodes.OK ==>
      && r.scheduled == Some(Artifact.New(id, parse(specBytes).value))
      && r.state.pending == rt.pending[id := r.scheduled.value]
      && r.state.artifacts == rt.artifacts
  {
    match parse(specBytes)
    case None => Requested(rt, ResultCodes.WRONG_SPEC, None)
    case Some(spec) =>
      var artifact := Artifact.New(id, spec);
      Requested(rt.(pending := rt.pending[id := artifact]), ResultCodes.OK, Some(artifact))
  }

  /**
   The end of `_deploy_completed`: the result always reaches the Rust side
   first; then the tables are updated, or a KeyError is raised for an
   artifact that is not pending.
   */
  datatype Completion =
    | Completed(state: PythonRuntime, forwarded: DeploymentResult)
    | CompletionKeyError(forwarded: DeploymentResult)

  /** `_deploy_completed`: the artifact leaves the pending table however the deployment ended. */
  function DeployCompleted(rt: PythonRuntime, result: DeploymentResult): (r: Completion)
    ensures r.forwarded == result
    ensures r.Completed? <==> result.artifactId in rt.pending
    ensures r.Completed? ==>
      var id := result.artifactId;
      && r.state.pending == rt.pending - {id}
      && (result.result == ResultCodes.OK ==> r.state.artifacts == rt.artifacts[id := rt.pending[id]])
      && (result.result != ResultCodes.OK ==> r.state.artifacts == rt.artifacts)
  {
    var id := result.artifactId;
    if id !in rt.pending then CompletionKeyError(result)
    else
      var artifacts := if result.result == ResultCodes.OK then rt.artifacts[id := rt.pending[id]] else rt.artifacts;
      Completed(PythonRuntime(rt.pending - {id}, artifacts), result)
  }

  /** `is_artifact_deployed`. */
  function IsArtifactDeployed(rt: PythonRuntime, id: ArtifactId): (r: bool)
    ensures r <==> id in rt.artifacts
  {
    id in rt.artifacts
  }

  /**
   One deployment from request to completion. The scheduled artifact is
   deployed against `w`; since the pending table holds that very object,
   the changes deployment makes to it are visible there. The completion
   callback runs only if the deployment set its future.
   */
  datatype Run = Run(state: PythonRuntime, requestResult: ResultCodes.PythonResult, completion: Option<Completion>)

  function RunDeployment(rt: PythonRuntime, id: ArtifactId, specBytes: Bytes, parse: Parser, w: World): Run {
    var req := RequestDeploy(rt, id, specBytes, parse);
    match req.scheduled
    case None => Run(req.state, req.result, None)
    case Some(artifact) =>
      var d := Artifact.Deploy(artifact, w);
      var st := req.state.(pending := req.state.pending[id := d.artifact]);
      match d.future
      case None => Run(st, req.result, None)
      case Some(result) =>
        var c := DeployCompleted(st, result);
        Run(if c.Completed? then c.state else st, req.result, Some(c))
  }

  // ----------------------------------------------------------------------
  // Properties

  /** A spec that does not parse is refused with WRONG_SPEC and changes nothing. */
  lemma MalformedSpecRefused(rt: PythonRuntime, id: ArtifactId, specBytes: Bytes, parse: Parser, w: World)
    requires parse(specBytes).None?
    ensures RunDeployment(rt, id, specBytes, parse, w) == Run(rt, ResultCodes.WRONG_SPEC, None)
  {
  }

  /**
   A whole deployment of a well-formed spec: the request answers OK; when
   the deployment sets its future, the artifact leaves the pending table,
   is reported deployed exactly when the result is OK, and then holds its
   service class; when it does not, the artifact stays pending.
   */
  lemma DeploymentLifecycle(rt: PythonRuntime, id: ArtifactId, specBytes: Bytes, parse: Parser, w: World)
    requires parse(specBytes).Some?
    ensures var run := RunDeployment(rt, id, specBytes, parse, w);
      var d := Artifact.Deploy(Artifact.New(id, parse(specBytes).value), w);
      && run.requestResult == ResultCodes.OK
      && (run.completion.Some? <==> d.future.Some?)
      && (run.completion.Some? ==> run.completion.value == Completed(run.state, d.future.value))
      && (d.future.Some? ==> id !in run.state.pending)
      && (d.future.None? ==> id in run.state.pending)
      && (IsArtifactDeployed(run.state, id) <==> d.future == Some(DeploymentResult(ResultCodes.OK, id)) || id in rt.artifacts)
      && (d.future == Some(DeploymentResult(ResultCodes.OK, id)) ==> Artifact.GetService(run.state.artifacts[id]).Some?)
  {
    var spec := parse(specBytes).value;
    var d := Artifact.Deploy(Artifact.New(id, spec), w);
    if d.future.Some? {
      assert d.future.value.artifactId == id;
    }
  }

  /**
   Two requests for one artifact before either completes: the second
   replaces the first's pending entry, the first completion removes it, and
   the second completion raises KeyError after forwarding its result.
   */
  lemma DuplicateRequestSecondCompletionRaises(rt: PythonRuntime, id: ArtifactId, b1: Bytes, b2: Bytes, parse: Parser, r1: DeploymentResult, r2: DeploymentResult)
    requires parse(b1).Some? && parse(b2).Some?
    requires r1.artifactId == id && r2.artifactId == id
    ensures var s1 := RequestDeploy(rt, id, b1, parse).state;
      var s2 := RequestDeploy(s1, id, b2, parse).state;
      && s2.pending[id] == Artifact.New(id, parse(b2).value)
      && DeployCompleted(s2, r1).Completed?
      && DeployCompleted(DeployCompleted(s2, r1).state, r2) == CompletionKeyError(r2)
  {
  }
}
