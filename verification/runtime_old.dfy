/**
 The artifact tables of the earlier runtime revision (`runtime/runtime.py`).

 `request_deploy` answers None on success and WRONG_SPEC on a spec that
 does not parse; the revision's own `Artifact` is a stub that knows only
 its id and spec. `_deploy_completed` reads the earlier result record with
 its success flag, and does not forward the result to the Rust side.
 The stub's `deploy` is an empty coroutine that never sets the future it
 is given (`runtime/runtime.py:19-21`), so in this revision
 `_deploy_completed` is never triggered and the failed-completion defect
 below stays latent; the completions here are what the callback does
 once a deployment does set its future.
 Its `is_artifact_deployed` is the later revision's membership test
 (`Runtime.IsArtifactDeployed`), written below as `id in artifacts`.
 */
module RuntimeOld {
  import opened Common
  import opened RuntimeTypes
  import ResultCodes
  import Runtime
  import ArtifactOld

  /** The stub `Artifact(artifact_id, spec)`. */
  datatype StubArtifact = StubArtifact(id: ArtifactId, spec: ArtifactSpec)

  datatype PythonRuntime = PythonRuntime(
    pending: map<ArtifactId, StubArtifact>,
    artifacts: map<ArtifactId, StubArtifact>)

  /** `request_deploy`: the error it returns, if any, and the tables after it. */
  datatype Requested = Requested(state: PythonRuntime, error: Option<ResultCodes.PythonResult>)

  function RequestDeploy(rt: PythonRuntime, id: ArtifactId, specBytes: Bytes, parse: Runtime.Parser): (r: Requested)
    ensures r.error.Some? <==> parse(specBytes).None?
    ensures r.error.Some? ==> r.error.value == ResultCodes.WRONG_SPEC && r.state == rt
    ensures r.error.None? ==>
      && r.state.pending == rt.pending[id := StubArtifact(id, parse(specBytes).value)]
      && r.state.artifacts == rt.artifacts
  {
    match parse(specBytes)
    case None => Requested(rt, Some(ResultCodes.WRONG_SPEC))
    case Some(spec) => Requested(rt.(pending := rt.pending[id := StubArtifact(id, spec)]), None)
  }

  /** The end of `_deploy_completed`: the tables after it, or the KeyError of a successful result whose artifact is not pending. */
  datatype Completion = Completed(state: PythonRuntime) | CompletionKeyError

  /**
   `_deploy_completed` as written: only a successful deployment touches the
   tables, so a failed one leaves its artifact pending for good.
   */
  function DeployCompletedAsWritten(rt: PythonRuntime, result: ArtifactOld.OldResult): (r: Completion)
    ensures r.CompletionKeyError? <==> result.success && result.artifactId !in rt.pending
    ensures !result.success ==> r == Completed(rt)
  {
    var id := result.artifactId;
    if !result.success then Completed(rt)
    else if id !in rt.pending then CompletionKeyError
    else Completed(PythonRuntime(rt.pending - {id}, rt.artifacts[id := rt.pending[id]]))
  }

  /**
   `_deploy_completed` as the later revision states its intent: the
   artifact leaves the pending table however the deployment ended.
   */
  function DeployCompleted(rt: PythonRuntime, result: ArtifactOld.OldResult): (r: Completion)
    ensures r.Completed? <==> result.artifactId in rt.pending
    ensures r.Completed? ==>
      && r.state.pending == rt.pending - {result.artifactId}
      && (result.success ==> r.state.artifacts == rt.artifacts[result.artifactId := rt.pending[result.artifactId]])
      && (!result.success ==> r.state.artifacts == rt.artifacts)
  {
    var id := result.artifactId;
    if id !in rt.pending then CompletionKeyError
    else if result.success then Completed(PythonRuntime(rt.pending - {id}, rt.artifacts[id := rt.pending[id]]))
    else Completed(PythonRuntime(rt.pending - {id}, rt.artifacts))
  }

  // ----------------------------------------------------------------------
  // Properties

  /**
   As written, a failed deployment stays pending: after a request and a
   failed completion the artifact is in the pending table and not
   deployed.
   */
  lemma FailedDeploymentStaysPending(rt: PythonRuntime, id: ArtifactId, specBytes: Bytes, parse: Runtime.Parser)
    requires parse(specBytes).Some? && id !in rt.artifacts
    ensures var s := RequestDeploy(rt, id, specBytes, parse).state;
      var failure := ArtifactOld.OldResult(false, Some(ResultCodes.SERVICE_INSTALL_FAILED), id);
      var c := DeployCompletedAsWritten(s, failure);
      && c.Completed? && id in c.state.pending && id !in c.state.artifacts
  {
  }

  /**
   Corrected, every completion of a requested deployment empties its
   pending entry, and the artifact is deployed exactly when the result says
   success; the two versions agree on successful results.
   */
  lemma CompletionClearsPending(rt: PythonRuntime, id: ArtifactId, specBytes: Bytes, parse: Runtime.Parser, result: ArtifactOld.OldResult)
    requires parse(specBytes).Some? && result.artifactId == id && id !in rt.artifacts
    ensures var s := RequestDeploy(rt, id, specBytes, parse).state;
      var c := DeployCompleted(s, result);
      && c.Completed? && id !in c.state.pending
      && (id in c.state.artifacts <==> result.success)
    ensures result.success ==> DeployCompleted(rt, result) == DeployCompletedAsWritten(rt, result)
  {
  }
}
