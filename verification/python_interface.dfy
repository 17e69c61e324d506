/**
 The Rust side's table of the Python runtime (`rust_interface/src/python_interface.rs`).

 The interface holds the callbacks the Python side registered (blank ones
 until it registers) and the deployments in progress, each as a
 `PendingDeployment` whose cells the runtime's returned future shares.
 `deployment_completed` is how the Python side reports the end of a
 deployment: the entry is removed and its future settled, and an
 unexpected artifact is a panic.

 The cells of all deployments live in one store, a deployment being its
 index there; the entry in `ongoing` and the future handed to the caller
 are two clones sharing the cells at that index.
 */
module PythonInterface {
  import opened Common
  import opened RuntimeTypes
  import ResultCodes
  import PendingDeployment

  /** The callbacks of `PythonMethods` that answer something, each taking what the Rust side passes. */
  datatype PythonMethods = PythonMethods(
    deployArtifact: (ArtifactId, Bytes) -> u32,
    isArtifactDeployed: ArtifactId -> bool,
    startService: InstanceSpec -> u32,
    initializeService: (InstanceDescriptor, Bytes) -> u32,
    stopService: InstanceDescriptor -> u32,
    execute: (CallInfo, Bytes) -> u32)

  /** The default methods' `RuntimeNotReady as u32`, the value of `PythonRuntimeResult::RuntimeNotReady`. */
  const RUNTIME_NOT_READY: u32 := ResultCodes.RUST_RUNTIME_NOT_READY as u32

  /** `PythonMethods::default()`: every call answers RuntimeNotReady, and no artifact is deployed. */
  function DefaultMethods(): PythonMethods {
    PythonMethods(
      (_, _) => RUNTIME_NOT_READY,
      _ => false,
      _ => RUNTIME_NOT_READY,
      (_, _) => RUNTIME_NOT_READY,
      _ => RUNTIME_NOT_READY,
      (_, _) => RUNTIME_NOT_READY)
  }

  /** `PythonRuntimeInterface`: the callbacks, the ongoing deployments by artifact, and the shared cells. */
  datatype Interface = Interface(
    methods: PythonMethods,
    ongoing: map<ArtifactId, nat>,
    cells: seq<PendingDeployment.Cell>)

  /** Every ongoing deployment has its cells. */
  predicate Valid(i: Interface) {
    forall a | a in i.ongoing :: i.ongoing[a] < |i.cells|
  }

  /** `PythonRuntimeInterface::default()`, the value of `PYTHON_INTERFACE` before anything happens. */
  function Default(): (i: Interface)
    ensures Valid(i) && i.ongoing == map[]
  {
    Interface(DefaultMethods(), map[], [])
  }

  /** `init_python_side`: the registered callbacks replace the current ones. */
  function InitPythonSide(i: Interface, methods: PythonMethods): (r: Interface)
    ensures r.methods == methods && r.ongoing == i.ongoing && r.cells == i.cells
  {
    i.(methods := methods)
  }

  /** `PendingDeployment::new()`: fresh cells, and the handle shared by the deployment and its clones. */
  function NewDeployment(i: Interface): (r: (Interface, nat))
    ensures r.1 == |i.cells| && r.0.cells == i.cells + [PendingDeployment.New()]
    ensures r.0.methods == i.methods && r.0.ongoing == i.ongoing
  {
    (i.(cells := i.cells + [PendingDeployment.New()]), |i.cells|)
  }

  /** `notify_deployment_started`: records the deployment, replacing one already recorded for the artifact. */
  function NotifyDeploymentStarted(i: Interface, artifact: ArtifactId, deployment: nat): (r: Interface)
    requires deployment < |i.cells|
    ensures r.ongoing == i.ongoing[artifact := deployment] && r.cells == i.cells && r.methods == i.methods
    ensures Valid(i) ==> Valid(r)
  {
    i.(ongoing := i.ongoing[artifact := deployment])
  }

  /** `error_code_to_result`: 0 is success; any other code is an error carrying that code. */
  datatype CodeResult = CodeOk | CodeErr(error: PendingDeployment.DeployError)

  function ErrorCodeToResult(code: u32): (r: CodeResult)
    ensures r.CodeOk? <==> code == 0
    ensures r.CodeErr? ==> r.error.code == code
  {
    if code == 0 then CodeOk else CodeErr(PendingDeployment.DeployError(code))
  }

  /** The end of `deployment_completed`: the interface after it and the task woken, or the panic. */
  datatype Completion = Delivered(iface: Interface, notified: Option<nat>) | Panicked

  /** `deployment_completed`. */
  function DeploymentCompleted(i: Interface, artifact: ArtifactId, code: u32): (r: Completion)
    requires Valid(i)
    ensures r.Panicked? <==> artifact !in i.ongoing
    ensures r.Delivered? ==>
      var h := i.ongoing[artifact];
      && r.iface.ongoing == i.ongoing - {artifact}
      && r.iface.methods == i.methods
      && |r.iface.cells| == |i.cells|
      && r.iface.cells[h].result == Some(if code == 0 then PendingDeployment.Succeeded else PendingDeployment.Failed(PendingDeployment.DeployError(code)))
      && (forall k | 0 <= k < |i.cells| && k != h :: r.iface.cells[k] == i.cells[k])
      && r.notified == i.cells[h].task
      && Valid(r.iface)
  {
    if artifact !in i.ongoing then Panicked
    else
      var h := i.ongoing[artifact];
      var s := match ErrorCodeToResult(code)
        case CodeOk => PendingDeployment.Complete(i.cells[h])
        case CodeErr(e) => PendingDeployment.Error(i.cells[h], e);
      Delivered(i.(ongoing := i.ongoing - {artifact}, cells := i.cells[h := s.cell]), s.notified)
  }

  /** Polling a deployment's future from a task. */
  function PollDeployment(i: Interface, deployment: nat, current: nat): (r: (Interface, PendingDeployment.Poll))
    requires deployment < |i.cells|
    ensures r.1 == PendingDeployment.PollFrom(i.cells[deployment], current).poll
    ensures r.0.ongoing == i.ongoing && |r.0.cells| == |i.cells|
  {
    var p := PendingDeployment.PollFrom(i.cells[deployment], current);
    (i.(cells := i.cells[deployment := p.cell]), p.poll)
  }

  // ----------------------------------------------------------------------
  // Properties

  /**
   Until the Python side registers its callbacks, every call answers
   RuntimeNotReady, which the Rust classifier reads as "not initialized",
   and no artifact counts as deployed.
   */
  lemma DefaultMethodsNotReady(id: ArtifactId, spec: Bytes, inst: InstanceSpec, d: InstanceDescriptor, c: CallInfo)
    ensures var m := Default().methods;
      && m.deployArtifact(id, spec) == RUNTIME_NOT_READY
      && m.startService(inst) == RUNTIME_NOT_READY
      && m.initializeService(d, spec) == RUNTIME_NOT_READY
      && m.stopService(d) == RUNTIME_NOT_READY
      && m.execute(c, spec) == RUNTIME_NOT_READY
      && !m.isArtifactDeployed(id)
    ensures ResultCodes.FromValue(RUNTIME_NOT_READY as u8) == ResultCodes.Err(ResultCodes.Runtime(1), ResultCodes.NotInitialized)
  {
  }

  /**
   A deployment from start to end: a fresh future, recorded for the
   artifact, settles when the Python side reports the artifact, with
   success exactly for code 0; the entry is gone, so a second report of
   the same artifact panics.
   */
  lemma DeploymentRoundTrip(i: Interface, artifact: ArtifactId, code: u32, task: nat)
    requires Valid(i)
    ensures var (i1, h) := NewDeployment(i);
      var i2 := NotifyDeploymentStarted(i1, artifact, h);
      var c := DeploymentCompleted(i2, artifact, code);
      && c.Delivered?
      && c.notified.None?
      && artifact !in c.iface.ongoing
      && h < |c.iface.cells|
      && PollDeployment(c.iface, h, task).1 == (if code == 0 then PendingDeployment.Ready else PendingDeployment.PollError(PendingDeployment.DeployError(code)))
      && DeploymentCompleted(c.iface, artifact, code) == Panicked
  {
  }

  /**
   A second deployment of an artifact already in progress replaces the
   first entry: the report settles only the second future, and the first
   one is never settled by any later report.
   */
  lemma ReplacedDeploymentNeverSettles(i: Interface, artifact: ArtifactId, code: u32)
    requires Valid(i)
    ensures var (i1, h1) := NewDeployment(i);
      var (i2, h2) := NewDeployment(NotifyDeploymentStarted(i1, artifact, h1));
      var i3 := NotifyDeploymentStarted(i2, artifact, h2);
      var c := DeploymentCompleted(i3, artifact, code);
      && h1 != h2
      && c.Delivered?
      && c.iface.cells[h2].result.Some?
      && c.iface.cells[h1].result.None?
      && h1 !in c.iface.ongoing.Values
  {
    var (i1, h1) := NewDeployment(i);
    var (i2, h2) := NewDeployment(NotifyDeploymentStarted(i1, artifact, h1));
    var i3 := NotifyDeploymentStarted(i2, artifact, h2);
    var c := DeploymentCompleted(i3, artifact, code);
    forall a | a in c.iface.ongoing
      ensures c.iface.ongoing[a] != h1
    {
      assert a in i.ongoing;
      assert c.iface.ongoing[a] == i.ongoing[a] < |i.cells| == h1;
    }
  }
}
