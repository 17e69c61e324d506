/**
 The future a Python deployment is awaited through
 (`rust_interface/src/pending_deployment.rs`).

 A `PendingDeployment` is a pair of shared cells: the deployment status
 (unset, or a result) and the task that last polled it. Clones share the
 cells, so what one clone settles another clone's `poll` observes. Here the
 cells are a value, and the sharing is modelled by a store of such values
 keyed by handle (see `PythonInterface`).
 */
module PendingDeployment {
  import opened Common

  /** The execution error a failed deployment carries: modelled by the raw code the Python side reported. */
  datatype DeployError = DeployError(code: u32)

  /** `Result<(), ExecutionError>`. */
  datatype Status = Succeeded | Failed(error: DeployError)

  /** The two shared cells: the status, and the task to wake, each unset at first. */
  datatype Cell = Cell(result: Option<Status>, task: Option<nat>)

  /** `PendingDeployment::new()`. */
  function New(): (c: Cell)
    ensures c.result.None? && c.task.None?
  {
    Cell(None, None)
  }

  /** A settled cell and the task that was notified, if one had registered. */
  datatype Settled = Settled(cell: Cell, notified: Option<nat>)

  /** `complete`: the status becomes success; the registered task, if any, is notified. */
  function Complete(c: Cell): (r: Settled)
    ensures r.cell.result == Some(Succeeded) && r.cell.task == c.task
    ensures r.notified == c.task
  {
    Settled(c.(result := Some(Succeeded)), c.task)
  }

  /** `error`: the status becomes the error; the registered task, if any, is notified. */
  function Error(c: Cell, err: DeployError): (r: Settled)
    ensures r.cell.result == Some(Failed(err)) && r.cell.task == c.task
    ensures r.notified == c.task
  {
    Settled(c.(result := Some(Failed(err))), c.task)
  }

  /** `Poll<(), ExecutionError>`. */
  datatype Poll = Ready | PollError(error: DeployError) | NotReady

  datatype Polled = Polled(cell: Cell, poll: Poll)

  /** `poll` from task `current`: a set status is reported, an unset one registers `current` to be woken. */
  function PollFrom(c: Cell, current: nat): (r: Polled)
    ensures r.cell.result == c.result
    ensures r.poll.NotReady? <==> c.result.None?
    ensures r.poll.Ready? <==> c.result == Some(Succeeded)
    ensures r.poll.PollError? <==> c.result.Some? && c.result.value.Failed?
    ensures r.poll.PollError? ==> c.result == Some(Failed(r.poll.error))
    ensures r.cell.task == (if c.result.None? then Some(current) else c.task)
  {
    match c.result
    case Some(Succeeded) => Polled(c, Ready)
    case Some(Failed(err)) => Polled(c, PollError(err))
    case None => Polled(c.(task := Some(current)), NotReady)
  }

  // ----------------------------------------------------------------------
  // Properties

  /**
   A task that polls before the deployment settles is the one woken when
   it settles, and its next poll reports the outcome.
   */
  lemma PollThenSettleWakes(c: Cell, current: nat, err: Option<DeployError>)
    requires c.result.None?
    ensures var p := PollFrom(c, current);
      var s := if err.None? then Complete(p.cell) else Error(p.cell, err.value);
      && p.poll == NotReady
      && s.notified == Some(current)
      && PollFrom(s.cell, current).poll == (if err.None? then Ready else PollError(err.value))
  {
  }

  /** Settling again overwrites: the last call decides what `poll` reports. */
  lemma LastSettlementWins(c: Cell, err: DeployError, current: nat)
    ensures PollFrom(Error(Complete(c).cell, err).cell, current).poll == PollError(err)
    ensures PollFrom(Complete(Error(c, err).cell).cell, current).poll == Ready
  {
  }

  /** Once settled, polling is idempotent: it changes nothing and reports the same thing each time. */
  lemma SettledPollIsStable(c: Cell, t1: nat, t2: nat)
    requires c.result.Some?
    ensures PollFrom(c, t1).cell == c
    ensures PollFrom(c, t1).poll == PollFrom(c, t2).poll
  {
  }
}
