/** Starting Epic Tasks (src/ai_layer/application/epic_execution.py:29-70, 107-227). A start checks, lets
    `create_task` commit the new Task, and then assigns the Epic's columns in a second commit. */
module EpicExecution {
  import opened Epics
  import opened Options

  /** The columns that a start assigns after its Task exists. A plan item is the row at its place with the plan
      version it was loaded with; a status equal to the one loaded is not written. */
  datatype Assignment =
    | Phase0Columns(task: nat)
    | ItemColumns(item: nat, version: nat, task: nat, status: Option<Status>)
    | DriftColumns(task: nat)

  predicate InRun(e: Epic) { e.status.Running? || e.status.FinalReview? }

  /** The checks of `start_next` in their order; `checked` is the repository as captured by the boundary check,
      and `other` another Epic in an execution status, if any. */
  function BeginStart(e: Epic, tasks: seq<Task>, checked: Digest, other: Option<nat>): Result<Assignment> {
    var open := OpenTask(tasks);
    if open.Some? then Err(TaskIsOpen(open.value))
    else if e.status.Approved? then
      if other.Some? then Err(AnotherExecuting(other.value)) else Ok(Phase0Columns(|tasks|))
    else if !InRun(e) then Err(NotStartable)
    else if e.digest != "" && checked != e.digest then Err(RepositoryChanged)
    else if e.driftTask.Some? then Err(DriftTaskExists)
    else
      var pending := First(e.plan, ItemPending);
      if pending.None? then Err(NothingPending)
      else
        var item := e.plan[pending.value];
        var status := if item.kind.Final? then FinalReview else Running;
        Ok(ItemColumns(pending.value, item.planVersion, |tasks|, if status == e.status then None else Some(status)))
  }

  predicate AwaitsDrift(e: Epic) { e.status.Blocked? && e.reason.RepositoryDrift? }

  /** The checks of `start_drift_reconciliation`. */
  function BeginDrift(e: Epic, tasks: seq<Task>): Result<Assignment> {
    var open := OpenTask(tasks);
    if !AwaitsDrift(e) then Err(NotAwaitingDrift)
    else if open.Some? then Err(TaskIsOpen(open.value))
    else Ok(DriftColumns(|tasks|))
  }

  /** The second commit, on the row as it is by then. An update of a plan row that is gone raises. */
  function Landed(e: Epic, a: Assignment): Epic {
    match a
    case Phase0Columns(t) => e.(phase0Task := Some(t), status := Phase0)
    case ItemColumns(i, version, t, status) =>
      if i < |e.plan| && e.plan[i].planVersion == version then
        e.(plan := e.plan[i := e.plan[i].(task := Some(t), status := ItemActive)],
           status := if status.Some? then status.value else e.status)
      else e
    case DriftColumns(t) =>
      e.(driftTask := Some(t), status := Running, reason := NoReason, driftLog := e.driftLog + {t})
  }

  /** The Epic and the Task that `create_task` opened for it. */
  datatype Started = Started(epic: Epic, task: Task)

  /** `start_next` with nothing happening to the row between its commits; `captured` is the repository when
      `create_task` records the baseline. */
  function StartNext(e: Epic, tasks: seq<Task>, checked: Digest, captured: Digest,
                     other: Option<nat>): Result<Started> {
    var a :- BeginStart(e, tasks, checked, other);
    Ok(Started(Landed(e, a), NewTask(captured)))
  }

  /** `start_drift_reconciliation`, likewise. */
  function StartDrift(e: Epic, tasks: seq<Task>, captured: Digest): Result<Started> {
    var a :- BeginDrift(e, tasks);
    Ok(Started(Landed(e, a), NewTask(captured)))
  }
}
