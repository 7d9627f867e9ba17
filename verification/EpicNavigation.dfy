/** The navigator (src/ai_layer/application/epic_navigation.py:47-64, 90-362, 423-467, 500-518). It settles
    the active plan item before it names the next action. */
module EpicNavigation {
  import opened Epics
  import opened Options
  import opened TaskBoundary
  import opened EpicPlanning
  import opened EpicReview

  datatype Action =
    | AuditReviseOrApprove
    | ContinueStandaloneTask(task: nat)
    | StartPhase0
    | ContinueTask(task: nat)
    | RecordPhase0
    | CreateTaskPlan
    | ResolveDecision
    | ReviewInterveningTasks
    | RecordDriftReconciliation
    | ReconcileProjectMap(task: nat)
    | StartDriftReconciliation
    | StartFinalReview(item: nat)
    | StartNextTask(item: nat)
    | HumanAttention
    | ArchiveEpic
    | NoAction

  datatype Navigated = Navigated(epic: Epic, action: Action)

  // Closure evidence

  const DOC_PATH_NAMES: set<string> := {"README.md", "ARCHITECTURE.md", "CURRENT_STATE.md", "CHANGELOG.md",
      "ROADMAP.md"}

  predicate IsDoc(path: string) { path in DOC_PATH_NAMES || "docs/" <= path }

  predicate DocsUpdated(t: Task) { exists i | 0 <= i < |t.changed| :: IsDoc(t.changed[i]) }

  predicate KnowledgePublished(t: Task) { t.knowledge != [] && t.knowledge[|t.knowledge| - 1] > 0 }

  predicate MapReconciled(t: Task) { t.maps != [] && t.maps[|t.maps| - 1] > 0 }

  // Settling the active item

  datatype Sync = NothingActive | ItemBlocks | ItemOpen(task: nat) | AwaitsMap(task: nat) | ItemDone

  datatype Synced = Synced(epic: Epic, state: Sync)

  function WithItemStatus(e: Epic, i: nat, status: ItemStatus): Epic
    requires i < |e.plan|
  {
    e.(plan := e.plan[i := e.plan[i].(status := status)])
  }

  /** `_complete_final_item`, before the item itself is marked. */
  function CompleteFinal(e: Epic, t: Task): Epic {
    if DocsUpdated(t) && KnowledgePublished(t) && MapReconciled(t) then e.(status := Completed, reason := NoReason)
    else if DocsUpdated(t) && KnowledgePublished(t) then e.(status := FinalReview, reason := NoReason)
    else RetryFinalItem(e).(status := FinalReview, reason := NoReason)
  }

  predicate AwaitsMapOnly(t: Task) { DocsUpdated(t) && KnowledgePublished(t) && !MapReconciled(t) }

  /** `_sync_active_item` for the active item at index i. */
  function Settle(e: Epic, tasks: seq<Task>, i: nat): Synced
    requires i < |e.plan|
  {
    var item := e.plan[i];
    var task := TaskRow(tasks, item.task);
    if task.None? then Synced(WithItemStatus(e, i, ItemBlocked).(status := Blocked, reason := TaskMissing), ItemBlocks)
    else if IsOpen(task.value) then Synced(e, ItemOpen(item.task.value))
    else if !task.value.status.TaskCompleted? then
      Synced(WithItemStatus(e, i, ItemBlocked).(status := Blocked, reason := TaskEnded), ItemBlocks)
    else
      var accepted := e.(digest := Accepted(task.value));
      if !item.kind.Final? then Synced(WithItemStatus(accepted, i, ItemCompleted), ItemDone)
      else if AwaitsMapOnly(task.value) then Synced(CompleteFinal(accepted, task.value), AwaitsMap(item.task.value))
      else
        var closed := CompleteFinal(accepted, task.value);
        Synced(closed.(plan := closed.plan[i := item.(status := ItemCompleted)]), ItemDone)
  }

  function SyncActiveItem(e: Epic, tasks: seq<Task>): Synced {
    var active := First(e.plan, ItemActive);
    if active.None? then Synced(e, NothingActive) else Settle(e, tasks, active.value)
  }

  // The navigation of each status

  /** `_standalone_open_task` */
  function StandaloneOpen(e: Epic, tasks: seq<Task>): Option<nat> {
    var open := OpenTask(tasks);
    if open.Some? && Linked(e, open.value) then None else open
  }

  /** `_drift_action` */
  function DriftAction(e: Epic, tasks: seq<Task>, repo: Digest): Option<Action> {
    if e.digest == "" || repo == e.digest then None
    else if Detect(e, tasks, repo).Explained? then Some(ReviewInterveningTasks)
    else Some(StartDriftReconciliation)
  }

  /** `_pending_navigation` */
  function PendingNavigation(e: Epic): Action {
    var pending := First(e.plan, ItemPending);
    if pending.None? then HumanAttention
    else if e.plan[pending.value].kind.Final? then StartFinalReview(e.plan[pending.value].ordinal)
    else StartNextTask(e.plan[pending.value].ordinal)
  }

  /** The part of `_running_navigation` after the sync of an item that neither waits nor ends the run. */
  function BetweenItems(e: Epic, tasks: seq<Task>, repo: Digest): Navigated {
    var standalone := StandaloneOpen(e, tasks);
    if standalone.Some? then Navigated(e, ContinueStandaloneTask(standalone.value))
    else
      var drift := DriftAction(e, tasks, repo);
      if drift.None? then Navigated(e, PendingNavigation(e))
      else
        Navigated(
          e.(status := Blocked,
             reason := if drift.value.ReviewInterveningTasks? then InterveningReview else RepositoryDrift),
                  drift.value)
  }

  /** `_running_navigation` */
  function RunningNavigation(e: Epic, tasks: seq<Task>, repo: Digest): Navigated {
    var s := SyncActiveItem(e, tasks);
    if s.state.ItemOpen? then Navigated(s.epic, ContinueTask(s.state.task))
    else if s.state.AwaitsMap? then Navigated(s.epic, ReconcileProjectMap(s.state.task))
    else if s.epic.status.Completed? then Navigated(s.epic, ArchiveEpic)
    else if s.epic.status.Blocked? then Navigated(s.epic, HumanAttention)
    else BetweenItems(s.epic, tasks, repo)
  }

  /** `_drift_task_navigation` */
  function DriftTaskNavigation(e: Epic, tasks: seq<Task>): Navigated {
    var task := TaskRow(tasks, e.driftTask);
    if task.None? then Navigated(e.(status := Blocked, reason := TaskMissing), HumanAttention)
    else if IsOpen(task.value) then Navigated(e, ContinueTask(e.driftTask.value))
    else if task.value.status.TaskCompleted? then Navigated(e, RecordDriftReconciliation)
    else Navigated(e.(status := Blocked, reason := TaskEnded), HumanAttention)
  }

  /** `_phase0_navigation` */
  function Phase0Navigation(e: Epic, tasks: seq<Task>): Action {
    var task := TaskRow(tasks, e.phase0Task);
    if task.None? then HumanAttention
    else if IsOpen(task.value) then ContinueTask(e.phase0Task.value)
    else if task.value.status.TaskCompleted? then RecordPhase0
    else HumanAttention
  }

  function ApprovedNavigation(e: Epic, tasks: seq<Task>): Action {
    var standalone := StandaloneOpen(e, tasks);
    if standalone.Some? then ContinueStandaloneTask(standalone.value) else StartPhase0
  }

  /** `_navigation_action` */
  function Navigate(e: Epic, tasks: seq<Task>, repo: Digest): Navigated {
    if e.status.Draft? then Navigated(e, AuditReviseOrApprove)
    else if e.status.Approved? then Navigated(e, ApprovedNavigation(e, tasks))
    else if e.status.Phase0? then Navigated(e, Phase0Navigation(e, tasks))
    else if e.status.Planning? then Navigated(e, CreateTaskPlan)
    else if AwaitsDecision(e) then Navigated(e, ResolveDecision)
    else if AwaitsReview(e) then Navigated(e, ReviewInterveningTasks)
    else if e.driftTask.Some? then DriftTaskNavigation(e, tasks)
    else if e.status.Running? || e.status.FinalReview? then RunningNavigation(e, tasks, repo)
    else if e.status.Blocked? && e.reason.RepositoryDrift? then Navigated(e, StartDriftReconciliation)
    else if e.status.Blocked? then Navigated(e, HumanAttention)
    else if e.status.Completed? then Navigated(e, ArchiveEpic)
    else Navigated(e, NoAction)
  }

  // Which Epic

  predicate IsExecuting(epics: seq<Epic>, i: nat)
    requires i < |epics|
  {
    Executing(epics[i].status)
  }

  function ExecutingEpics(epics: seq<Epic>): (ids: seq<nat>)
    ensures forall k | 0 <= k < |ids| :: ids[k] < |epics| && IsExecuting(epics, ids[k])
    ensures forall j, k | 0 <= j < k < |ids| :: ids[j] < ids[k]
    ensures forall i: nat | i < |epics| && IsExecuting(epics, i) :: i in ids
  {
    if epics == [] then []
    else
      var last := |epics| - 1;
      var ids := ExecutingEpics(epics[..last]);
      assert forall i: nat | i < last :: IsExecuting(epics, i) == IsExecuting(epics[..last], i);
      if IsExecuting(epics, last) then ids + [last] else ids
  }

  function OpenEpics(epics: seq<Epic>): (ids: seq<nat>)
    ensures forall k | 0 <= k < |ids| :: ids[k] < |epics| && OpenStatus(epics[ids[k]].status)
  {
    if epics == [] then []
    else
      var last := |epics| - 1;
      var ids := OpenEpics(epics[..last]);
      if OpenStatus(epics[last].status) then ids + [last] else ids
  }

  /** `_resolve_epic_for_next` */
  function ResolveEpicForNext(epics: seq<Epic>, key: Option<nat>): (r: Result<Option<nat>>)
    ensures r.Ok? && r.value.Some? ==> r.value.value < |epics|
  {
    if key.Some? then if key.value < |epics| then Ok(key) else Err(NoSuchEpic)
    else
      var executing := ExecutingEpics(epics);
      if |executing| > 1 then Err(SeveralExecuting)
      else if |executing| == 1 then Ok(Some(executing[0]))
      else
        var open := OpenEpics(epics);
        if |open| > 1 then Err(SeveralOpen)
        else if |open| == 1 then Ok(Some(open[0]))
        else Ok(None)
  }
}
