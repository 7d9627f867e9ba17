/** The rows the Epic engine works on (src/ai_layer/db/epic_models.py:21-65, src/ai_layer/db/models.py:
    Task, TaskStage) and the contracts of src/ai_layer/epics/contracts.py. */
module Epics {
  import opened Options
  import Text

  datatype Result<+T> = Ok(value: T) | Err(error: Error) {
    predicate IsFailure() { Err? }
    function PropagateFailure<U>(): Result<U>
      requires Err?
    {
      Err(error)
    }
    function Extract(): T
      requires Ok?
    {
      value
    }
  }

  datatype Error =
    | TextRequired | TextTooLong | SpecMissing | NotRevisable | BadVersion | VersionConflict | BadEdit
    | NotDraft | QualityGate | NotCompleted
    | AnotherExecuting(epic: nat) | TaskIsOpen(task: nat) | NotStartable | RepositoryChanged
    | DriftTaskExists | NothingPending
    | NotAwaitingDrift | AnalysisNotCompleted | NotAwaitingPhase0
    | NotPlanning | NoExecutionSpec | PlanExists | NoWorkItems | TooManyWorkItems | ItemIsActive
    | NotAwaitingReview | NotExplained | TaskSetConflict | BadOutcome | UnaffectedWithItems
    | SeveralExecuting | SeveralOpen | NoSuchEpic

  /** A repository digest; the empty string where the code stores none. */
  type Digest = string

  // Tasks

  datatype TaskStatus = TaskActive | TaskBlocked | TaskCompleted | TaskCancelled

  datatype Stage = Stage(completed: bool, after: Digest, before: Digest, snapshot: Option<Digest>)

  /** A Task of the project: its stages in order, the paths of its final changes, and the payloads of its
      `KnowledgePublished` and `ProjectMapReconciled` events, oldest first (the number published, and
      the number of scope paths checked). */
  datatype Task = Task(
    status: TaskStatus,
    baseline: Digest,
    stages: seq<Stage>,
    changed: seq<string>,
    knowledge: seq<int>,
    maps: seq<nat>)

  predicate IsOpen(t: Task) { t.status.TaskActive? || t.status.TaskBlocked? }

  /** What `create_task` inserts: a Task whose baseline is the repository as it is now. */
  function NewTask(repo: Digest): Task { Task(TaskActive, repo, [], [], [], []) }

  /** `task_row`. Tasks are named by their place in the project's sequence. */
  function TaskRow(tasks: seq<Task>, id: Option<nat>): Option<Task> {
    if id.Some? && id.value < |tasks| then Some(tasks[id.value]) else None
  }

  /** The open Task of lowest sequence. */
  function OpenTask(tasks: seq<Task>): (r: Option<nat>)
    ensures r.Some? ==> r.value < |tasks| && IsOpen(tasks[r.value]) && forall i | 0 <= i < r.value :: !IsOpen(tasks[i])
    ensures r.None? ==> forall i | 0 <= i < |tasks| :: !IsOpen(tasks[i])
  {
    if tasks == [] then None
    else
      var r := OpenTask(tasks[..|tasks| - 1]);
      if r.Some? then r
      else if IsOpen(tasks[|tasks| - 1]) then Some(|tasks| - 1)
      else None
  }

  // Epics

  datatype Status =
    | Draft | Approved | Phase0 | Planning | Running | FinalReview | Blocked | Completed | Archived
    | Cancelled

  predicate Executing(s: Status) {
    s.Phase0? || s.Planning? || s.Running? || s.FinalReview? || s.Blocked?
  }

  /** `EPIC_OPEN_STATUSES` */
  predicate OpenStatus(s: Status) { s.Draft? || s.Approved? || Executing(s) }

  /** `blocked_reason`, as far as the engine tells reasons apart. */
  datatype Reason = NoReason | HumanDecision | InterveningReview | RepositoryDrift | TaskMissing | TaskEnded

  datatype Kind = Analysis | Work | Final

  datatype ItemStatus = ItemPending | ItemActive | ItemCompleted | ItemBlocked | ItemCancelled

  datatype WorkText = WorkText(title: string, goal: string)

  const PHASE0_TEXT := WorkText("Phase 0 — reality and completeness reconciliation", "Phase 0 reconciliation")
  const FINAL_TEXT := WorkText("Final Epic review, documentation and Project Knowledge", "Final closure review")

  datatype PlanItem = PlanItem(ordinal: nat, kind: Kind, status: ItemStatus, task: Option<nat>, planVersion: nat,
      text: WorkText)

  /** An Epic row with its specification versions, its plan rows in insertion order, and the Tasks its
      `EpicDriftReconciliationStarted` events name. */
  datatype Epic = Epic(
    status: Status,
    specs: map<nat, string>,
    current: nat,
    approved: Option<nat>,
    execution: Option<nat>,
    phase0Task: Option<nat>,
    driftTask: Option<nat>,
    digest: Digest,
    planVersion: nat,
    reason: Reason,
    plan: seq<PlanItem>,
    driftLog: set<nat>)

  const MAX_EPIC_SPEC_CHARS := 120_000
  const MAX_EPIC_TITLE_CHARS := 240
  const MAX_EPIC_PLAN_ITEMS := 60

  /** `bounded_text` */
  function BoundedText(value: string, max: nat, required: bool): Result<string> {
    var text := Text.Strip(value);
    if required && text == "" then Err(TextRequired)
    else if |text| > max then Err(TextTooLong)
    else Ok(text)
  }

  function CurrentSpec(e: Epic): Result<string> {
    if e.current in e.specs then Ok(e.specs[e.current]) else Err(SpecMissing)
  }

  /** `_linked_task_ids` */
  predicate Linked(e: Epic, t: nat) {
    || e.phase0Task == Some(t) || e.driftTask == Some(t)
    || exists i | 0 <= i < |e.plan| :: e.plan[i].task == Some(t)
  }

  // Plan queries

  /** The item of lowest ordinal with the given status, as an index of the plan. */
  function First(plan: seq<PlanItem>, status: ItemStatus): (r: Option<nat>)
    ensures r.Some? ==> r.value < |plan| && plan[r.value].status == status
                        && forall j | 0 <= j < |plan| && plan[j].status == status ::
                            plan[r.value].ordinal <= plan[j].ordinal
    ensures r.None? ==> forall j | 0 <= j < |plan| :: plan[j].status != status
  {
    if plan == [] then None
    else
      var last := |plan| - 1;
      var r := First(plan[..last], status);
      if plan[last].status != status then r
      else if r.Some? && plan[r.value].ordinal <= plan[last].ordinal then r
      else Some(last)
  }

  /** `max(ordinal)` of the plan, 0 when there is none. */
  function MaxOrdinal(plan: seq<PlanItem>): (m: nat)
    ensures forall j | 0 <= j < |plan| :: plan[j].ordinal <= m
    ensures plan == [] ==> m == 0
    ensures plan != [] ==> exists j | 0 <= j < |plan| :: plan[j].ordinal == m
  {
    if plan == [] then 0
    else
      var last := |plan| - 1;
      var m := MaxOrdinal(plan[..last]);
      if last > 0 && m >= plan[last].ordinal then
        assert exists j | 0 <= j < last :: plan[..last][j].ordinal == m;
        m
      else
        plan[last].ordinal
  }

  function WithStatus(plan: seq<PlanItem>, status: ItemStatus): seq<PlanItem> {
    if plan == [] then []
    else WithStatus(plan[..|plan| - 1], status) + (if plan[|plan| - 1].status == status then [plan[|plan| - 1]] else [])
  }
}
