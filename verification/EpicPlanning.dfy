/** The plan of an Epic and its reconciliation (src/ai_layer/application/epic_planning.py). */
module EpicPlanning {
  import opened Epics
  import opened Options
  import opened TaskBoundary

  /** `_write_execution_spec` */
  function WriteExecutionSpec(e: Epic, content: string): Result<Epic> {
    var current :- CurrentSpec(e);
    Ok(if content == current then e.(execution := Some(e.current))
       else e.(specs := e.specs[e.current + 1 := content], current := e.current + 1, execution := Some(e.current + 1)))
  }

  function NormalizedText(w: WorkText): Result<WorkText> {
    var title :- BoundedText(w.title, 240, true);
    var goal :- BoundedText(w.goal, 8_000, true);
    Ok(WorkText(title, goal))
  }

  function NormalizedTexts(items: seq<WorkText>): (r: Result<seq<WorkText>>)
    ensures r.Ok? ==> |r.value| == |items|
  {
    if items == [] then Ok([])
    else
      var init :- NormalizedTexts(items[..|items| - 1]);
      var last :- NormalizedText(items[|items| - 1]);
      Ok(init + [last])
  }

  /** `_normalize_work_items` */
  function NormalizedWork(items: seq<WorkText>): (r: Result<seq<WorkText>>)
    ensures r.Ok? ==> 1 <= |r.value| == |items| <= MAX_EPIC_PLAN_ITEMS - 2
  {
    if items == [] then Err(NoWorkItems)
    else if |items| > MAX_EPIC_PLAN_ITEMS - 2 then Err(TooManyWorkItems)
    else NormalizedTexts(items)
  }

  /** The rows `_add_work_items` inserts. */
  function WorkItems(items: seq<WorkText>, first: nat, version: nat): (r: seq<PlanItem>)
    ensures |r| == |items|
    ensures forall i | 0 <= i < |r| :: r[i] == PlanItem(first + i, Work, ItemPending, None, version, items[i])
  {
    if items == [] then []
    else
      WorkItems(items[..|items| - 1], first, version)
      + [PlanItem(first + |items| - 1, Work, ItemPending, None, version, items[|items| - 1])]
  }

  /** The row `_add_final_item` inserts. */
  function FinalItem(ordinal: nat, version: nat): PlanItem {
    PlanItem(ordinal, Final, ItemPending, None, version, FINAL_TEXT)
  }

  /** `retry_final_item` */
  function RetryFinalItem(e: Epic): Epic {
    e.(plan := e.plan + [FinalItem(MaxOrdinal(e.plan) + 1, e.planVersion)])
  }

  /** `set_plan` */
  function SetPlan(e: Epic, items: seq<WorkText>): Result<Epic> {
    if !e.status.Planning? then Err(NotPlanning)
    else if e.execution.None? then Err(NoExecutionSpec)
    else if e.plan != [] then Err(PlanExists)
    else
      var work :- NormalizedWork(items);
      Ok(e.(status := Running, planVersion := 1,
            plan := [PlanItem(0, Analysis, ItemCompleted, e.phase0Task, 1, PHASE0_TEXT)]
                    + WorkItems(work, 1, 1) + [FinalItem(1 + |work|, 1)]))
  }

  function WithoutPending(plan: seq<PlanItem>): seq<PlanItem> {
    if plan == [] then []
    else
      var last := plan[|plan| - 1];
      WithoutPending(plan[..|plan| - 1]) + (if last.status.ItemPending? then [] else [last])
  }

  /** `_replace_pending_work` */
  function ReplacePendingWork(e: Epic, items: seq<WorkText>): Result<Epic> {
    var work :- NormalizedWork(items);
    if First(e.plan, ItemActive).Some? then Err(ItemIsActive)
    else
      var first := MaxOrdinal(WithStatus(e.plan, ItemCompleted)) + 1;
      Ok(e.(planVersion := e.planVersion + 1,
            plan := WithoutPending(e.plan) + WorkItems(work, first, e.planVersion + 1)
                    + [FinalItem(first + |work|, e.planVersion + 1)]))
  }

  predicate AwaitsDecision(e: Epic) { e.status.Blocked? && e.reason.HumanDecision? }

  /** The caller's findings: the specification as corrected (empty for unchanged), whether decisions are
      left to a human, and the plan to replace the pending work with. */
  datatype Findings = Findings(summary: string, updatedSpec: string, decisions: bool, remaining: Option<seq<WorkText>>)

  /** The Task whose analysis is being recorded. */
  function AnalysisTask(e: Epic): Option<nat> {
    if e.driftTask.Some? then e.driftTask else e.phase0Task
  }

  /** The part of `reconcile_complete` that records the analysis. */
  function Recorded(e: Epic, task: Task, f: Findings): Result<Epic> {
    var current :- CurrentSpec(e);
    var content :- BoundedText(if f.updatedSpec == "" then current else f.updatedSpec, MAX_EPIC_SPEC_CHARS, true);
    var _ :- BoundedText(f.summary, 12_000, true);
    var written :- WriteExecutionSpec(e, content);
    Ok(written.(digest := Accepted(task)))
  }

  /** `reconcile_complete` */
  function Reconcile(e: Epic, tasks: seq<Task>, f: Findings): Result<Epic> {
    var task := TaskRow(tasks, AnalysisTask(e));
    if task.None? || !task.value.status.TaskCompleted? then Err(AnalysisNotCompleted)
    else if e.driftTask.None? && !e.status.Phase0? && !AwaitsDecision(e) then Err(NotAwaitingPhase0)
    else
      var recorded :- Recorded(e, task.value, f);
      if f.decisions then Ok(recorded.(status := Blocked, reason := HumanDecision))
      else if e.driftTask.Some? then
        var planned :- if f.remaining.Some? then ReplacePendingWork(recorded, f.remaining.value) else Ok(recorded);
        Ok(planned.(driftTask := None, status := Running, reason := NoReason))
      else Ok(recorded.(driftTask := None, status := Planning, reason := NoReason))
  }
}
