/** The Epic row as the engine's transactions update it, field by field; an operation that raises is
    rolled back. Each method is proved to do what its specification function says. */
module EpicRows {
  import opened Epics
  import opened Options
  import opened TaskBoundary
  import opened EpicLifecycle
  import opened EpicPlanning
  import opened EpicExecution
  import opened EpicReview
  import opened EpicNavigation
  import SpecEditor

  /** A transaction that was to do `spec` on `before` ended in `after`, raising `error` if any. */
  predicate Performed(spec: Result<Epic>, before: Epic, error: Option<Error>, after: Epic) {
    match spec
    case Ok(e) => error == None && after == e
    case Err(x) => error == Some(x) && after == before
  }

  predicate Opened(spec: Result<Started>, before: Epic, r: Result<Task>, after: Epic) {
    match spec
    case Ok(s) => r == Ok(s.task) && after == s.epic
    case Err(x) => r == Err(x) && after == before
  }

  class EpicRow {
    var status: Status
    var specs: map<nat, string>
    var currentSpecVersion: nat
    var approvedSpecVersion: Option<nat>
    var executionSpecVersion: Option<nat>
    var phase0TaskId: Option<nat>
    var driftTaskId: Option<nat>
    var executionDigest: Digest
    var planVersion: nat
    var blockedReason: Reason
    var plan: seq<PlanItem>
    var driftLog: set<nat>

    function Row(): Epic
      reads this
    {
      Epic(status, specs, currentSpecVersion, approvedSpecVersion, executionSpecVersion, phase0TaskId, driftTaskId,
           executionDigest, planVersion, blockedReason, plan, driftLog)
    }

    constructor (content: string)
      ensures Row() == Epic(Draft, map[1 := content], 1, None, None, None, None, "", 0, NoReason, [], {})
    {
      status, specs, currentSpecVersion := Draft, map[1 := content], 1;
      approvedSpecVersion, executionSpecVersion, phase0TaskId, driftTaskId := None, None, None, None;
      executionDigest, planVersion, blockedReason, plan, driftLog := "", 0, NoReason, [], {};
    }

    static method Create(title: string, spec: string) returns (r: Result<EpicRow>)
      ensures r.Ok? ==> fresh(r.value) && EpicLifecycle.Create(title, spec) == Ok(r.value.Row())
      ensures r.Err? ==> EpicLifecycle.Create(title, spec) == Err(r.error)
    {
      var titleText := BoundedText(title, MAX_EPIC_TITLE_CHARS, true);
      if titleText.Err? { return Err(titleText.error); }
      var content := BoundedText(spec, MAX_EPIC_SPEC_CHARS, true);
      if content.Err? { return Err(content.error); }
      var row := new EpicRow(content.value);
      return Ok(row);
    }

    // Lifecycle

    method PersistManualRevision(content: string, note: Note) returns (error: Option<Error>)
      modifies this
      ensures Performed(EpicLifecycle.PersistManualRevision(old(Row()), content, note), old(Row()), error, Row())
    {
      hide BoundedText;
      if currentSpecVersion !in specs { return Some(SpecMissing); }
      if content == specs[currentSpecVersion] { return None; }
      var summary := BoundedText(note.changeSummary, 4_000, true);
      if summary.Err? { return Some(summary.error); }
      var rationale := BoundedText(note.rationale, 8_000, false);
      if rationale.Err? { return Some(rationale.error); }
      var version := currentSpecVersion + 1;
      specs := specs[version := content];
      currentSpecVersion := version;
      status := Draft;
      blockedReason := NoReason;
      approvedSpecVersion := None;
      executionSpecVersion := None;
      return None;
    }

    method ReviseSpec(spec: string, note: Note) returns (error: Option<Error>)
      modifies this
      ensures Performed(EpicLifecycle.ReviseSpec(old(Row()), spec, note), old(Row()), error, Row())
    {
      if !(status.Draft? || status.Approved?) { return Some(NotRevisable); }
      var content := BoundedText(spec, MAX_EPIC_SPEC_CHARS, true);
      if content.Err? { return Some(content.error); }
      error := PersistManualRevision(content.value, note);
    }

    method EditSpec(expected: int, edits: seq<SpecEditor.Edit>, note: Note) returns (error: Option<Error>)
      modifies this
      ensures Performed(EpicLifecycle.EditSpec(old(Row()), expected, edits, note), old(Row()), error, Row())
    {
      if !(status.Draft? || status.Approved?) { return Some(NotRevisable); }
      if expected <= 0 { return Some(BadVersion); }
      if expected != currentSpecVersion { return Some(VersionConflict); }
      if currentSpecVersion !in specs { return Some(SpecMissing); }
      var edited := SpecEditor.ApplySpecEdits(specs[currentSpecVersion], edits);
      if edited.Err? { return Some(BadEdit); }
      var content := BoundedText(edited.value, MAX_EPIC_SPEC_CHARS, true);
      if content.Err? { return Some(content.error); }
      error := PersistManualRevision(content.value, note);
    }

    method Approve(quality: string -> bool) returns (error: Option<Error>)
      modifies this
      ensures Performed(EpicLifecycle.Approve(old(Row()), quality), old(Row()), error, Row())
    {
      if !status.Draft? { return Some(NotDraft); }
      if currentSpecVersion !in specs { return Some(SpecMissing); }
      if !quality(specs[currentSpecVersion]) { return Some(QualityGate); }
      status := Approved;
      approvedSpecVersion := Some(currentSpecVersion);
      executionSpecVersion := None;
      return None;
    }

    method Archive() returns (error: Option<Error>)
      modifies this`status
      ensures Performed(EpicLifecycle.Archive(old(Row())), old(Row()), error, Row())
    {
      if !status.Completed? { return Some(NotCompleted); }
      status := Archived;
      return None;
    }

    // Planning

    method WriteExecutionSpec(content: string) returns (error: Option<Error>)
      modifies this`specs, this`currentSpecVersion, this`executionSpecVersion
      ensures Performed(EpicPlanning.WriteExecutionSpec(old(Row()), content), old(Row()), error, Row())
    {
      if currentSpecVersion !in specs { return Some(SpecMissing); }
      if content == specs[currentSpecVersion] {
        executionSpecVersion := Some(currentSpecVersion);
        return None;
      }
      var version := currentSpecVersion + 1;
      specs := specs[version := content];
      currentSpecVersion := version;
      executionSpecVersion := Some(version);
      return None;
    }

    method AddWorkItems(items: seq<WorkText>, firstOrdinal: nat) returns (ordinal: nat)
      modifies this`plan
      ensures plan == old(plan) + WorkItems(items, firstOrdinal, planVersion)
      ensures ordinal == firstOrdinal + |items|
    {
      ordinal := firstOrdinal;
      for k := 0 to |items|
        invariant plan == old(plan) + WorkItems(items[..k], firstOrdinal, planVersion) && ordinal == firstOrdinal + k
        modifies this`plan
      {
        assert items[..k + 1][..k] == items[..k];
        plan := plan + [PlanItem(ordinal, Work, ItemPending, None, planVersion, items[k])];
        ordinal := ordinal + 1;
      }
      assert items[..|items|] == items;
    }

    method AddFinalItem(ordinal: nat)
      modifies this`plan
      ensures plan == old(plan) + [FinalItem(ordinal, planVersion)]
    {
      plan := plan + [PlanItem(ordinal, Final, ItemPending, None, planVersion, FINAL_TEXT)];
    }

    method RetryFinalItem()
      modifies this`plan
      ensures Row() == EpicPlanning.RetryFinalItem(old(Row()))
    {
      AddFinalItem(MaxOrdinal(plan) + 1);
    }

    method SetPlan(items: seq<WorkText>) returns (error: Option<Error>)
      modifies this
      ensures Performed(EpicPlanning.SetPlan(old(Row()), items), old(Row()), error, Row())
    {
      hide NormalizedWork, WorkItems;
      if !status.Planning? { return Some(NotPlanning); }
      if executionSpecVersion.None? { return Some(NoExecutionSpec); }
      if plan != [] { return Some(PlanExists); }
      var work := NormalizedWork(items);
      if work.Err? { return Some(work.error); }
      planVersion := 1;
      plan := [PlanItem(0, Analysis, ItemCompleted, phase0TaskId, planVersion, PHASE0_TEXT)];
      var finalOrdinal := AddWorkItems(work.value, 1);
      AddFinalItem(finalOrdinal);
      status := Running;
      return None;
    }

    method DeletePending()
      modifies this`plan
      ensures plan == WithoutPending(old(plan))
    {
      var existing := plan;
      plan := [];
      for k := 0 to |existing|
        invariant plan == WithoutPending(existing[..k])
      {
        assert existing[..k + 1][..k] == existing[..k];
        if !existing[k].status.ItemPending? {
          plan := plan + [existing[k]];
        }
      }
      assert existing[..|existing|] == existing;
    }

    method ReplacePendingWork(items: seq<WorkText>) returns (error: Option<Error>)
      modifies this`plan, this`planVersion
      ensures Performed(EpicPlanning.ReplacePendingWork(old(Row()), items), old(Row()), error, Row())
    {
      hide NormalizedWork, MaxOrdinal, WithStatus, WithoutPending, WorkItems;
      var work := NormalizedWork(items);
      if work.Err? { return Some(work.error); }
      if First(plan, ItemActive).Some? { return Some(ItemIsActive); }
      var completed := WithStatus(plan, ItemCompleted);
      DeletePending();
      planVersion := planVersion + 1;
      var finalOrdinal := AddWorkItems(work.value, MaxOrdinal(completed) + 1);
      AddFinalItem(finalOrdinal);
      return None;
    }

    method RecordAnalysis(task: Task, f: Findings) returns (error: Option<Error>)
      modifies this`specs, this`currentSpecVersion, this`executionSpecVersion, this`executionDigest
      ensures Performed(EpicPlanning.Recorded(old(Row()), task, f), old(Row()), error, Row())
    {
      if currentSpecVersion !in specs { return Some(SpecMissing); }
      var content := BoundedText(if f.updatedSpec == "" then specs[currentSpecVersion] else f.updatedSpec,
          MAX_EPIC_SPEC_CHARS, true);
      if content.Err? { return Some(content.error); }
      var summary := BoundedText(f.summary, 12_000, true);
      if summary.Err? { return Some(summary.error); }
      error := WriteExecutionSpec(content.value);
      executionDigest := Accepted(task);
    }

    /** What `session_scope` does when the block raises. */
    method Rollback(before: Epic)
      modifies this
      ensures Row() == before
    {
      status, specs, currentSpecVersion := before.status, before.specs, before.current;
      approvedSpecVersion, executionSpecVersion := before.approved, before.execution;
      phase0TaskId, driftTaskId, executionDigest := before.phase0Task, before.driftTask, before.digest;
      planVersion, blockedReason, plan, driftLog := before.planVersion, before.reason, before.plan, before.driftLog;
    }

    method ReconcileComplete(tasks: seq<Task>, f: Findings) returns (error: Option<Error>)
      modifies this
      ensures Performed(EpicPlanning.Reconcile(old(Row()), tasks, f), old(Row()), error, Row())
    {
      hide EpicPlanning.ReplacePendingWork, EpicPlanning.Recorded;
      var before := Row();
      var isDrift := driftTaskId.Some?;
      var resolving := status.Blocked? && blockedReason.HumanDecision?;
      var task := TaskRow(tasks, if isDrift then driftTaskId else phase0TaskId);
      if task.None? || !task.value.status.TaskCompleted? { return Some(AnalysisNotCompleted); }
      if !isDrift && !status.Phase0? && !resolving { return Some(NotAwaitingPhase0); }
      error := RecordAnalysis(task.value, f);
      if error.Some? { return; }
      if f.decisions {
        status, blockedReason := Blocked, HumanDecision;
      } else if isDrift {
        if f.remaining.Some? {
          error := ReplacePendingWork(f.remaining.value);
          if error.Some? {
            Rollback(before);
            return;
          }
        }
        driftTaskId, status, blockedReason := None, Running, NoReason;
      } else {
        driftTaskId, status, blockedReason := None, Planning, NoReason;
      }
    }

    // Execution

    /** The first transaction of `start_next` up to `create_task`: checks only. */
    method BeginStart(tasks: seq<Task>, checked: Digest, other: Option<nat>) returns (r: Result<Assignment>)
      ensures r == EpicExecution.BeginStart(Row(), tasks, checked, other)
    {
      var open := OpenTask(tasks);
      if open.Some? { return Err(TaskIsOpen(open.value)); }
      if status.Approved? {
        if other.Some? { return Err(AnotherExecuting(other.value)); }
        return Ok(Phase0Columns(|tasks|));
      }
      if !(status.Running? || status.FinalReview?) { return Err(NotStartable); }
      if executionDigest != "" && checked != executionDigest { return Err(RepositoryChanged); }
      if driftTaskId.Some? { return Err(DriftTaskExists); }
      var pending := First(plan, ItemPending);
      if pending.None? { return Err(NothingPending); }
      var item := plan[pending.value];
      var next := if item.kind.Final? then FinalReview else Running;
      return Ok(ItemColumns(pending.value, item.planVersion, |tasks|, if next == status then None else Some(next)));
    }

    method BeginDrift(tasks: seq<Task>) returns (r: Result<Assignment>)
      ensures r == EpicExecution.BeginDrift(Row(), tasks)
    {
      if !(status.Blocked? && blockedReason.RepositoryDrift?) { return Err(NotAwaitingDrift); }
      var open := OpenTask(tasks);
      if open.Some? { return Err(TaskIsOpen(open.value)); }
      return Ok(DriftColumns(|tasks|));
    }

    /** The second commit of a start writes its columns into the row as it is by then. */
    method Land(a: Assignment)
      modifies this`status, this`phase0TaskId, this`driftTaskId, this`blockedReason, this`plan, this`driftLog
      ensures Row() == Landed(old(Row()), a)
    {
      match a {
        case Phase0Columns(t) =>
          phase0TaskId := Some(t);
          status := Phase0;
        case ItemColumns(i, version, t, next) =>
          if i < |plan| && plan[i].planVersion == version {
            plan := plan[i := plan[i].(task := Some(t), status := ItemActive)];
            if next.Some? { status := next.value; }
          }
        case DriftColumns(t) =>
          driftTaskId := Some(t);
          status := Running;
          blockedReason := NoReason;
          driftLog := driftLog + {t};
      }
    }

    method StartNext(tasks: seq<Task>, checked: Digest, captured: Digest, other: Option<nat>) returns (r: Result<Task>)
      modifies this`status, this`phase0TaskId, this`driftTaskId, this`blockedReason, this`plan, this`driftLog
      ensures Opened(EpicExecution.StartNext(old(Row()), tasks, checked, captured, other), old(Row()), r, Row())
    {
      hide EpicExecution.BeginStart, Landed;
      var a := BeginStart(tasks, checked, other);
      if a.Err? { return Err(a.error); }
      Land(a.value);
      return Ok(NewTask(captured));
    }

    method StartDriftReconciliation(tasks: seq<Task>, captured: Digest) returns (r: Result<Task>)
      modifies this`status, this`phase0TaskId, this`driftTaskId, this`blockedReason, this`plan, this`driftLog
      ensures Opened(EpicExecution.StartDrift(old(Row()), tasks, captured), old(Row()), r, Row())
    {
      hide EpicExecution.BeginDrift, Landed;
      var a := BeginDrift(tasks);
      if a.Err? { return Err(a.error); }
      Land(a.value);
      return Ok(NewTask(captured));
    }

    // Review

    method RecordInterveningReview(tasks: seq<Task>, repo: Digest, keys: seq<nat>, outcome: Outcome, affected: bool,
                                   texts: ReviewTexts)
      returns (error: Option<Error>)
      modifies this`status, this`executionDigest, this`blockedReason
      ensures Performed(EpicReview.RecordReview(old(Row()), tasks, repo, keys, outcome, affected, texts), old(Row()),
          error, Row())
    {
      hide Detect;
      if !(status.Blocked? && blockedReason.InterveningReview?) { return Some(NotAwaitingReview); }
      var detected := DetectInterveningTasks(Row(), tasks, repo);
      if detected.Unexplained? { return Some(NotExplained); }
      if keys != detected.tasks { return Some(TaskSetConflict); }
      if outcome.UnknownOutcome? { return Some(BadOutcome); }
      if outcome.Unaffected? && affected { return Some(UnaffectedWithItems); }
      var checked := CheckedReview(texts);
      if checked.Err? { return Some(checked.error); }
      if outcome.Unaffected? {
        executionDigest := repo;
        var pending := First(plan, ItemPending);
        status := if pending.Some? && plan[pending.value].kind.Final? then FinalReview else Running;
        blockedReason := NoReason;
      } else {
        status := Blocked;
        blockedReason := RepositoryDrift;
      }
      return None;
    }

    // Navigation

    method CompleteFinalItem(t: Task)
      modifies this`status, this`blockedReason, this`plan
      ensures Row() == CompleteFinal(old(Row()), t)
    {
      var docsReady, knowledgeReady, mapReady := DocsUpdated(t), KnowledgePublished(t), MapReconciled(t);
      if docsReady && knowledgeReady && mapReady {
        status := Completed;
        blockedReason := NoReason;
        return;
      }
      if docsReady && knowledgeReady && !mapReady {
        status := FinalReview;
        blockedReason := NoReason;
        return;
      }
      RetryFinalItem();
      status := FinalReview;
      blockedReason := NoReason;
    }

    method SyncActiveItem(tasks: seq<Task>) returns (state: Sync)
      modifies this`status, this`blockedReason, this`plan, this`executionDigest
      ensures Synced(Row(), state) == EpicNavigation.SyncActiveItem(old(Row()), tasks)
    {
      var active := First(plan, ItemActive);
      if active.None? { return NothingActive; }
      var i := active.value;
      var item := plan[i];
      var task := TaskRow(tasks, item.task);
      if task.None? {
        plan := plan[i := item.(status := ItemBlocked)];
        status, blockedReason := Blocked, TaskMissing;
        return ItemBlocks;
      }
      if IsOpen(task.value) { return ItemOpen(item.task.value); }
      if !task.value.status.TaskCompleted? {
        plan := plan[i := item.(status := ItemBlocked)];
        status, blockedReason := Blocked, TaskEnded;
        return ItemBlocks;
      }
      executionDigest := Accepted(task.value);
      if item.kind.Final? {
        CompleteFinalItem(task.value);
        if AwaitsMapOnly(task.value) { return AwaitsMap(item.task.value); }
      }
      plan := plan[i := item.(status := ItemCompleted)];
      return ItemDone;
    }

    method RunningNavigation(tasks: seq<Task>, repo: Digest) returns (action: Action)
      modifies this`status, this`blockedReason, this`plan, this`executionDigest
      ensures Navigated(Row(), action) == EpicNavigation.RunningNavigation(old(Row()), tasks, repo)
    {
      hide Settle, Detect, PendingNavigation, StandaloneOpen;
      var sync := SyncActiveItem(tasks);
      if sync.ItemOpen? { return ContinueTask(sync.task); }
      if sync.AwaitsMap? { return ReconcileProjectMap(sync.task); }
      if status.Completed? { return ArchiveEpic; }
      if status.Blocked? { return HumanAttention; }
      var standalone := StandaloneOpen(Row(), tasks);
      if standalone.Some? { return ContinueStandaloneTask(standalone.value); }
      var drift := DriftAction(Row(), tasks, repo);
      if drift.None? { return PendingNavigation(Row()); }
      status := Blocked;
      blockedReason := if drift.value.ReviewInterveningTasks? then InterveningReview else RepositoryDrift;
      return drift.value;
    }

    method DriftTaskNavigation(tasks: seq<Task>) returns (action: Action)
      modifies this`status, this`blockedReason
      ensures Navigated(Row(), action) == EpicNavigation.DriftTaskNavigation(old(Row()), tasks)
    {
      var task := TaskRow(tasks, driftTaskId);
      if task.None? {
        status, blockedReason := Blocked, TaskMissing;
        return HumanAttention;
      }
      if IsOpen(task.value) { return ContinueTask(driftTaskId.value); }
      if task.value.status.TaskCompleted? { return RecordDriftReconciliation; }
      status, blockedReason := Blocked, TaskEnded;
      return HumanAttention;
    }

    method NextAction(tasks: seq<Task>, repo: Digest) returns (action: Action)
      modifies this`status, this`blockedReason, this`plan, this`executionDigest
      ensures Navigated(Row(), action) == Navigate(old(Row()), tasks, repo)
    {
      hide EpicNavigation.RunningNavigation, EpicNavigation.DriftTaskNavigation, Phase0Navigation, ApprovedNavigation;
      if status.Draft? { return AuditReviseOrApprove; }
      if status.Approved? { return ApprovedNavigation(Row(), tasks); }
      if status.Phase0? { return Phase0Navigation(Row(), tasks); }
      if status.Planning? { return CreateTaskPlan; }
      if status.Blocked? && blockedReason.HumanDecision? { return ResolveDecision; }
      if status.Blocked? && blockedReason.InterveningReview? { return ReviewInterveningTasks; }
      if driftTaskId.Some? {
        action := DriftTaskNavigation(tasks);
        return;
      }
      if status.Running? || status.FinalReview? {
        action := RunningNavigation(tasks, repo);
        return;
      }
      if status.Blocked? && blockedReason.RepositoryDrift? { return Action.StartDriftReconciliation; }
      if status.Blocked? { return HumanAttention; }
      if status.Completed? { return ArchiveEpic; }
      return NoAction;
    }
  }
}
