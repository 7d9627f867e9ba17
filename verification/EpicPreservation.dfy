/** Every operation of the engine keeps `EpicOk`. */
module EpicPreservation {
  import opened Epics
  import opened Options
  import opened TaskBoundary
  import opened EpicLifecycle
  import opened EpicPlanning
  import opened EpicExecution
  import opened EpicReview
  import opened EpicNavigation
  import opened EpicInvariants
  import SpecEditor

  // Lifecycle

  lemma CreateKeeps(tasks: seq<Task>, title: string, spec: string)
    requires Create(title, spec).Ok?
    ensures EpicOk(tasks, Create(title, spec).value)
  {
  }

  lemma PersistKeeps(tasks: seq<Task>, e: Epic, content: string, note: Note)
    requires EpicOk(tasks, e) && Revisable(e) && PersistManualRevision(e, content, note).Ok?
    ensures EpicOk(tasks, PersistManualRevision(e, content, note).value)
  {
    hide BoundedText;
  }

  lemma ApproveKeeps(tasks: seq<Task>, e: Epic, quality: string -> bool)
    requires EpicOk(tasks, e) && Approve(e, quality).Ok?
    ensures EpicOk(tasks, Approve(e, quality).value)
  {
  }

  lemma ArchiveKeeps(tasks: seq<Task>, e: Epic)
    requires EpicOk(tasks, e) && Archive(e).Ok?
    ensures EpicOk(tasks, Archive(e).value)
  {
  }

  // Execution

  lemma TaskAppended(tasks: seq<Task>, e: Epic, repo: Digest)
    requires EpicOk(tasks, e)
    ensures EpicOk(tasks + [NewTask(repo)], e)
  {
    EpicIsKept(tasks, tasks + [NewTask(repo)], e);
  }

  lemma StartItemKeepsLinks(tasks: seq<Task>, e: Epic, repo: Digest, i: nat)
    requires LinksOk(tasks, e) && PlanOk(e.plan) && First(e.plan, ItemPending) == Some(i) && !BeforeExecution(e.status)
    requires e.reason.NoReason?
    ensures var plan' := e.plan[i := e.plan[i].(task := Some(|tasks|), status := ItemActive)];
            forall s: Status | s.Running? || s.FinalReview? ::
              LinksOk(tasks + [NewTask(repo)], e.(plan := plan', status := s))
  {
    var tasks' := tasks + [NewTask(repo)];
    var plan := e.plan[i := e.plan[i].(task := Some(|tasks|), status := ItemActive)];
    EarlierAreNot(e.plan, ItemPending, i);
    assert ItemPlaced(e.plan, 0);
    forall k | 0 <= k < |plan| ensures ItemLinked(tasks', plan[k]) {
      assert ItemLinked(tasks, e.plan[k]);
    }
    forall k: nat | i < k < |plan| ensures plan[k].task == None {
      assert Rank(e.plan[i].status) <= Rank(e.plan[k].status) && ItemPlaced(e.plan, k) && ItemLinked(tasks, e.plan[k]);
    }
    forall k: nat, l: nat | k < l < |plan| && plan[k].task.Some? && plan[l].task.Some?
      ensures plan[k].task.value < plan[l].task.value
    {
      assert ItemLinked(tasks, e.plan[k]);
    }
  }

  lemma StartNextKeeps(tasks: seq<Task>, e: Epic, checked: Digest, repo: Digest, other: Option<nat>)
    requires EpicOk(tasks, e) && StartNext(e, tasks, checked, repo, other).Ok?
    ensures EpicOk(tasks + [NewTask(repo)], StartNext(e, tasks, checked, repo, other).value.epic)
  {
    hide SpecsOk, PlanOk, DigestOk, Evidenced, LinksOk;
    TaskAppended(tasks, e, repo);
    if e.status.Approved? {
      Phase0Starts(tasks, e, repo);
    } else {
      var i := First(e.plan, ItemPending).value;
      StartItemKeepsLinks(tasks, e, repo, i);
      StartedPlanOk(e.plan, i, |tasks|);
      StartKeepsRest(tasks + [NewTask(repo)], e, StartNext(e, tasks, checked, repo, other).value.epic);
    }
  }

  lemma Phase0Starts(tasks: seq<Task>, e: Epic, repo: Digest)
    requires EpicOk(tasks, e) && e.status.Approved?
    ensures EpicOk(tasks + [NewTask(repo)], e.(phase0Task := Some(|tasks|), status := Phase0))
  {
    TaskAppended(tasks, e, repo);
  }

  lemma StartKeepsRest(tasks: seq<Task>, e: Epic, e': Epic)
    requires SpecsOk(e) && DigestOk(tasks, e) && InRun(e) && InRun(e')
    requires e' == e.(plan := e'.plan, status := e'.status)
    ensures SpecsOk(e') && DigestOk(tasks, e')
  {
  }

  lemma StartDriftKeeps(tasks: seq<Task>, e: Epic, repo: Digest)
    requires EpicOk(tasks, e) && StartDrift(e, tasks, repo).Ok?
    ensures EpicOk(tasks + [NewTask(repo)], StartDrift(e, tasks, repo).value.epic)
  {
    hide PlanOk, Evidenced, IsAccepted;
    TaskAppended(tasks, e, repo);
  }

  // Review

  lemma RecordReviewKeeps(tasks: seq<Task>, e: Epic, repo: Digest, keys: seq<nat>, outcome: Outcome, affected: bool,
                          texts: ReviewTexts)
    requires EpicOk(tasks, e) && RecordReview(e, tasks, repo, keys, outcome, affected, texts).Ok? && repo != ""
    ensures EpicOk(tasks, RecordReview(e, tasks, repo, keys, outcome, affected, texts).value)
  {
    hide PlanOk, Evidenced, IsAccepted, Detect, CheckedReview;
    ExplainedDigestIsAccepted(tasks, e, repo);
  }

  lemma ExplainedDigestIsAccepted(tasks: seq<Task>, e: Epic, repo: Digest)
    requires Detect(e, tasks, repo).Explained?
    ensures IsAccepted(tasks, repo)
  {
    var all := CompletedTasks(tasks);
    assert Accepted(tasks[all[|all| - 1]]) == repo;
  }

  // Planning

  lemma SetPlanKeeps(tasks: seq<Task>, e: Epic, items: seq<WorkText>)
    requires EpicOk(tasks, e) && SetPlan(e, items).Ok?
    ensures EpicOk(tasks, SetPlan(e, items).value)
  {
    hide Evidenced, IsAccepted, NormalizedWork, PlanOk;
    var work := NormalizedWork(items).value;
    var head := [PlanItem(0, Analysis, ItemCompleted, e.phase0Task, 1, PHASE0_TEXT)];
    TailPlanOk(head, work, 1);
    var e' := SetPlan(e, items).value;
    assert e'.plan == WithTail(head, work, 1);
    TailKeepsLinks(tasks, e, head, work, 1, e');
  }

  predicate HeadLinked(tasks: seq<Task>, e: Epic, head: seq<PlanItem>) {
    && head != [] && head[0].task == e.phase0Task
    && (forall i | 0 <= i < |head| :: ItemLinked(tasks, head[i]))
    && (forall i, j | 0 <= i < j < |head| && head[i].task.Some? && head[j].task.Some? ::
        head[i].task.value < head[j].task.value)
  }

  lemma TailKeepsLinks(tasks: seq<Task>, e: Epic, head: seq<PlanItem>, work: seq<WorkText>, version: nat, e': Epic)
    requires LinksOk(tasks, e) && HeadLinked(tasks, e, head) && !BeforeExecution(e.status)
    requires e' == e.(plan := WithTail(head, work, version), planVersion := version, status := Running,
        driftTask := e'.driftTask, reason := NoReason)
    requires e'.driftTask == None || e'.driftTask == e.driftTask
    ensures LinksOk(tasks, e')
  {
    hide WithTail;
    assert |e'.plan| == |head| + |work| + 1 by { TailLength(head, work, version); }
    forall k: nat | k < |e'.plan|
      ensures ItemLinked(tasks, e'.plan[k])
      ensures (k < |head| ==> e'.plan[k] == head[k]) && (k >= |head| ==> e'.plan[k].task == None)
    {
      TailItem(head, work, version, k);
    }
  }

  /** Recording an analysis changes the specification and the digest only. */
  lemma RecordedKeeps(tasks: seq<Task>, e: Epic, t: nat, f: Findings)
    requires SpecsOk(e) && t < |tasks| && tasks[t].status.TaskCompleted? && tasks[t].baseline != "" && !e.status.Draft?
    requires !e.status.Approved?
    requires Recorded(e, tasks[t], f).Ok?
    ensures var r := Recorded(e, tasks[t], f).value;
            && r == e.(specs := r.specs, current := r.current, execution := r.execution, digest := Accepted(tasks[t]))
            && r.digest != "" && IsAccepted(tasks, r.digest)
            && forall s: Status, d: Option<nat>, b: Reason | !BeforeExecution(s) ::
                SpecsOk(r.(status := s, driftTask := d, reason := b))
  {
    hide BoundedText;
  }

  lemma ReconcileKeeps(tasks: seq<Task>, e: Epic, f: Findings)
    requires EpicOk(tasks, e) && TasksOk(tasks) && Reconcile(e, tasks, f).Ok?
    ensures EpicOk(tasks, Reconcile(e, tasks, f).value)
  {
    hide SpecsOk, PlanOk, Evidenced, IsAccepted, Recorded, ReplacePendingWork;
    var t := AnalysisTask(e).value;
    RecordedKeeps(tasks, e, t, f);
    var r := Recorded(e, tasks[t], f).value;
    if e.driftTask.Some? && !f.decisions {
      DriftReconcileKeeps(tasks, e, r, f);
    }
  }

  /** Replanning is the completed head with a new tail. */
  lemma ReplacedIsTail(e: Epic, items: seq<WorkText>) returns (c: nat, work: seq<WorkText>)
    requires PlanOk(e.plan) && NoBlockedItem(e.plan) && e.plan != [] && ReplacePendingWork(e, items).Ok?
    ensures NormalizedWork(items) == Ok(work) && |work| >= 1 && 1 <= c <= |e.plan|
    ensures forall k: nat | k < c :: e.plan[k].status.ItemCompleted?
    ensures forall k: nat | c <= k < |e.plan| :: e.plan[k].status.ItemPending?
    ensures ReplacePendingWork(e, items).value == e.(planVersion := e.planVersion + 1,
        plan := WithTail(e.plan[..c], work, e.planVersion + 1))
    ensures PlanOk(WithTail(e.plan[..c], work, e.planVersion + 1))
    ensures NoBlockedItem(WithTail(e.plan[..c], work, e.planVersion + 1))
  {
    hide PlanOk, NoBlockedItem, NormalizedWork;
    work := NormalizedWork(items).value;
    c := ReplacedPlanOk(e.plan, work, e.planVersion + 1);
    assert |e.plan[..c]| == c;
  }

  lemma DriftReconcileKeeps(tasks: seq<Task>, e: Epic, r: Epic, f: Findings)
    requires EpicOk(tasks, e) && e.driftTask.Some? && IsCompletedTask(tasks, e.driftTask)
    requires r == e.(specs := r.specs, current := r.current, execution := r.execution, digest := r.digest)
    requires r.digest != "" && IsAccepted(tasks, r.digest)
    requires forall s: Status, d: Option<nat>, b: Reason | !BeforeExecution(s) ::
        SpecsOk(r.(status := s, driftTask := d, reason := b))
    requires f.remaining.Some? ==> ReplacePendingWork(r, f.remaining.value).Ok?
    ensures var planned := if f.remaining.Some? then ReplacePendingWork(r, f.remaining.value).value else r;
            EpicOk(tasks, planned.(driftTask := None, status := Running, reason := NoReason))
  {
    hide SpecsOk, PlanOk, Evidenced, IsAccepted, ReplacePendingWork, WithTail;
    if f.remaining.Some? {
      var c, work := ReplacedIsTail(r, f.remaining.value);
      var e' := ReplacePendingWork(r, f.remaining.value).value.(driftTask := None, status := Running,
          reason := NoReason);
      HeadKeepsLinks(tasks, e, c);
      TailKeepsLinks(tasks, r.(status := Running), e.plan[..c], work, e.planVersion + 1, e');
      SpecsOkOf(r, e');
      TailLength(e.plan[..c], work, e.planVersion + 1);
    } else {
      SpecsOkOf(r, r.(driftTask := None, status := Running, reason := NoReason));
    }
  }

  lemma SpecsOkOf(r: Epic, e: Epic)
    requires forall s: Status, d: Option<nat>, b: Reason | !BeforeExecution(s) ::
        SpecsOk(r.(status := s, driftTask := d, reason := b))
    requires e == r.(plan := e.plan, planVersion := e.planVersion, driftTask := e.driftTask, status := Running,
        reason := NoReason)
    ensures SpecsOk(e)
  {
    assert SpecsOk(r.(status := Running, driftTask := e.driftTask, reason := NoReason));
  }

  lemma HeadKeepsLinks(tasks: seq<Task>, e: Epic, c: nat)
    requires LinksOk(tasks, e) && 1 <= c <= |e.plan|
    ensures HeadLinked(tasks, e, e.plan[..c])
  {
    forall k | 0 <= k < c ensures ItemLinked(tasks, e.plan[..c][k]) {
      assert ItemLinked(tasks, e.plan[k]);
    }
  }

  // Navigation

  /** An item changes its status to one its Task supports. */
  lemma StatusKeepsLinks(tasks: seq<Task>, e: Epic, i: nat, status: ItemStatus, e': Epic)
    requires LinksOk(tasks, e) && InRun(e) && e.driftTask == None && i < |e.plan| && !e.plan[i].status.ItemPending?
    requires !status.ItemPending? && (status.ItemCompleted? ==> IsCompletedTask(tasks, e.plan[i].task))
    requires e' == e.(plan := e.plan[i := e.plan[i].(status := status)], status := e'.status, reason := e'.reason,
        digest := e'.digest)
    requires !BeforeExecution(e'.status)
    ensures LinksOk(tasks, e')
  {
    forall k | 0 <= k < |e'.plan| ensures ItemLinked(tasks, e'.plan[k]) {
      assert ItemLinked(tasks, e.plan[k]);
    }
  }

  lemma BlockKeeps(tasks: seq<Task>, e: Epic, i: nat)
    requires EpicOk(tasks, e) && InRun(e) && e.driftTask == None && First(e.plan, ItemActive) == Some(i)
    ensures EpicOk(tasks, WithItemStatus(e, i, ItemBlocked).(status := Blocked, reason := TaskEnded))
  {
    hide PlanOk, Evidenced, IsAccepted, LinksOk;
    var e' := WithItemStatus(e, i, ItemBlocked).(status := Blocked, reason := TaskEnded);
    BlockedPlanOk(e.plan, i);
    StatusKeepsLinks(tasks, e, i, ItemBlocked, e');
  }

  lemma CompleteKeeps(tasks: seq<Task>, e: Epic, i: nat, e': Epic)
    requires EpicOk(tasks, e) && InRun(e) && e.driftTask == None && First(e.plan, ItemActive) == Some(i)
    requires IsCompletedTask(tasks, e.plan[i].task) && e'.digest != "" && IsAccepted(tasks, e'.digest)
    requires e' == WithItemStatus(e, i, ItemCompleted).(status := e'.status, reason := NoReason, digest := e'.digest)
    requires e'.status == e.status
          || (e'.status.Completed? && e.plan[i].kind.Final? && Evidenced(tasks[e.plan[i].task.value]))
    ensures EpicOk(tasks, e')
  {
    hide PlanOk, Evidenced, IsAccepted, LinksOk;
    CompletedPlanOk(e.plan, i);
    StatusKeepsLinks(tasks, e, i, ItemCompleted, e');
    if e.plan[i].kind.Final? {
      ActiveFinalIsLast(e.plan, i);
    }
  }

  lemma RetryKeeps(tasks: seq<Task>, e: Epic, i: nat, digest: Digest)
    requires EpicOk(tasks, e) && InRun(e) && e.driftTask == None && First(e.plan, ItemActive) == Some(i)
    requires IsCompletedTask(tasks, e.plan[i].task) && digest != "" && IsAccepted(tasks, digest)
    requires e.plan[i].kind.Final?
    ensures var r := RetryFinalItem(e);
            EpicOk(tasks, r.(plan := r.plan[i := e.plan[i].(status := ItemCompleted)], status := FinalReview,
                reason := NoReason, digest := digest))
  {
    hide PlanOk, Evidenced, IsAccepted, LinksOk;
    RetriedPlanOk(e.plan, i, e.planVersion);
    var completed := WithItemStatus(e, i, ItemCompleted).(status := FinalReview, reason := NoReason, digest := digest);
    StatusKeepsLinks(tasks, e, i, ItemCompleted, completed);
    var last := FinalItem(MaxOrdinal(e.plan) + 1, e.planVersion);
    AppendKeepsLinks(tasks, completed, last);
    assert (e.plan + [last])[i := e.plan[i].(status := ItemCompleted)] == completed.plan + [last];
  }

  lemma AppendKeepsLinks(tasks: seq<Task>, e: Epic, item: PlanItem)
    requires LinksOk(tasks, e) && e.plan != [] && item.status.ItemPending? && item.task == None
    ensures LinksOk(tasks, e.(plan := e.plan + [item]))
  {
    forall k | 0 <= k < |e.plan| + 1 ensures ItemLinked(tasks, (e.plan + [item])[k]) {
      if k < |e.plan| { assert ItemLinked(tasks, e.plan[k]); }
    }
  }

  lemma ClosureIsEvidence(t: Task)
    requires DocsUpdated(t) && KnowledgePublished(t) && MapReconciled(t)
    ensures Evidenced(t)
  {
    assert t.knowledge[|t.knowledge| - 1] > 0 && t.maps[|t.maps| - 1] > 0;
  }

  lemma AcceptedIsReal(tasks: seq<Task>, t: Option<nat>)
    requires TasksOk(tasks) && IsCompletedTask(tasks, t)
    ensures Accepted(tasks[t.value]) != "" && IsAccepted(tasks, Accepted(tasks[t.value]))
  {
  }

  lemma SettleKeeps(tasks: seq<Task>, e: Epic, i: nat)
    requires EpicOk(tasks, e) && TasksOk(tasks) && InRun(e) && e.driftTask == None
    requires First(e.plan, ItemActive) == Some(i)
    ensures EpicOk(tasks, Settle(e, tasks, i).epic)
    ensures InRun(Settle(e, tasks, i).epic) || Settle(e, tasks, i).epic.status.Blocked?
        || Settle(e, tasks, i).epic.status.Completed?
    ensures Settle(e, tasks, i).epic.driftTask == None
  {
    hide SpecsOk, PlanOk, Evidenced, IsAccepted, Accepted, DocsUpdated, KnowledgePublished, MapReconciled, First,
        RetryFinalItem;
    var item := e.plan[i];
    assert ItemLinked(tasks, item);
    var task := tasks[item.task.value];
    if IsOpen(task) {
    } else if !task.status.TaskCompleted? {
      BlockKeeps(tasks, e, i);
    } else {
      AcceptedIsReal(tasks, item.task);
      SettleCompletedKeeps(tasks, e, i);
    }
  }

  lemma SettleCompletedKeeps(tasks: seq<Task>, e: Epic, i: nat)
    requires EpicOk(tasks, e) && InRun(e) && e.driftTask == None && First(e.plan, ItemActive) == Some(i)
    requires IsCompletedTask(tasks, e.plan[i].task) && Accepted(tasks[e.plan[i].task.value]) != ""
    requires IsAccepted(tasks, Accepted(tasks[e.plan[i].task.value]))
    ensures EpicOk(tasks, Settle(e, tasks, i).epic) && Settle(e, tasks, i).epic.driftTask == None
    ensures InRun(Settle(e, tasks, i).epic) || Settle(e, tasks, i).epic.status.Completed?
  {
    hide EpicOk, Evidenced, IsAccepted, Accepted, DocsUpdated, KnowledgePublished, MapReconciled, First;
    var item := e.plan[i];
    var task := tasks[item.task.value];
    if !item.kind.Final? {
      NoReasonInRun(tasks, e);
      CompleteKeeps(tasks, e, i, Settle(e, tasks, i).epic);
    } else if AwaitsMapOnly(task) {
      WaitKeeps(tasks, e, Accepted(task));
    } else if DocsUpdated(task) && KnowledgePublished(task) {
      ClosureIsEvidence(task);
      CompleteKeeps(tasks, e, i, Settle(e, tasks, i).epic);
    } else {
      RetryKeeps(tasks, e, i, Accepted(task));
    }
  }

  lemma NoReasonInRun(tasks: seq<Task>, e: Epic)
    requires EpicOk(tasks, e) && InRun(e)
    ensures e.reason.NoReason?
  {
  }

  lemma WaitKeeps(tasks: seq<Task>, e: Epic, digest: Digest)
    requires EpicOk(tasks, e) && InRun(e) && e.driftTask == None && digest != "" && IsAccepted(tasks, digest)
    ensures EpicOk(tasks, e.(status := FinalReview, reason := NoReason, digest := digest))
  {
    hide PlanOk, Evidenced, IsAccepted;
  }

  lemma BlockOnDriftKeeps(tasks: seq<Task>, e: Epic, reason: Reason)
    requires EpicOk(tasks, e) && InRun(e) && e.driftTask == None
    requires reason.InterveningReview? || reason.RepositoryDrift?
    ensures EpicOk(tasks, e.(status := Blocked, reason := reason))
  {
    hide PlanOk, Evidenced, IsAccepted;
  }

  lemma RunningNavigationKeeps(tasks: seq<Task>, e: Epic, repo: Digest)
    requires EpicOk(tasks, e) && TasksOk(tasks) && InRun(e) && e.driftTask == None
    ensures EpicOk(tasks, RunningNavigation(e, tasks, repo).epic)
  {
    hide EpicOk, Settle, Detect, First, StandaloneOpen, PendingNavigation;
    var active := First(e.plan, ItemActive);
    if active.Some? {
      SettleKeeps(tasks, e, active.value);
    }
    var s := SyncActiveItem(e, tasks).epic;
    if InRun(s) {
      BlockOnDriftKeeps(tasks, s, InterveningReview);
      BlockOnDriftKeeps(tasks, s, RepositoryDrift);
    }
  }

  lemma DriftNavigationKeeps(tasks: seq<Task>, e: Epic)
    requires EpicOk(tasks, e) && e.driftTask.Some? && (e.status.Running? || (e.status.Blocked? && e.reason.TaskEnded?))
    ensures EpicOk(tasks, DriftTaskNavigation(e, tasks).epic)
  {
    hide PlanOk, Evidenced, IsAccepted;
  }

  lemma NavigateKeeps(tasks: seq<Task>, e: Epic, repo: Digest)
    requires EpicOk(tasks, e) && TasksOk(tasks)
    ensures EpicOk(tasks, Navigate(e, tasks, repo).epic)
  {
    hide SpecsOk, PlanOk, LinksOk, DigestOk, DoneOk, RunningNavigation, DriftTaskNavigation, Phase0Navigation,
        ApprovedNavigation;
    if InRun(e) && e.driftTask == None {
      RunningNavigationKeeps(tasks, e, repo);
    } else if e.driftTask.Some? && (e.status.Running? || (e.status.Blocked? && e.reason.TaskEnded?)) {
      DriftNavigationKeeps(tasks, e);
    }
  }
}
