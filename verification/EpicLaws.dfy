/** What the engine's operations do to an Epic, told by its columns, its Tasks and the caller's texts. */
module EpicLaws {
  import opened Epics
  import opened Options
  import opened Text
  import opened TaskBoundary
  import opened EpicLifecycle
  import opened EpicPlanning
  import opened EpicExecution
  import opened EpicReview
  import opened EpicNavigation
  import opened EpicInvariants
  import opened EpicPreservation
  import opened EpicRuns
  import opened EpicTheorems
  import SpecEditor

  // Texts

  /** A trimmed text of a length from 1 (or 0) to `max`. */
  predicate Admissible(s: string, max: nat, required: bool) { (required ==> Strip(s) != "") && |Strip(s)| <= max }

  lemma TextsAreTrimmed(s: string, max: nat, required: bool)
    ensures BoundedText(s, max, required).Ok? <==> Admissible(s, max, required)
    ensures BoundedText(s, max, required).Ok? ==> BoundedText(s, max, required).value == Strip(s)
  {
  }

  // Specifications

  /** A new Epic is a draft whose only version is the trimmed text, with no plan, no Task and no boundary; titles
      have 1 to 240 characters and specifications 1 to 120 000. */
  lemma CreatedIff(title: string, spec: string)
    ensures Create(title, spec).Ok? <==> Admissible(title, 240, true) && Admissible(spec, 120_000, true)
    ensures Create(title, spec).Ok? ==>
              var e := Create(title, spec).value;
              && e.status.Draft? && e.reason.NoReason? && e.current == 1 && e.specs == map[1 := Strip(spec)]
              && e.approved == e.execution == e.phase0Task == e.driftTask == None
              && e.digest == "" && e.planVersion == 0 && e.plan == [] && e.driftLog == {}
  {
  }

  /** The Epic as a draft again, with the text as its next version. */
  function NextVersion(e: Epic, content: string): Epic {
    e.(specs := e.specs[e.current + 1 := content], current := e.current + 1, status := Draft, reason := NoReason,
       approved := None, execution := None)
  }

  /** A revision is accepted in draft and approved only. A text that is the current one when trimmed changes
      nothing; another becomes the next version of a draft that is approved no more, and needs a summary. */
  lemma RevisedIff(e: Epic, spec: string, note: Note)
    requires SpecsOk(e)
    ensures ReviseSpec(e, spec, note).Ok?
       <==> (e.status.Draft? || e.status.Approved?) && Admissible(spec, 120_000, true)
            && (Strip(spec) == e.specs[e.current]
                || (Admissible(note.changeSummary, 4_000, true) && Admissible(note.rationale, 8_000, false)))
    ensures ReviseSpec(e, spec, note).Ok? ==>
              var r := ReviseSpec(e, spec, note).value;
              && (Strip(spec) == e.specs[e.current] ==> r == e)
              && (Strip(spec) != e.specs[e.current] ==>
                    r == NextVersion(e, Strip(spec)))
  {
    hide Strip;
  }

  /** An edit is accepted in draft and approved only, of the current version under its number, when the edits
      apply and come to an admissible text; then it is a revision by that text. */
  lemma EditedIff(e: Epic, expected: int, edits: seq<SpecEditor.Edit>, note: Note)
    requires SpecsOk(e)
    ensures var r, edited := EditSpec(e, expected, edits, note), SpecEditor.Edited(e.specs[e.current], edits);
            && (r == Err(BadVersion) <==> (e.status.Draft? || e.status.Approved?) && expected <= 0)
            && (r == Err(VersionConflict)
                <==> (e.status.Draft? || e.status.Approved?) && expected > 0 && expected != e.current)
            && (r.Ok? <==>
                  && (e.status.Draft? || e.status.Approved?) && expected == e.current
                  && edited.Ok? && Admissible(edited.value, 120_000, true)
                  && (Strip(edited.value) == e.specs[e.current]
                      || (Admissible(note.changeSummary, 4_000, true) && Admissible(note.rationale, 8_000, false))))
            && (r.Ok? ==>
                  r.value == if Strip(edited.value) == e.specs[e.current] then e
                             else NextVersion(e, Strip(edited.value)))
  {
    hide Strip;
  }

  /** Approval takes a draft whose current text passes the quality gate, and approves that version. */
  lemma ApprovedIff(e: Epic, quality: string -> bool)
    requires SpecsOk(e)
    ensures Approve(e, quality).Ok? <==> e.status.Draft? && quality(e.specs[e.current])
    ensures e.status.Draft? && !quality(e.specs[e.current]) ==> Approve(e, quality) == Err(QualityGate)
    ensures Approve(e, quality).Ok? ==>
              Approve(e, quality).value == e.(status := Approved, approved := Some(e.current))
  {
  }

  /** Only a completed Epic is archived, and nothing else about it changes. */
  lemma ArchivedIff(e: Epic)
    ensures Archive(e).Ok? <==> e.status.Completed?
    ensures Archive(e).Ok? ==> Archive(e).value == e.(status := Archived)
  {
  }

  // Plans

  predicate AdmissibleWork(items: seq<WorkText>) {
    && 1 <= |items| <= 58
    && forall i | 0 <= i < |items| :: Admissible(items[i].title, 240, true) && Admissible(items[i].goal, 8_000, true)
  }

  predicate IsTrimmed(work: seq<WorkText>, items: seq<WorkText>) {
    && |work| == |items|
    && forall i | 0 <= i < |work| :: work[i] == WorkText(Strip(items[i].title), Strip(items[i].goal))
  }

  lemma {:induction false} TextsIff(items: seq<WorkText>)
    ensures NormalizedTexts(items).Ok?
       <==> forall i | 0 <= i < |items| ::
              Admissible(items[i].title, 240, true) && Admissible(items[i].goal, 8_000, true)
    ensures NormalizedTexts(items).Ok? ==> IsTrimmed(NormalizedTexts(items).value, items)
    decreases |items|
  {
    hide Strip;
    if items != [] {
      TextsIff(items[..|items| - 1]);
      TextsAreTrimmed(items[|items| - 1].title, 240, true);
      TextsAreTrimmed(items[|items| - 1].goal, 8_000, true);
    }
  }

  lemma WorkIff(items: seq<WorkText>)
    ensures NormalizedWork(items).Ok? <==> AdmissibleWork(items)
    ensures NormalizedWork(items).Ok? ==> IsTrimmed(NormalizedWork(items).value, items)
  {
    TextsIff(items);
  }

  /** The rows of a plan behind the given head: the given texts, trimmed, title to title and goal to goal, then
      the closure; all pending, without a Task, of one version, with the ordinals that follow. */
  predicate PlannedBehind(head: seq<PlanItem>, items: seq<WorkText>, version: nat, plan: seq<PlanItem>) {
    && |plan| == |head| + |items| + 1 && plan[..|head|] == head
    && (forall i | 0 <= i < |items| ::
          plan[|head| + i] == PlanItem(|head| + i, Work, ItemPending, None, version,
                                       WorkText(Strip(items[i].title), Strip(items[i].goal))))
    && plan[|plan| - 1] == PlanItem(|plan| - 1, Final, ItemPending, None, version, FINAL_TEXT)
  }

  /** A plan is accepted exactly in planning, with an execution version, when there is none yet and the texts
      are admissible; then it is the finished analysis followed by what was given, and the Epic runs. */
  lemma PlannedIff(e: Epic, items: seq<WorkText>)
    ensures SetPlan(e, items).Ok?
       <==> e.status.Planning? && e.execution.Some? && e.plan == [] && AdmissibleWork(items)
    ensures SetPlan(e, items).Ok? ==>
              var r := SetPlan(e, items).value;
              && r == e.(status := Running, planVersion := 1, plan := r.plan)
              && PlannedBehind([PlanItem(0, Analysis, ItemCompleted, e.phase0Task, 1, PHASE0_TEXT)], items, 1, r.plan)
  {
    hide NormalizedWork, Strip;
    WorkIff(items);
  }

  /** Replanning without an active item keeps the completed head and puts what was given behind it. */
  lemma ReplannedBehind(e: Epic, items: seq<WorkText>) returns (c: nat)
    requires PlanOk(e.plan) && NoBlockedItem(e.plan) && e.plan != [] && ReplacePendingWork(e, items).Ok?
    ensures AdmissibleWork(items) && 1 <= c <= |e.plan|
    ensures forall i | 0 <= i < |e.plan| :: e.plan[i].status.ItemCompleted? <==> i < c
    ensures var r := ReplacePendingWork(e, items).value;
            && r == e.(planVersion := e.planVersion + 1, plan := r.plan)
            && PlannedBehind(e.plan[..c], items, e.planVersion + 1, r.plan)
  {
    hide PlanOk, NormalizedWork, Strip;
    WorkIff(items);
    var n, work := ReplacedIsTail(e, items);
    c := n;
  }

  // Analyses

  /** The text a reconciliation is to record: the caller's, or the current one if the caller gives none. */
  function FoundText(e: Epic, f: Findings): string
    requires e.current in e.specs
  {
    if f.updatedSpec == "" then e.specs[e.current] else f.updatedSpec
  }

  /** A recorded analysis stores its text, trimmed, as the current version, which becomes the execution version;
      only a text that differs makes a new one. The boundary is where the analysis Task was accepted. The Epic
      is blocked for a decision exactly when the analysis left one; otherwise Phase 0 goes on to planning, and a
      drift reconciliation back to running, with a new plan exactly when one was given. */
  lemma ReconciledStores(e: Epic, tasks: seq<Task>, f: Findings)
    requires e.current in e.specs && Reconcile(e, tasks, f).Ok?
    ensures var r, t := Reconcile(e, tasks, f).value, if e.driftTask.Some? then e.driftTask else e.phase0Task;
            && t.Some? && t.value < |tasks| && tasks[t.value].status.TaskCompleted?
            && r.digest == Accepted(tasks[t.value])
            && r.execution == Some(r.current) && r.current in r.specs && r.specs[r.current] == Strip(FoundText(e, f))
            && (if Strip(FoundText(e, f)) == e.specs[e.current] then r.current == e.current && r.specs == e.specs
                else r.current == e.current + 1 && r.specs == e.specs[r.current := r.specs[r.current]])
            && (if f.decisions then r.status.Blocked? && r.reason.HumanDecision? && r.driftTask == e.driftTask
                else if e.driftTask.Some? then r.status.Running? && r.reason.NoReason? && r.driftTask == None
                else r.status.Planning? && r.reason.NoReason? && r.driftTask == None)
            && r.phase0Task == e.phase0Task && r.approved == e.approved && r.driftLog == e.driftLog
            && (f.decisions || e.driftTask == None || f.remaining == None ==>
                  r.plan == e.plan && r.planVersion == e.planVersion)
            && (!f.decisions && e.driftTask.Some? && f.remaining.Some? ==> r.planVersion == e.planVersion + 1)
  {
    hide Accepted, Strip, NormalizedWork, MaxOrdinal, WithStatus, WithoutPending, WorkItems, First;
  }

  /** It is accepted exactly when the Task is completed, the Epic waits for its analysis, and the texts are
      admissible, those of a new plan included where one is needed. */
  lemma ReconciledIff(e: Epic, tasks: seq<Task>, f: Findings)
    requires e.current in e.specs
    ensures var t := if e.driftTask.Some? then e.driftTask else e.phase0Task;
            && (Reconcile(e, tasks, f) == Err(AnalysisNotCompleted)
                <==> t.None? || t.value >= |tasks| || !tasks[t.value].status.TaskCompleted?)
            && (Reconcile(e, tasks, f).Ok?
                <==> && t.Some? && t.value < |tasks| && tasks[t.value].status.TaskCompleted?
                     && (e.driftTask.Some? || e.status.Phase0? || (e.status.Blocked? && e.reason.HumanDecision?))
                     && Admissible(FoundText(e, f), 120_000, true) && Admissible(f.summary, 12_000, true)
                     && (!f.decisions && e.driftTask.Some? && f.remaining.Some? ==>
                           && AdmissibleWork(f.remaining.value)
                           && forall i | 0 <= i < |e.plan| :: !e.plan[i].status.ItemActive?))
  {
    hide Accepted, Strip, NormalizedWork, MaxOrdinal, WithStatus, WithoutPending, WorkItems, First, AdmissibleWork;
    NoSuchTextError(e, f);
    if f.remaining.Some? { WorkIff(f.remaining.value); }
  }

  lemma NoSuchTextError(e: Epic, f: Findings)
    ensures f.remaining.Some? ==>
              var r := NormalizedWork(f.remaining.value); r.Err? ==> !r.error.AnalysisNotCompleted?
  {
    if f.remaining.Some? { TextErrors(f.remaining.value); }
  }

  lemma {:induction false} TextErrors(items: seq<WorkText>)
    ensures NormalizedTexts(items).Err? ==> !NormalizedTexts(items).error.AnalysisNotCompleted?
    decreases |items|
  {
    if items != [] { TextErrors(items[..|items| - 1]); }
  }

  // Starts

  predicate NextPending(plan: seq<PlanItem>, i: nat) {
    i < |plan| && plan[i].status.ItemPending? && forall j | 0 <= j < i :: !plan[j].status.ItemPending?
  }

  lemma NextPendingIsFirst(plan: seq<PlanItem>, i: nat)
    requires PlanOk(plan)
    ensures NextPending(plan, i) <==> First(plan, ItemPending) == Some(i)
  {
    var first := First(plan, ItemPending);
    if first.Some? {
      assert ItemPlaced(plan, first.value);
      forall j: nat | j < |plan| && plan[j].status.ItemPending? ensures first.value <= j {
        assert ItemPlaced(plan, j);
      }
    }
  }

  /** A start is accepted exactly when no Task is open and either the Epic is approved and no other executes, or
      it runs at its boundary, is not being reconciled and has a pending item. Phase 0 then begins with the new
      Task, or the next pending item does, and the Epic is in final review exactly if that is the closure. */
  lemma StartedIff(e: Epic, tasks: seq<Task>, checked: Digest, captured: Digest, other: Option<nat>)
    requires PlanOk(e.plan) && (forall j | 0 <= j < |e.plan| && e.plan[j].status.ItemPending? :: e.plan[j].task == None)
    ensures var s := StartNext(e, tasks, checked, captured, other);
            && (s.Ok? <==>
                  && (forall t | 0 <= t < |tasks| :: !tasks[t].status.TaskActive? && !tasks[t].status.TaskBlocked?)
                  && ((e.status.Approved? && other == None)
                      || ((e.status.Running? || e.status.FinalReview?) && (e.digest == "" || checked == e.digest)
                          && e.driftTask == None && exists i: nat :: NextPending(e.plan, i))))
            && (s.Ok? ==>
                  && s.value.task == Task(TaskActive, captured, [], [], [], [])
                  && (e.status.Approved? ==>
                        s.value.epic == e.(phase0Task := Some(|tasks|), status := Phase0))
                  && (!e.status.Approved? ==>
                        exists i: nat :: NextPending(e.plan, i) && StartsItem(e, i, |tasks|, s.value.epic)))
  {
    var pending := First(e.plan, ItemPending);
    if pending.Some? {
      NextPendingIsFirst(e.plan, pending.value);
      var item := e.plan[pending.value];
    } else {
      forall i: nat ensures !NextPending(e.plan, i) { NextPendingIsFirst(e.plan, i); }
    }
  }

  predicate StartsItem(e: Epic, i: nat, t: nat, e': Epic)
    requires i < |e.plan|
  {
    && e' == e.(status := e'.status, plan := e.plan[i := e.plan[i].(task := Some(t), status := ItemActive)])
    && e'.status == if e.plan[i].kind.Final? then FinalReview else Running
  }

  /** A drift reconciliation starts exactly for an Epic blocked for drift while no Task is open. The new Task is
      then its drift Task, and it runs again. */
  lemma DriftStartedIff(e: Epic, tasks: seq<Task>, captured: Digest)
    ensures var s := StartDrift(e, tasks, captured);
            && (s.Ok? <==>
                  && e.status.Blocked? && e.reason.RepositoryDrift?
                  && forall t | 0 <= t < |tasks| :: !tasks[t].status.TaskActive? && !tasks[t].status.TaskBlocked?)
            && (s.Ok? ==>
                  && s.value.task == Task(TaskActive, captured, [], [], [], [])
                  && s.value.epic == e.(driftTask := Some(|tasks|), status := Running, reason := NoReason,
                                        driftLog := e.driftLog + {|tasks|}))
  {
  }

  // Reviews

  /** A review is accepted exactly when the Epic waits for one, the Tasks reviewed are those that explain the
      repository now, the outcome is one of the two, nothing is affected if it says so, and the texts are
      admissible. */
  lemma ReviewedIff(e: Epic, tasks: seq<Task>, repo: Digest, keys: seq<nat>, outcome: Outcome, affected: bool,
                    texts: ReviewTexts)
    ensures RecordReview(e, tasks, repo, keys, outcome, affected, texts).Ok?
       <==> && e.status.Blocked? && e.reason.InterveningReview? && Detect(e, tasks, repo) == Explained(keys)
            && ((outcome.Unaffected? && !affected) || outcome.ReconciliationRequired?)
            && Admissible(texts.summary, 12_000, true) && Admissible(texts.rationale, 8_000, false)
            && Admissible(texts.auditor, 128, false)
  {
    hide Detect, Strip;
  }

  /** An accepted review that finds the Epic unaffected takes the repository as the new boundary, and the Epic
      runs on, in final review exactly if its next pending item is the closure. Nothing else changes. */
  lemma UnaffectedAcceptsTheRepository(e: Epic, tasks: seq<Task>, repo: Digest, keys: seq<nat>, affected: bool,
                                       texts: ReviewTexts)
    requires PlanOk(e.plan) && RecordReview(e, tasks, repo, keys, Unaffected, affected, texts).Ok?
    ensures var r := RecordReview(e, tasks, repo, keys, Unaffected, affected, texts).value;
            && r.digest == repo && r.reason.NoReason? && (r.status.FinalReview? || r.status.Running?)
            && (r.status.FinalReview? <==> exists i: nat :: NextPending(e.plan, i) && e.plan[i].kind.Final?)
            && r == e.(digest := r.digest, reason := r.reason, status := r.status) && !affected
  {
    hide Detect, CheckedReview;
    var pending := First(e.plan, ItemPending);
    if pending.Some? { NextPendingIsFirst(e.plan, pending.value); }
    forall i: nat | NextPending(e.plan, i) ensures pending == Some(i) { NextPendingIsFirst(e.plan, i); }
  }

  /** One that asks for a reconciliation leaves the boundary, and blocks the Epic for drift. */
  lemma ReconciliationRequiredBlocks(e: Epic, tasks: seq<Task>, repo: Digest, keys: seq<nat>, affected: bool,
                                     texts: ReviewTexts)
    requires RecordReview(e, tasks, repo, keys, ReconciliationRequired, affected, texts).Ok?
    ensures RecordReview(e, tasks, repo, keys, ReconciliationRequired, affected, texts).value
         == e.(status := Blocked, reason := RepositoryDrift)
  {
    hide Detect, CheckedReview;
  }

  /** Blocked for drift, or being reconciled. */
  predicate DriftPending(e: Epic) { (e.status.Blocked? && e.reason.RepositoryDrift?) || e.driftTask.Some? }

  lemma DriftPendingKeptByCall(q: Quality, p: Project, k: nat, call: Call)
    requires ProjectOk(p) && k < |p.epics| && DriftPending(p.epics[k]) && !call.CallReconcile?
    requires Perform(q, p, k, call).Ok?
    ensures DriftPending(Perform(q, p, k, call).value.epic) && !call.CallStartNext?
  {
    hide SpecsOk, PlanOk, LinksOk, DigestOk, DoneOk, TasksOk, BoundedText, EditedContent, Detect, CheckedReview,
        NormalizedWork, First;
    assert EpicOk(p.tasks, p.epics[k]);
  }

  lemma DriftPendingKeptByNavigator(e: Epic, tasks: seq<Task>, repo: Digest)
    requires EpicOk(tasks, e) && DriftPending(e)
    ensures DriftPending(Navigate(e, tasks, repo).epic)
  {
    hide SpecsOk, PlanOk, LinksOk, DigestOk, DoneOk, RunningNavigation, Phase0Navigation, ApprovedNavigation;
  }

  lemma DriftPendingKept(q: Quality, p: Project, k: nat, step: Step)
    requires ProjectOk(p) && k < |p.epics| && DriftPending(p.epics[k])
    requires !(step.OnEpic? && step.k == k && step.call.CallReconcile?)
    ensures k < |Next(q, p, step).epics| && DriftPending(Next(q, p, step).epics[k])
  {
    hide EpicOk, TasksOk, Perform, Navigate, ResolveEpicForNext, DriftPending;
    if step.OnEpic? && step.k == k && Perform(q, p, k, step.call).Ok? {
      DriftPendingKeptByCall(q, p, k, step.call);
    } else if step.NextAction? {
      DriftPendingKeptByNavigator(p.epics[k], p.tasks, p.repo);
    }
  }

  /** Whatever happens until a reconciliation is recorded for it, no item of an Epic with a pending drift starts. */
  lemma {:induction false} NoItemStartsBeforeReconciliation(q: Quality, p: Project, k: nat, steps: seq<Step>)
    requires ProjectOk(p) && k < |p.epics| && DriftPending(p.epics[k])
    requires forall i | 0 <= i < |steps| :: !(steps[i].OnEpic? && steps[i].k == k && steps[i].call.CallReconcile?)
    ensures var p' := Run(q, p, steps);
            && k < |p'.epics| && DriftPending(p'.epics[k])
            && forall moved :: Perform(q, p', k, CallStartNext(moved)).Err?
    decreases |steps|
  {
    hide Next, ProjectOk, DriftPending;
    if steps != [] {
      DriftPendingKept(q, p, k, steps[0]);
      StepKeeps(q, p, steps[0]);
      NoItemStartsBeforeReconciliation(q, Next(q, p, steps[0]), k, steps[1..]);
    } else {
      forall moved ensures Perform(q, p, k, CallStartNext(moved)).Err? {
        if Perform(q, p, k, CallStartNext(moved)).Ok? { DriftPendingKeptByCall(q, p, k, CallStartNext(moved)); }
      }
    }
  }

  /** In particular after a review that asked for it. */
  lemma RequiredReconciliationComesFirst(q: Quality, p: Project, k: nat, keys: seq<nat>, affected: bool,
                                         texts: ReviewTexts, steps: seq<Step>)
    requires ProjectOk(p) && k < |p.epics|
    requires Perform(q, p, k, CallRecordReview(keys, ReconciliationRequired, affected, texts)).Ok?
    requires forall i | 0 <= i < |steps| :: !(steps[i].OnEpic? && steps[i].k == k && steps[i].call.CallReconcile?)
    ensures var review := OnEpic(k, CallRecordReview(keys, ReconciliationRequired, affected, texts));
            var p' := Run(q, Next(q, p, review), steps);
            k < |p'.epics| && forall moved :: Perform(q, p', k, CallStartNext(moved)).Err?
  {
    hide ProjectOk, RecordReview, Run;
    var review := CallRecordReview(keys, ReconciliationRequired, affected, texts);
    ReconciliationRequiredBlocks(p.epics[k], p.tasks, p.repo, keys, affected, texts);
    StepKeeps(q, p, OnEpic(k, review));
    NoItemStartsBeforeReconciliation(q, Next(q, p, OnEpic(k, review)), k, steps);
  }

  // Closure

  /** Evidence of a closure's Task: a document among its changes, a last publication of something, a last check
      of the map with some scope. */
  predicate ChangedADocument(t: Task) {
    exists i | 0 <= i < |t.changed| ::
      || t.changed[i] == "README.md" || t.changed[i] == "ARCHITECTURE.md" || t.changed[i] == "CURRENT_STATE.md"
      || t.changed[i] == "CHANGELOG.md" || t.changed[i] == "ROADMAP.md"
      || (|t.changed[i]| >= 5 && t.changed[i][..5] == "docs/")
  }

  predicate PublishedLast(t: Task) { |t.knowledge| > 0 && t.knowledge[|t.knowledge| - 1] > 0 }

  predicate MappedLast(t: Task) { |t.maps| > 0 && t.maps[|t.maps| - 1] > 0 }

  lemma EvidenceIs(t: Task)
    ensures DocsUpdated(t) <==> ChangedADocument(t)
    ensures KnowledgePublished(t) <==> PublishedLast(t)
    ensures MapReconciled(t) <==> MappedLast(t)
  {
    forall i | 0 <= i < |t.changed|
      ensures "docs/" <= t.changed[i] <==> |t.changed[i]| >= 5 && t.changed[i][..5] == "docs/"
    {
    }
  }

  /** Asked about a closure whose Task is completed, the navigator completes the Epic if and only if the Task
      changed a document, last published something and last mapped something. Lacking only the map it waits for
      it, and lacking more it has the closure done again by a further item. The boundary is where the Task was
      accepted in any case. */
  lemma ClosedIff(e: Epic, tasks: seq<Task>, repo: Digest, i: nat)
    requires (e.status.Running? || e.status.FinalReview?) && e.driftTask == None
    requires i < |e.plan| && e.plan[i].kind.Final? && e.plan[i].status.ItemActive?
    requires forall j | 0 <= j < |e.plan| && j != i :: !e.plan[j].status.ItemActive?
    requires e.plan[i].task.Some? && e.plan[i].task.value < |tasks|
    requires tasks[e.plan[i].task.value].status.TaskCompleted?
    ensures var r, t := Navigate(e, tasks, repo), tasks[e.plan[i].task.value];
            && (r.epic.status.Completed? <==> ChangedADocument(t) && PublishedLast(t) && MappedLast(t))
            && r.epic.digest == Accepted(t)
            && (r.epic.status.Completed? ==>
                  && r.action.ArchiveEpic? && r.epic.reason.NoReason?
                  && r.epic.plan == e.plan[i := e.plan[i].(status := ItemCompleted)])
            && (ChangedADocument(t) && PublishedLast(t) && !MappedLast(t) ==>
                  && r.action == ReconcileProjectMap(e.plan[i].task.value)
                  && r.epic == e.(status := FinalReview, reason := NoReason, digest := Accepted(t)))
            && (!ChangedADocument(t) || !PublishedLast(t) ==>
                  && |r.epic.plan| == |e.plan| + 1
                  && ((r.epic.status.FinalReview? && r.epic.reason.NoReason?)
                      || (r.epic.status.Blocked?
                          && (r.epic.reason.InterveningReview? || r.epic.reason.RepositoryDrift?)))
                  && r.epic.plan[..|e.plan|] == e.plan[i := e.plan[i].(status := ItemCompleted)]
                  && r.epic.plan[|e.plan|] == PlanItem(MaxOrdinal(e.plan) + 1, Final, ItemPending, None, e.planVersion,
                                                       FINAL_TEXT))
  {
    hide Accepted, DocsUpdated, KnowledgePublished, MapReconciled, MaxOrdinal, ChangedADocument, PublishedLast,
        MappedLast, StandaloneOpen, DriftAction, PendingNavigation;
    EvidenceIs(tasks[e.plan[i].task.value]);
    assert First(e.plan, ItemActive) == Some(i);
  }

  // Settling and naming

  /** A work item is settled by its Task: completed with it, with the boundary where it was accepted, or blocked
      with the Epic when it is gone or ended otherwise. While it is open nothing changes. */
  lemma WorkIsSettled(e: Epic, tasks: seq<Task>, repo: Digest, i: nat)
    requires (e.status.Running? || e.status.FinalReview?) && e.driftTask == None
    requires i < |e.plan| && e.plan[i].status.ItemActive? && e.plan[i].task.Some? && e.plan[i].task.value < |tasks|
    requires forall j | 0 <= j < |e.plan| && j != i :: !e.plan[j].status.ItemActive?
    ensures var r, t := Navigate(e, tasks, repo), tasks[e.plan[i].task.value];
            && (t.status.TaskActive? || t.status.TaskBlocked? ==>
                  r == Navigated(e, ContinueTask(e.plan[i].task.value)))
            && (t.status.TaskCancelled? ==>
                  r == Navigated(e.(plan := e.plan[i := e.plan[i].(status := ItemBlocked)], status := Blocked,
                                    reason := TaskEnded), HumanAttention))
            && (t.status.TaskCompleted? && !e.plan[i].kind.Final? ==>
                  && r.epic.plan == e.plan[i := e.plan[i].(status := ItemCompleted)]
                  && r.epic.digest == Accepted(t) && (r.epic.status == e.status || r.epic.status.Blocked?))
  {
    hide Accepted, DocsUpdated, KnowledgePublished, MapReconciled, MaxOrdinal, StandaloneOpen, DriftAction,
        PendingNavigation;
    assert First(e.plan, ItemActive) == Some(i);
  }

  /** An item or a reconciliation whose Task is gone blocks the Epic. */
  lemma MissingTaskBlocks(e: Epic, tasks: seq<Task>, repo: Digest, i: nat)
    requires (e.status.Running? || e.status.FinalReview?) && e.driftTask == None
    requires i < |e.plan| && e.plan[i].status.ItemActive? && (e.plan[i].task.Some? ==> e.plan[i].task.value >= |tasks|)
    requires forall j | 0 <= j < |e.plan| && j != i :: !e.plan[j].status.ItemActive?
    ensures Navigate(e, tasks, repo)
         == Navigated(e.(plan := e.plan[i := e.plan[i].(status := ItemBlocked)], status := Blocked,
                         reason := TaskMissing), HumanAttention)
  {
    assert First(e.plan, ItemActive) == Some(i);
  }

  /** The Task is that of the Epic's Phase 0, its reconciliation or one of its items. */
  predicate Owns(e: Epic, t: nat) {
    e.phase0Task == Some(t) || e.driftTask == Some(t) || exists item | item in e.plan :: item.task == Some(t)
  }

  lemma OwnsIsLinked(e: Epic, t: nat)
    ensures Linked(e, t) <==> Owns(e, t)
  {
    if item :| item in e.plan && item.task == Some(t) {
      var i :| 0 <= i < |e.plan| && e.plan[i] == item;
    }
    if i :| 0 <= i < |e.plan| && e.plan[i].task == Some(t) {
      assert e.plan[i] in e.plan;
    }
  }

  /** The first open Task, if it is not the Epic's own. */
  predicate ForeignOpen(e: Epic, tasks: seq<Task>, t: nat) {
    && t < |tasks| && (tasks[t].status.TaskActive? || tasks[t].status.TaskBlocked?)
    && (forall j | 0 <= j < t :: !tasks[j].status.TaskActive? && !tasks[j].status.TaskBlocked?)
    && !Owns(e, t)
  }

  lemma ForeignIsStandalone(e: Epic, tasks: seq<Task>)
    ensures forall t: nat :: ForeignOpen(e, tasks, t) <==> StandaloneOpen(e, tasks) == Some(t)
  {
    forall t: nat ensures Linked(e, t) <==> Owns(e, t) { OwnsIsLinked(e, t); }
    forall t: nat ensures ForeignOpen(e, tasks, t) <==> StandaloneOpen(e, tasks) == Some(t) {
      if ForeignOpen(e, tasks, t) { assert OpenTask(tasks) == Some(t); }
    }
  }

  /** Between two items the navigator looks at open Tasks first, then at the repository, then at the plan. */
  lemma NamedBetweenItems(e: Epic, tasks: seq<Task>, repo: Digest)
    requires (e.status.Running? || e.status.FinalReview?) && e.driftTask == None && PlanOk(e.plan)
    requires forall j | 0 <= j < |e.plan| :: !e.plan[j].status.ItemActive?
    requires exists i: nat :: NextPending(e.plan, i)
    ensures var r, drifted := Navigate(e, tasks, repo), e.digest != "" && repo != e.digest;
            var foreign := exists t: nat :: ForeignOpen(e, tasks, t);
            && (r.action.ContinueStandaloneTask? <==> foreign)
            && (forall t: nat | ForeignOpen(e, tasks, t) :: r == Navigated(e, ContinueStandaloneTask(t)))
            && (r.action.ReviewInterveningTasks? <==> !foreign && drifted && Detect(e, tasks, repo).Explained?)
            && (r.action.ReviewInterveningTasks? ==> r.epic == e.(status := Blocked, reason := InterveningReview))
            && (r.action.StartDriftReconciliation? <==> !foreign && drifted && Detect(e, tasks, repo).Unexplained?)
            && (r.action.StartDriftReconciliation? ==> r.epic == e.(status := Blocked, reason := RepositoryDrift))
            && (!foreign && !drifted ==>
                  exists i: nat :: NextPending(e.plan, i)
                    && r == Navigated(e, if e.plan[i].kind.Final? then StartFinalReview(i) else StartNextTask(i)))
  {
    hide Detect, StandaloneOpen, ForeignOpen;
    ForeignIsStandalone(e, tasks);
    assert First(e.plan, ItemActive).None?;
    var i: nat :| NextPending(e.plan, i);
    NextPendingIsFirst(e.plan, i);
    assert ItemPlaced(e.plan, i);
  }

  /** In the other statuses. */
  lemma NamedByStatus(e: Epic, tasks: seq<Task>, repo: Digest)
    ensures var r := Navigate(e, tasks, repo);
            && (e.status.Draft? ==> r == Navigated(e, AuditReviseOrApprove))
            && (e.status.Approved? ==>
                  && (forall t: nat | ForeignOpen(e, tasks, t) :: r == Navigated(e, ContinueStandaloneTask(t)))
                  && ((forall t: nat :: !ForeignOpen(e, tasks, t)) ==> r == Navigated(e, StartPhase0)))
            && (e.status.Planning? ==> r == Navigated(e, CreateTaskPlan))
            && (e.status.Phase0? && e.phase0Task.Some? && e.phase0Task.value < |tasks| ==>
                  r == Navigated(e, match tasks[e.phase0Task.value].status
                                    case TaskCompleted => RecordPhase0
                                    case TaskCancelled => HumanAttention
                                    case _ => ContinueTask(e.phase0Task.value)))
            && (e.status.Completed? && e.driftTask == None ==> r == Navigated(e, ArchiveEpic))
            && (e.status.Archived? && e.driftTask == None ==> r == Navigated(e, NoAction))
            && (e.status.Blocked? && e.driftTask == None ==>
                  r == Navigated(e, match e.reason
                                    case HumanDecision => ResolveDecision
                                    case InterveningReview => ReviewInterveningTasks
                                    case RepositoryDrift => StartDriftReconciliation
                                    case _ => HumanAttention))
  {
    hide StandaloneOpen, ForeignOpen;
    ForeignIsStandalone(e, tasks);
  }

  /** While it is being reconciled for drift. */
  lemma NamedInDrift(e: Epic, tasks: seq<Task>, repo: Digest)
    requires e.driftTask.Some? && !BeforeExecution(e.status) && !e.status.Planning?
    requires e.status.Blocked? ==> !e.reason.HumanDecision? && !e.reason.InterveningReview?
    ensures e.driftTask.value >= |tasks| ==>
              Navigate(e, tasks, repo) == Navigated(e.(status := Blocked, reason := TaskMissing), HumanAttention)
    ensures e.driftTask.value < |tasks| ==>
         Navigate(e, tasks, repo)
         == match tasks[e.driftTask.value].status
            case TaskCompleted => Navigated(e, RecordDriftReconciliation)
            case TaskCancelled => Navigated(e.(status := Blocked, reason := TaskEnded), HumanAttention)
            case _ => Navigated(e, ContinueTask(e.driftTask.value))
  {
  }

  // Which Epic is asked about

  /** Begun and not ended: in Phase 0, planning, running, in final review or blocked. */
  predicate Begun(s: Status) { s.Phase0? || s.Planning? || s.Running? || s.FinalReview? || s.Blocked? }

  predicate Unended(s: Status) { s.Draft? || s.Approved? || Begun(s) }

  predicate Sole(epics: seq<Epic>, of: Status -> bool, k: nat) {
    k < |epics| && forall j | 0 <= j < |epics| :: of(epics[j].status) <==> j == k
  }

  predicate Several(epics: seq<Epic>, of: Status -> bool) {
    exists i, j | 0 <= i < j < |epics| :: of(epics[i].status) && of(epics[j].status)
  }

  lemma {:induction false} OpenEpicsAre(epics: seq<Epic>)
    ensures forall k | 0 <= k < |OpenEpics(epics)| :: OpenEpics(epics)[k] < |epics|
    ensures forall j, k | 0 <= j < k < |OpenEpics(epics)| :: OpenEpics(epics)[j] < OpenEpics(epics)[k]
    ensures forall i: nat :: i in OpenEpics(epics) <==> i < |epics| && Unended(epics[i].status)
    decreases |epics|
  {
    if epics != [] {
      var last := |epics| - 1;
      OpenEpicsAre(epics[..last]);
    }
  }

  /** What a rising list of Epics says about how many there are. */
  lemma CountedByList(epics: seq<Epic>, of: Status -> bool, ids: seq<nat>)
    requires forall i: nat :: i in ids <==> i < |epics| && of(epics[i].status)
    requires forall j, k | 0 <= j < k < |ids| :: ids[j] < ids[k]
    ensures |ids| == 0 <==> forall j | 0 <= j < |epics| :: !of(epics[j].status)
    ensures |ids| > 1 <==> Several(epics, of)
    ensures forall k: nat :: |ids| == 1 && ids[0] == k <==> Sole(epics, of, k)
  {
    if |ids| > 1 {
      assert ids[0] in ids && ids[1] in ids;
    }
    if Several(epics, of) {
      var i, j :| 0 <= i < j < |epics| && of(epics[i].status) && of(epics[j].status);
      assert i in ids && j in ids;
    }
    if |ids| == 1 { assert ids[0] in ids; }
    forall j: nat | j < |epics| && of(epics[j].status) ensures |ids| > 0 { assert j in ids; }
    forall k: nat | Sole(epics, of, k) ensures |ids| == 1 && ids[0] == k {
      assert k in ids;
      forall n | 0 <= n < |ids| ensures ids[n] == k { assert ids[n] in ids; }
    }
  }

  /** A key is answered when there is such an Epic. Without one the only begun Epic is found, or else the only
      one not ended; several of either kind are refused. */
  lemma FoundIff(epics: seq<Epic>)
    ensures forall k: nat ::
              ResolveEpicForNext(epics, Some(k)) == if k < |epics| then Ok(Some(k)) else Err(NoSuchEpic)
    ensures var r := ResolveEpicForNext(epics, None);
            && (r == Err(SeveralExecuting) <==> Several(epics, Begun))
            && (r == Err(SeveralOpen)
                <==> (forall j | 0 <= j < |epics| :: !Begun(epics[j].status)) && Several(epics, Unended))
            && (r == Ok(None) <==> forall j | 0 <= j < |epics| :: !Unended(epics[j].status))
            && (forall k: nat ::
                  r == Ok(Some(k))
                  <==> Sole(epics, Begun, k)
                       || ((forall j | 0 <= j < |epics| :: !Begun(epics[j].status)) && Sole(epics, Unended, k)))
  {
    var executing, open := ExecutingEpics(epics), OpenEpics(epics);
    forall i: nat ensures i in executing <==> i < |epics| && Begun(epics[i].status) {
      assert i < |epics| && Begun(epics[i].status) ==> IsExecuting(epics, i);
    }
    OpenEpicsAre(epics);
    CountedByList(epics, Begun, executing);
    CountedByList(epics, Unended, open);
    hide ExecutingEpics, OpenEpics, Several, Sole;
    assert forall i: nat | i in executing :: i in open;
  }
}
