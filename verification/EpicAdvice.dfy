/** What the navigator names can be done. */
module EpicAdvice {
  import opened Epics
  import opened Options
  import opened TaskBoundary
  import opened EpicLifecycle
  import opened EpicPlanning
  import opened EpicExecution
  import opened EpicReview
  import opened EpicNavigation
  import opened EpicInvariants
  import opened EpicPreservation
  import opened EpicRuns
  import opened EpicTheorems
  import opened EpicGuidedRuns

  // What it takes

  predicate SomethingLeft(plan: seq<PlanItem>) {
    plan != [] ==> !plan[|plan| - 1].status.ItemCompleted?
  }

  predicate Waiting(e: Epic) { e.driftTask.Some? || (e.status.Blocked? && !e.reason.TaskEnded?) }

  /** At most one plan item is active, and none while the Epic waits for a review, a decision or a drift
      reconciliation; an unfinished Epic has something left to do. */
  predicate ReadyOk(e: Epic) {
    && AtMostOneActive(e.plan)
    && (!e.status.Completed? && !e.status.Archived? ==> SomethingLeft(e.plan))
    && (Waiting(e) ==> NoneActive(e.plan))
  }

  lemma TailIsReady(head: seq<PlanItem>, work: seq<WorkText>, version: nat)
    requires NoneActive(head)
    ensures SomethingLeft(WithTail(head, work, version)) && NoneActive(WithTail(head, work, version))
  {
    hide WithTail;
    var plan := WithTail(head, work, version);
    TailLength(head, work, version);
    forall k: nat | k < |plan|
      ensures !plan[k].status.ItemActive? && (k == |plan| - 1 ==> plan[k].status.ItemPending?)
    {
      TailItem(head, work, version, k);
    }
  }

  lemma PlanSetIsReady(tasks: seq<Task>, e: Epic, items: seq<WorkText>)
    requires EpicOk(tasks, e) && SetPlan(e, items).Ok?
    ensures ReadyOk(SetPlan(e, items).value)
  {
    hide SpecsOk, PlanOk, LinksOk, DigestOk, DoneOk, NormalizedWork;
    var head := [PlanItem(0, Analysis, ItemCompleted, e.phase0Task, 1, PHASE0_TEXT)];
    var work := NormalizedWork(items).value;
    TailIsReady(head, work, 1);
    assert SetPlan(e, items).value.plan == WithTail(head, work, 1);
  }

  lemma ReconciledIsReady(tasks: seq<Task>, e: Epic, f: Findings)
    requires EpicOk(tasks, e) && TasksOk(tasks) && ReadyOk(e) && Reconcile(e, tasks, f).Ok?
    ensures ReadyOk(Reconcile(e, tasks, f).value)
  {
    hide SpecsOk, PlanOk, LinksOk, DigestOk, DoneOk, Recorded, ReplacePendingWork, Accepted, WithTail;
    var t := AnalysisTask(e).value;
    RecordedKeeps(tasks, e, t, f);
    var r := Recorded(e, tasks[t], f).value;
    if e.driftTask.Some? && !f.decisions && f.remaining.Some? {
      NothingBlockedInDrift(tasks, e);
      var c, work := ReplacedIsTail(r, f.remaining.value);
      TailIsReady(e.plan[..c], work, e.planVersion + 1);
    }
  }

  lemma SettledIsReady(tasks: seq<Task>, e: Epic, i: nat)
    requires EpicOk(tasks, e) && ReadyOk(e) && InRun(e) && e.driftTask == None && First(e.plan, ItemActive) == Some(i)
    ensures ReadyOk(Settle(e, tasks, i).epic)
  {
    hide SpecsOk, LinksOk, DigestOk, DoneOk, Accepted, DocsUpdated, KnowledgePublished, MapReconciled, MaxOrdinal,
        First;
    ActiveIsActive(e.plan);
    SettledOnce(e, tasks, i);
    assert ItemPlaced(e.plan, i) && ItemPlaced(e.plan, |e.plan| - 1);
  }

  lemma NavigatedIsReady(tasks: seq<Task>, e: Epic, repo: Digest)
    requires EpicOk(tasks, e) && TasksOk(tasks) && ReadyOk(e)
    ensures ReadyOk(Navigate(e, tasks, repo).epic)
  {
    hide EpicOk, TasksOk, Settle, First, StandaloneOpen, DriftAction, PendingNavigation, Phase0Navigation,
        ApprovedNavigation, SomethingLeft, AtMostOneActive;
    PlanBeforeExecution(tasks, e);
    if InRun(e) && e.driftTask == None {
      AfterSync(tasks, e);
    }
  }

  /** Once the sync neither waits nor ends the run, nothing is active. */
  lemma AfterSync(tasks: seq<Task>, e: Epic)
    requires EpicOk(tasks, e) && TasksOk(tasks) && ReadyOk(e) && InRun(e) && e.driftTask == None
    ensures var s := SyncActiveItem(e, tasks);
            && ReadyOk(s.epic) && EpicOk(tasks, s.epic) && s.epic.driftTask == None
            && (s.state.ItemOpen? || s.state.AwaitsMap? ==> InRun(s.epic))
            && (!s.state.ItemOpen? && !s.state.AwaitsMap? ==> NoneActive(s.epic.plan))
            && (s.epic.status.Blocked? ==> s.epic.reason.TaskEnded?)
            && (InRun(s.epic) || s.epic.status.Blocked? || s.epic.status.Completed?)
  {
    hide EpicOk, TasksOk, ReadyOk, Settle, SettledItem;
    var active := First(e.plan, ItemActive);
    if active.Some? {
      SettledIsReady(tasks, e, active.value);
      ReadyHasOneActive(e);
      SettledOnce(e, tasks, active.value);
      SettleKeeps(tasks, e, active.value);
    }
    SyncOutcome(e, tasks);
    ReasonIsEnded(tasks, SyncActiveItem(e, tasks).epic);
  }

  lemma ReadyHasOneActive(e: Epic)
    requires ReadyOk(e)
    ensures AtMostOneActive(e.plan)
  {
  }

  lemma ReasonIsEnded(tasks: seq<Task>, e: Epic)
    requires EpicOk(tasks, e)
    ensures e.status.Blocked? ==> !e.reason.TaskMissing?
  {
  }

  lemma StartIsReady(e: Epic, tasks: seq<Task>, checked: Digest, captured: Digest, other: Option<nat>)
    requires StartNext(e, tasks, checked, captured, other).Ok? && NoneActive(e.plan) && ReadyOk(e)
    requires e.status.Approved? ==> e.plan == [] && e.driftTask == None
    ensures ReadyOk(StartNext(e, tasks, checked, captured, other).value.epic)
  {
    hide First;
  }

  /** A named start begins with nothing active. */
  lemma NamedStartIsReady(q: Quality, p: Project, k: nat, call: Call)
    requires ProjectOk(p) && k < |p.epics| && ReadyOk(p.epics[k]) && call.CallStartNext? && Guided(p, OnEpic(k, call))
    requires Perform(q, p, k, call).Ok?
    ensures ReadyOk(Perform(q, p, k, call).value.epic)
  {
    hide EpicOk, TasksOk, Navigate, ReadyOk, BeginStart, AtMostOneExecuting;
    var e := p.epics[k];
    PlanBeforeExecution(p.tasks, e);
    StartableStatus(e, p.tasks, p.repo, WorktreeAfter(p.repo, call), OtherExecuting(p.epics, k));
    if InRun(e) {
      NamedMeansNoneActive(e, p.tasks, p.repo);
    }
    StartIsReady(e, p.tasks, p.repo, WorktreeAfter(p.repo, call), OtherExecuting(p.epics, k));
  }

  lemma StartableStatus(e: Epic, tasks: seq<Task>, checked: Digest, captured: Digest, other: Option<nat>)
    requires StartNext(e, tasks, checked, captured, other).Ok?
    ensures e.status.Approved? || (InRun(e) && e.driftTask == None)
  {
  }

  lemma CallIsReady(q: Quality, p: Project, k: nat, call: Call)
    requires ProjectOk(p) && k < |p.epics| && ReadyOk(p.epics[k]) && Guided(p, OnEpic(k, call))
    requires Perform(q, p, k, call).Ok?
    ensures ReadyOk(Perform(q, p, k, call).value.epic)
  {
    hide EpicOk, TasksOk, Guided, AtMostOneExecuting, Reconcile, SetPlan, Detect, CheckedReview, BoundedText,
         EditedContent, StartNext;
    var e := p.epics[k];
    assert EpicOk(p.tasks, e);
    match call {
      case CallReconcile(f) => ReconciledIsReady(p.tasks, e, f);
      case CallSetPlan(items) => PlanSetIsReady(p.tasks, e, items);
      case CallStartNext(_) => NamedStartIsReady(q, p, k, call);
      case _ => PlanBeforeExecution(p.tasks, e);
    }
  }

  lemma PlanBeforeExecution(tasks: seq<Task>, e: Epic)
    requires EpicOk(tasks, e)
    ensures BeforeExecution(e.status) ==> e.plan == [] && e.driftTask == None
    ensures e.status.Completed? || e.status.Archived? ==> e.driftTask == None
  {
  }

  ghost predicate ProjectReady(p: Project) {
    ProjectOk(p) && forall k | 0 <= k < |p.epics| :: ReadyOk(p.epics[k])
  }

  lemma StepIsReady(q: Quality, p: Project, step: Step)
    requires ProjectReady(p) && Guided(p, step)
    ensures ProjectReady(Next(q, p, step))
  {
    hide EpicOk, TasksOk, Guided, Perform, AtMostOneExecuting, Navigate, ResolveEpicForNext, ReadyOk;
    StepKeeps(q, p, step);
    match step {
      case OnEpic(k, call) =>
        if k < |p.epics| && Perform(q, p, k, call).Ok? { CallIsReady(q, p, k, call); }
      case NextAction(key) =>
        forall k | 0 <= k < |p.epics| ensures ReadyOk(Navigate(p.epics[k], p.tasks, p.repo).epic) {
          NavigatedIsReady(p.tasks, p.epics[k], p.repo);
        }
      case CreateEpic(title, spec) =>
        if Create(title, spec).Ok? { CreatedIsReady(title, spec); }
      case _ =>
    }
  }

  lemma CreatedIsReady(title: string, spec: string)
    requires Create(title, spec).Ok?
    ensures ReadyOk(Create(title, spec).value)
  {
  }

  lemma {:induction false} RunIsReady(q: Quality, p: Project, steps: seq<Step>)
    requires ProjectReady(p) && GuidedRun(q, p, steps)
    ensures ProjectReady(Run(q, p, steps))
    decreases |steps|
  {
    hide Next, ProjectReady, Guided;
    if steps != [] {
      StepIsReady(q, p, steps[0]);
      RunIsReady(q, Next(q, p, steps[0]), steps[1..]);
    }
  }

  lemma EveryGuidedProjectIsReady(q: Quality, p: Project)
    requires GuidedReachable(q, p)
    ensures ProjectReady(p)
  {
    var p0, steps :| Initial(p0) && GuidedRun(q, p0, steps) && p == Run(q, p0, steps);
    RunIsReady(q, p0, steps);
  }

  /** In guided runs at most one plan item is active, and navigating an Epic twice is navigating it once. */
  lemma NavigatorFixpoint(q: Quality, p: Project, k: nat)
    requires GuidedReachable(q, p) && k < |p.epics|
    ensures AtMostOneActive(p.epics[k].plan)
    ensures var n := Navigate(p.epics[k], p.tasks, p.repo);
            Navigate(n.epic, p.tasks, p.repo) == n
  {
    EveryGuidedProjectIsReady(q, p);
    NavigateIsIdempotent(p.epics[k], p.tasks, p.repo);
  }

  // The advice

  /** A refusal that the caller's own texts caused. */
  predicate RefusedForTexts<T>(r: Result<T>) {
    r.Ok? || r.error.TextRequired? || r.error.TextTooLong? || r.error.NoWorkItems? || r.error.TooManyWorkItems?
  }

  ghost predicate CanReconcile(e: Epic, tasks: seq<Task>) {
    forall f :: RefusedForTexts(Reconcile(e, tasks, f))
  }

  ghost predicate CanPlan(e: Epic) {
    forall items :: RefusedForTexts(SetPlan(e, items))
  }

  predicate OpenLink(e: Epic, tasks: seq<Task>, t: nat) { t < |tasks| && IsOpen(tasks[t]) && Linked(e, t) }

  /** The start succeeds and starts the plan item of the given ordinal and kind, wherever the worktree is when
      the baseline is recorded. */
  ghost predicate Starts(e: Epic, tasks: seq<Task>, repo: Digest, other: Option<nat>, ordinal: nat, final: bool) {
    && ordinal < |e.plan| && e.plan[ordinal].ordinal == ordinal && e.plan[ordinal].kind.Final? == final
    && forall captured ::
         var r := StartNext(e, tasks, repo, captured, other);
         && r.Ok? && r.value.task == NewTask(captured)
         && r.value.epic.plan == e.plan[ordinal := e.plan[ordinal].(task := Some(|tasks|), status := ItemActive)]
  }

  /** A Phase 0 can be started exactly when no other Epic is executing. */
  ghost predicate StartsPhase0Iff(e: Epic, tasks: seq<Task>, repo: Digest, other: Option<nat>) {
    forall captured :: StartNext(e, tasks, repo, captured, other).Ok? <==> other.None?
  }

  predicate WellFormedReview(outcome: Outcome, affected: bool, texts: ReviewTexts) {
    !outcome.UnknownOutcome? && !(outcome.Unaffected? && affected) && CheckedReview(texts).Ok?
  }

  /** A well-formed review is accepted exactly when completed Tasks still explain the repository and they are
      the ones reviewed. */
  ghost predicate ReviewsIff(e: Epic, tasks: seq<Task>, repo: Digest) {
    forall keys, outcome, affected, texts ::
      RecordReview(e, tasks, repo, keys, outcome, affected, texts).Ok? <==>
        Detect(e, tasks, repo) == Explained(keys) && WellFormedReview(outcome, affected, texts)
  }

  /** A drift reconciliation can be started exactly when no Task is open. */
  ghost predicate StartsDriftIff(e: Epic, tasks: seq<Task>) {
    forall captured :: StartDrift(e, tasks, captured).Ok? <==> OpenTask(tasks).None?
  }

  /** What each named action promises of the Epic as the navigator left it; `other` is another Epic in an
      execution status. */
  ghost predicate CanBeDone(e: Epic, tasks: seq<Task>, repo: Digest, other: Option<nat>, action: Action) {
    match action
    case AuditReviseOrApprove => Revisable(e)
    case ContinueStandaloneTask(t) => t < |tasks| && IsOpen(tasks[t]) && !Linked(e, t)
    case StartPhase0 => StartsPhase0Iff(e, tasks, repo, other)
    case ContinueTask(t) => OpenLink(e, tasks, t)
    case RecordPhase0 => CanReconcile(e, tasks)
    case CreateTaskPlan => CanPlan(e)
    case ResolveDecision => CanReconcile(e, tasks)
    case ReviewInterveningTasks => ReviewsIff(e, tasks, repo)
    case RecordDriftReconciliation => CanReconcile(e, tasks)
    case ReconcileProjectMap(t) => t < |tasks| && tasks[t].status.TaskCompleted? && AwaitsMapOnly(tasks[t])
    case StartDriftReconciliation => StartsDriftIff(e, tasks)
    case StartFinalReview(i) => Starts(e, tasks, repo, other, i, true)
    case StartNextTask(i) => Starts(e, tasks, repo, other, i, false)
    case HumanAttention => DeadEnd(tasks, e)
    case ArchiveEpic => Archive(e).Ok?
    case NoAction => e.status.Archived?
  }

  lemma {:induction false} TextsAreRefusedForTexts(items: seq<WorkText>)
    ensures NormalizedTexts(items).Err? ==>
              NormalizedTexts(items).error.TextRequired? || NormalizedTexts(items).error.TextTooLong?
    decreases |items|
  {
    if items != [] {
      TextsAreRefusedForTexts(items[..|items| - 1]);
    }
  }

  lemma PlanningIsPossible(tasks: seq<Task>, e: Epic)
    requires EpicOk(tasks, e) && e.status.Planning?
    ensures CanPlan(e)
  {
    forall items ensures RefusedForTexts(SetPlan(e, items)) {
      TextsAreRefusedForTexts(items);
    }
  }

  lemma RecordingIsPossible(tasks: seq<Task>, e: Epic, t: Task, f: Findings)
    requires SpecsOk(e)
    ensures RefusedForTexts(Recorded(e, t, f))
    ensures Recorded(e, t, f).Ok? ==>
              Recorded(e, t, f).value.plan == e.plan && Recorded(e, t, f).value.driftTask == e.driftTask
  {
    hide Accepted;
  }

  lemma ReplanningIsPossible(e: Epic, items: seq<WorkText>)
    requires NoneActive(e.plan)
    ensures RefusedForTexts(ReplacePendingWork(e, items))
  {
    hide WithStatus, WithoutPending, MaxOrdinal, WorkItems;
    TextsAreRefusedForTexts(items);
  }

  lemma ReconcilingIsPossible(tasks: seq<Task>, e: Epic)
    requires EpicOk(tasks, e) && ReadyOk(e) && IsCompletedTask(tasks, AnalysisTask(e))
    requires e.driftTask.Some? || e.status.Phase0? || AwaitsDecision(e)
    ensures CanReconcile(e, tasks)
  {
    hide SpecsOk, PlanOk, LinksOk, DigestOk, DoneOk, PhaseOk, Recorded, ReplacePendingWork, NoneActive, SomethingLeft;
    forall f ensures RefusedForTexts(Reconcile(e, tasks, f)) {
      var t := tasks[AnalysisTask(e).value];
      RecordingIsPossible(tasks, e, t, f);
      if Recorded(e, t, f).Ok? && f.remaining.Some? && e.driftTask.Some? {
        ReplanningIsPossible(Recorded(e, t, f).value, f.remaining.value);
      }
    }
  }

  /** Between items an open Task is never the Epic's own. */
  lemma OpenIsStandalone(tasks: seq<Task>, e: Epic)
    requires EpicOk(tasks, e) && InRun(e) && e.driftTask == None && NoneActive(e.plan)
    ensures OpenTask(tasks).Some? ==> !Linked(e, OpenTask(tasks).value)
  {
    hide SpecsOk, DigestOk, DoneOk;
    forall i | 0 <= i < |e.plan| && e.plan[i].task.Some? ensures IsCompletedTask(tasks, e.plan[i].task) {
      assert ItemLinked(tasks, e.plan[i]) && ItemPlaced(e.plan, i);
    }
  }

  lemma SomethingIsPending(tasks: seq<Task>, e: Epic)
    requires EpicOk(tasks, e) && ReadyOk(e) && InRun(e) && NoneActive(e.plan)
    ensures First(e.plan, ItemPending).Some?
    ensures var i := First(e.plan, ItemPending).value; i < |e.plan| && e.plan[i].ordinal == i
  {
    hide SpecsOk, LinksOk, DigestOk, DoneOk, First;
    assert ItemPlaced(e.plan, |e.plan| - 1) && e.plan[|e.plan| - 1].status.ItemPending?;
    FirstIsSome(e.plan, |e.plan| - 1);
    assert ItemPlaced(e.plan, First(e.plan, ItemPending).value);
  }

  lemma FirstIsSome(plan: seq<PlanItem>, k: nat)
    requires k < |plan| && plan[k].status.ItemPending?
    ensures First(plan, ItemPending).Some? && First(plan, ItemPending).value < |plan|
  {
  }

  lemma DetectIgnoresStatus(e: Epic, e': Epic, tasks: seq<Task>, repo: Digest)
    requires e' == e.(status := e'.status, reason := e'.reason)
    ensures Detect(e', tasks, repo) == Detect(e, tasks, repo)
  {
    hide CompletedTasks, LastAnchor, Accepted, Unbroken, Arrives, AnyChanged;
    forall t: nat ensures Linked(e, t) == Linked(e', t) {
    }
  }

  lemma ReviewIsExact(e: Epic, tasks: seq<Task>, repo: Digest)
    requires AwaitsReview(e)
    ensures ReviewsIff(e, tasks, repo)
  {
    hide Detect, CheckedReview;
  }

  lemma DriftStartIsExact(e: Epic, tasks: seq<Task>)
    requires AwaitsDrift(e)
    ensures StartsDriftIff(e, tasks)
  {
  }

  lemma PendingStarts(tasks: seq<Task>, e: Epic, repo: Digest, other: Option<nat>)
    requires InRun(e) && e.driftTask == None && OpenTask(tasks).None? && (e.digest == "" || repo == e.digest)
    requires First(e.plan, ItemPending).Some?
    requires var i := First(e.plan, ItemPending).value; i < |e.plan| && e.plan[i].ordinal == i
    ensures var i := First(e.plan, ItemPending).value;
            i < |e.plan| && Starts(e, tasks, repo, other, i, e.plan[i].kind.Final?)
  {
    hide First;
  }

  lemma BetweenItemsAdvice(tasks: seq<Task>, e: Epic, repo: Digest, other: Option<nat>)
    requires EpicOk(tasks, e) && ReadyOk(e) && InRun(e) && e.driftTask == None && NoneActive(e.plan)
    ensures var n := BetweenItems(e, tasks, repo);
            && CanBeDone(n.epic, tasks, repo, other, n.action)
            && DriftCanBeHandledNow(n.epic, tasks, repo, n.action)
  {
    hide EpicOk, ReadyOk, NoneActive, First, Detect, Linked, Starts, ReviewsIff, StartsDriftIff, RecordReview,
        StartNext, StartDrift;
    OpenIsStandalone(tasks, e);
    SomethingIsPending(tasks, e);
    var n := BetweenItems(e, tasks, repo);
    DetectIgnoresStatus(e, n.epic, tasks, repo);
    if n.action.ReviewInterveningTasks? {
      ReviewIsExact(n.epic, tasks, repo);
    } else if n.action.StartDriftReconciliation? {
      DriftStartIsExact(n.epic, tasks);
    } else if !n.action.ContinueStandaloneTask? {
      PendingStarts(tasks, e, repo, other);
    }
  }

  /** When the navigator has only now found the drift, the review or reconciliation it names can be done. */
  predicate DriftCanBeHandledNow(e: Epic, tasks: seq<Task>, repo: Digest, action: Action) {
    && (action.ReviewInterveningTasks? ==> Detect(e, tasks, repo).Explained?)
    && (action.StartDriftReconciliation? ==> OpenTask(tasks).None?)
  }

  lemma SyncAdvice(tasks: seq<Task>, e: Epic, repo: Digest)
    requires EpicOk(tasks, e) && InRun(e)
    ensures var s := SyncActiveItem(e, tasks);
            && (s.state.ItemOpen? ==> OpenLink(s.epic, tasks, s.state.task))
            && (s.state.AwaitsMap? ==>
                  && s.state.task < |tasks| && tasks[s.state.task].status.TaskCompleted?
                  && AwaitsMapOnly(tasks[s.state.task]))
  {
    hide SpecsOk, PlanOk, LinksOk, DigestOk, DoneOk, PhaseOk, Accepted, DocsUpdated, KnowledgePublished, MapReconciled,
         First, MaxOrdinal;
    ActiveIsActive(e.plan);
  }

  lemma RunningAdvice(tasks: seq<Task>, e: Epic, repo: Digest, other: Option<nat>)
    requires EpicOk(tasks, e) && TasksOk(tasks) && ReadyOk(e) && InRun(e) && e.driftTask == None
    ensures var n := RunningNavigation(e, tasks, repo);
            && CanBeDone(n.epic, tasks, repo, other, n.action)
            && DriftCanBeHandledNow(n.epic, tasks, repo, n.action)
  {
    hide EpicOk, TasksOk, ReadyOk, NoneActive, SyncActiveItem, BetweenItems, OpenLink, AwaitsMapOnly, Detect;
    AfterSync(tasks, e);
    SyncAdvice(tasks, e, repo);
    var s := SyncActiveItem(e, tasks);
    if !s.state.ItemOpen? && !s.state.AwaitsMap? && InRun(s.epic) {
      BetweenItemsAdvice(tasks, s.epic, repo, other);
    }
  }

  /** The links of an Epic that waits for an analysis. */
  lemma AnalysisLinks(tasks: seq<Task>, e: Epic)
    requires EpicOk(tasks, e)
    ensures e.status.Phase0? ==> IsTask(tasks, e.phase0Task) && AnalysisTask(e) == e.phase0Task
    ensures e.driftTask.Some? ==> IsTask(tasks, e.driftTask) && AnalysisTask(e) == e.driftTask
    ensures AwaitsDecision(e) ==> IsCompletedTask(tasks, AnalysisTask(e))
    ensures e.status.Blocked? ==> !e.reason.TaskMissing? && !e.reason.NoReason?
    ensures !e.status.Cancelled?
    ensures e.driftTask.Some? ==> e.status.Running? || e.status.Blocked?
  {
    hide SpecsOk, PlanOk, DigestOk, DoneOk, ItemLinked;
  }

  lemma DriftAdvice(tasks: seq<Task>, e: Epic, repo: Digest, other: Option<nat>)
    requires EpicOk(tasks, e) && ReadyOk(e) && e.driftTask.Some? && !AwaitsDecision(e) && !AwaitsReview(e)
    ensures var n := DriftTaskNavigation(e, tasks); CanBeDone(n.epic, tasks, repo, other, n.action)
  {
    hide EpicOk, ReadyOk, CanReconcile;
    AnalysisLinks(tasks, e);
    if tasks[e.driftTask.value].status.TaskCompleted? { ReconcilingIsPossible(tasks, e); }
  }

  lemma ApprovedAdvice(tasks: seq<Task>, e: Epic, repo: Digest, other: Option<nat>)
    requires EpicOk(tasks, e) && e.status.Approved?
    ensures CanBeDone(e, tasks, repo, other, ApprovedNavigation(e, tasks))
  {
    hide SpecsOk, PlanOk, LinksOk, DigestOk, DoneOk;
    assert e.plan == [] && e.phase0Task == None && e.driftTask == None;
  }

  lemma Phase0Advice(tasks: seq<Task>, e: Epic, repo: Digest, other: Option<nat>)
    requires EpicOk(tasks, e) && ReadyOk(e) && e.status.Phase0?
    ensures CanBeDone(e, tasks, repo, other, Phase0Navigation(e, tasks))
  {
    hide EpicOk, ReadyOk, CanReconcile;
    AnalysisLinks(tasks, e);
    if tasks[e.phase0Task.value].status.TaskCompleted? { ReconcilingIsPossible(tasks, e); }
  }

  lemma BlockedAdvice(tasks: seq<Task>, e: Epic, repo: Digest, other: Option<nat>)
    requires EpicOk(tasks, e) && ReadyOk(e) && e.status.Blocked?
    requires AwaitsDecision(e) || AwaitsReview(e) || e.driftTask == None
    ensures var n := Navigate(e, tasks, repo); CanBeDone(n.epic, tasks, repo, other, n.action)
  {
    hide EpicOk, ReadyOk, CanReconcile, ReviewsIff, StartsDriftIff, RecordReview;
    AnalysisLinks(tasks, e);
    if AwaitsDecision(e) { ReconcilingIsPossible(tasks, e); }
    if AwaitsReview(e) { ReviewIsExact(e, tasks, repo); }
    if AwaitsDrift(e) { DriftStartIsExact(e, tasks); }
  }

  lemma Advice(tasks: seq<Task>, e: Epic, repo: Digest, other: Option<nat>)
    requires EpicOk(tasks, e) && TasksOk(tasks) && ReadyOk(e)
    ensures var n := Navigate(e, tasks, repo);
            && CanBeDone(n.epic, tasks, repo, other, n.action)
            && (InRun(e) ==> DriftCanBeHandledNow(n.epic, tasks, repo, n.action))
  {
    hide EpicOk, TasksOk, ReadyOk, RunningNavigation, DriftTaskNavigation, Phase0Navigation, ApprovedNavigation, Detect,
         CanReconcile, CanPlan, ReviewsIff, StartsDriftIff, StartsPhase0Iff, Starts;
    AnalysisLinks(tasks, e);
    if e.status.Approved? {
      ApprovedAdvice(tasks, e, repo, other);
    } else if e.status.Phase0? {
      Phase0Advice(tasks, e, repo, other);
    } else if e.status.Planning? {
      PlanningIsPossible(tasks, e);
    } else if e.status.Blocked? && (AwaitsDecision(e) || AwaitsReview(e) || e.driftTask == None) {
      BlockedAdvice(tasks, e, repo, other);
    } else if e.driftTask.Some? {
      DriftAdvice(tasks, e, repo, other);
      DriftTaskAdviceIsNoDrift(tasks, e);
    } else if InRun(e) {
      RunningAdvice(tasks, e, repo, other);
    }
  }

  lemma DriftTaskAdviceIsNoDrift(tasks: seq<Task>, e: Epic)
    ensures !DriftTaskNavigation(e, tasks).action.ReviewInterveningTasks?
    ensures !DriftTaskNavigation(e, tasks).action.StartDriftReconciliation?
  {
  }

  /** In guided runs, what the navigator names can be done by the Epic as it leaves it: a named item start
      succeeds and starts the item named, a named reconciliation or plan is refused for the caller's own texts
      only, a Task to continue is open, an Epic to archive can be archived, and human attention is asked for
      only when a Task ended without completing. Three actions can be refused, each exactly when a condition
      fails that a caller can check first: Phase 0 starts iff no other Epic is executing, a review is accepted
      iff completed Tasks explain the repository, and a drift reconciliation starts iff no Task is open. When
      this very call found the drift, the last two conditions hold. */
  lemma NavigatorNamesWhatCanBeDone(q: Quality, p: Project, k: nat)
    requires GuidedReachable(q, p) && k < |p.epics|
    ensures var n := Navigate(p.epics[k], p.tasks, p.repo);
            && CanBeDone(n.epic, p.tasks, p.repo, OtherExecuting(p.epics, k), n.action)
            && (InRun(p.epics[k]) ==> DriftCanBeHandledNow(n.epic, p.tasks, p.repo, n.action))
  {
    hide Navigate, CanBeDone, EpicOk, TasksOk;
    EveryGuidedProjectIsReady(q, p);
    Advice(p.tasks, p.epics[k], p.repo, OtherExecuting(p.epics, k));
  }
}
