/** A project as one transition system: its Epics, its Tasks and its worktree. Each engine call is one
    step; Tasks are worked on and the worktree changes at any time in between. */
module EpicRuns {
  import opened Epics
  import opened Options
  import opened TaskBoundary
  import opened EpicLifecycle
  import opened EpicPlanning
  import opened EpicExecution
  import opened EpicReview
  import opened EpicNavigation
  import opened EpicInvariants
  import opened EpicPreservation
  import SpecEditor

  datatype Project = Project(tasks: seq<Task>, repo: Digest, epics: seq<Epic>)

  /** `spec_quality` as a gate on the current specification. */
  type Quality = string -> bool

  /** The engine's calls. `moved` is the repository when `create_task` records the baseline, if it is no longer
      what the boundary check saw. */
  datatype Call =
    | CallRevise(spec: string, note: Note)
    | CallEdit(expected: int, edits: seq<SpecEditor.Edit>, note: Note)
    | CallApprove
    | CallStartNext(moved: Option<Digest>)
    | CallStartDrift
    | CallReconcile(findings: Findings)
    | CallSetPlan(items: seq<WorkText>)
    | CallRecordReview(keys: seq<nat>, outcome: Outcome, affected: bool, texts: ReviewTexts)
    | CallArchive

  predicate IsStart(call: Call) { call.CallStartNext? || call.CallStartDrift? }

  datatype Step =
    | CreateEpic(title: string, spec: string)
    | OnEpic(k: nat, call: Call)
    | NextAction(key: Option<nat>)
    // the environment
    | OpenStandalone
    | WorkOnTask(task: Task)
    | PublishKnowledge(t: nat, published: int)
    | CheckMap(t: nat, scopePaths: nat)
    | ChangeWorktree(digest: Digest)

  /** Another Epic in an execution status. */
  function OtherExecuting(epics: seq<Epic>, k: nat): (r: Option<nat>)
    ensures r.Some? ==> r.value < |epics| && r.value != k && Executing(epics[r.value].status)
    ensures r.None? ==> forall i | 0 <= i < |epics| && i != k :: !Executing(epics[i].status)
  {
    if epics == [] then None
    else if |epics| - 1 != k && Executing(epics[|epics| - 1].status) then Some(|epics| - 1)
    else OtherExecuting(epics[..|epics| - 1], k)
  }

  /** The Epic after a call, and the Task the call opened. */
  datatype Performed = Performed(epic: Epic, started: seq<Task>)

  function Quietly(r: Result<Epic>): Result<Performed> {
    var e :- r;
    Ok(Performed(e, []))
  }

  function Opening(r: Result<Started>): Result<Performed> {
    var s :- r;
    Ok(Performed(s.epic, [s.task]))
  }

  /** The repository when the call is over. */
  function WorktreeAfter(repo: Digest, call: Call): Digest {
    if call.CallStartNext? && call.moved.Some? && call.moved.value != "" then call.moved.value else repo
  }

  function Perform(q: Quality, p: Project, k: nat, call: Call): Result<Performed>
    requires k < |p.epics|
  {
    var e := p.epics[k];
    match call
    case CallRevise(spec, note) => Quietly(ReviseSpec(e, spec, note))
    case CallEdit(expected, edits, note) => Quietly(EditSpec(e, expected, edits, note))
    case CallApprove => Quietly(Approve(e, q))
    case CallStartNext(_) =>
      Opening(StartNext(e, p.tasks, p.repo, WorktreeAfter(p.repo, call), OtherExecuting(p.epics, k)))
    case CallStartDrift => Opening(StartDrift(e, p.tasks, p.repo))
    case CallReconcile(f) => Quietly(Reconcile(e, p.tasks, f))
    case CallSetPlan(items) => Quietly(SetPlan(e, items))
    case CallRecordReview(keys, outcome, affected, texts) =>
      Quietly(RecordReview(e, p.tasks, p.repo, keys, outcome, affected, texts))
    case CallArchive => Quietly(Archive(e))
  }

  /** A step; a call that raises changes nothing. */
  function Next(q: Quality, p: Project, step: Step): Project {
    match step
    case CreateEpic(title, spec) =>
      var r := Create(title, spec);
      if r.Ok? then p.(epics := p.epics + [r.value]) else p
    case OnEpic(k, call) =>
      if k >= |p.epics| then p
      else
        var r := Perform(q, p, k, call);
        if r.Ok? then
          Project(p.tasks + r.value.started, WorktreeAfter(p.repo, call), p.epics[k := r.value.epic])
        else p
    case NextAction(key) =>
      var r := ResolveEpicForNext(p.epics, key);
      if r.Ok? && r.value.Some? && r.value.value < |p.epics| then
        p.(epics := p.epics[r.value.value := Navigate(p.epics[r.value.value], p.tasks, p.repo).epic])
      else p
    case OpenStandalone => if OpenTask(p.tasks).Some? then p else p.(tasks := p.tasks + [NewTask(p.repo)])
    case WorkOnTask(task) =>
      var open := OpenTask(p.tasks);
      if open.Some? && SameRow(p.tasks[open.value], task) then p.(tasks := p.tasks[open.value := task]) else p
    case PublishKnowledge(t, published) =>
      if t < |p.tasks|
      then p.(tasks := p.tasks[t := p.tasks[t].(knowledge := p.tasks[t].knowledge + [published])])
      else p
    case CheckMap(t, scopePaths) =>
      if t < |p.tasks| then p.(tasks := p.tasks[t := p.tasks[t].(maps := p.tasks[t].maps + [scopePaths])]) else p
    case ChangeWorktree(digest) => if digest != "" then p.(repo := digest) else p
  }

  /** What `next_action` answers: the idle payload, an error, or an Epic, its row and the action named. */
  datatype Answer = Idle | Refused(error: Error) | Named(epic: nat, row: Epic, action: Action)

  /** The answer of the step `NextAction(key)`. */
  function AnswerOf(p: Project, key: Option<nat>): Answer {
    match ResolveEpicForNext(p.epics, key)
    case Err(error) => Refused(error)
    case Ok(None) => Idle
    case Ok(Some(k)) =>
      var n := Navigate(p.epics[k], p.tasks, p.repo);
      Named(k, n.epic, n.action)
  }

  /** Work on an open Task may change its stages and changes, complete it or cancel it. */
  predicate SameRow(s: Task, t: Task) {
    t.baseline == s.baseline && t.knowledge == s.knowledge && t.maps == s.maps
  }

  function Run(q: Quality, p: Project, steps: seq<Step>): Project
    decreases |steps|
  {
    if steps == [] then p else Run(q, Next(q, p, steps[0]), steps[1..])
  }

  predicate Initial(p: Project) { p.tasks == [] && p.epics == [] && p.repo != "" }

  ghost predicate Reachable(q: Quality, p: Project) {
    exists p0, steps :: Initial(p0) && p == Run(q, p0, steps)
  }

  // The invariant of every run

  predicate AtMostOneExecuting(epics: seq<Epic>) {
    forall i, j | 0 <= i < j < |epics| :: !(Executing(epics[i].status) && Executing(epics[j].status))
  }

  ghost predicate ProjectOk(p: Project) {
    && p.repo != "" && TasksOk(p.tasks) && AtMostOneExecuting(p.epics)
    && forall k | 0 <= k < |p.epics| :: EpicOk(p.tasks, p.epics[k])
  }

  lemma QuietCallKeeps(q: Quality, p: Project, k: nat, call: Call)
    requires ProjectOk(p) && k < |p.epics| && !call.CallStartNext? && !call.CallStartDrift?
    requires Perform(q, p, k, call).Ok?
    ensures Perform(q, p, k, call).value.started == [] && EpicOk(p.tasks, Perform(q, p, k, call).value.epic)
  {
    hide EpicOk, TasksOk, AtMostOneExecuting, Reconcile, SetPlan, RecordReview, Approve, PersistManualRevision,
        BoundedText, EditedContent;
    var e := p.epics[k];
    match call {
      case CallRevise(spec, note) => PersistKeeps(p.tasks, e, BoundedText(spec, MAX_EPIC_SPEC_CHARS, true).value, note);
      case CallEdit(expected, edits, note) =>
        PersistKeeps(p.tasks, e, EditedContent(CurrentSpec(e).value, edits).value, note);
      case CallApprove => ApproveKeeps(p.tasks, e, q);
      case CallReconcile(f) => ReconcileKeeps(p.tasks, e, f);
      case CallSetPlan(items) => SetPlanKeeps(p.tasks, e, items);
      case CallRecordReview(keys, outcome, affected, texts) =>
        RecordReviewKeeps(p.tasks, e, p.repo, keys, outcome, affected, texts);
      case CallArchive => ArchiveKeeps(p.tasks, e);
    }
  }

  lemma OpeningCallKeeps(q: Quality, p: Project, k: nat, call: Call)
    requires ProjectOk(p) && k < |p.epics| && (call.CallStartNext? || call.CallStartDrift?)
    requires Perform(q, p, k, call).Ok?
    ensures Perform(q, p, k, call).value.started == [NewTask(WorktreeAfter(p.repo, call))] && OpenTask(p.tasks).None?
    ensures EpicOk(p.tasks + [NewTask(WorktreeAfter(p.repo, call))], Perform(q, p, k, call).value.epic)
  {
    hide EpicOk, TasksOk, AtMostOneExecuting;
    var e := p.epics[k];
    if call.CallStartNext? {
      StartNextKeeps(p.tasks, e, p.repo, WorktreeAfter(p.repo, call), OtherExecuting(p.epics, k));
    } else {
      StartDriftKeeps(p.tasks, e, p.repo);
    }
  }

  lemma TasksAppended(tasks: seq<Task>, repo: Digest)
    requires repo != "" && TasksOk(tasks) && OpenTask(tasks).None?
    ensures TasksOk(tasks + [NewTask(repo)]) && Evolves(tasks, tasks + [NewTask(repo)])
  {
  }

  /** An Epic enters execution only from approved, and then no other is executing. */
  lemma EntersExecutionAlone(q: Quality, p: Project, k: nat, call: Call)
    requires k < |p.epics| && Perform(q, p, k, call).Ok? && Executing(Perform(q, p, k, call).value.epic.status)
    requires p.epics[k].driftTask.Some? ==> Executing(p.epics[k].status)
    ensures Executing(p.epics[k].status)
         || (call.CallStartNext? && forall i | 0 <= i < |p.epics| && i != k :: !Executing(p.epics[i].status))
  {
    hide BoundedText, EditedContent, Recorded, ReplacePendingWork, NormalizedWork, Detect, CheckedReview;
  }

  lemma NavigateStaysPut(e: Epic, tasks: seq<Task>, repo: Digest)
    requires Executing(Navigate(e, tasks, repo).epic.status)
    requires e.driftTask.Some? ==> Executing(e.status)
    ensures Executing(e.status)
  {
    hide RunningNavigation;
  }

  lemma ReplacedEpicKeepsOne(epics: seq<Epic>, k: nat, e: Epic)
    requires AtMostOneExecuting(epics) && k < |epics|
    requires Executing(e.status) ==>
               Executing(epics[k].status) || forall i | 0 <= i < |epics| && i != k :: !Executing(epics[i].status)
    ensures AtMostOneExecuting(epics[k := e])
  {
  }

  lemma DriftTaskMeansExecuting(tasks: seq<Task>, e: Epic)
    requires EpicOk(tasks, e)
    ensures e.driftTask.Some? ==> Executing(e.status)
  {
    hide SpecsOk, PlanOk, LinksOk, DigestOk, DoneOk;
  }

  lemma CallKeeps(q: Quality, p: Project, k: nat, call: Call)
    requires ProjectOk(p)
    ensures ProjectOk(Next(q, p, OnEpic(k, call)))
  {
    hide EpicOk, TasksOk, Perform;
    if k < |p.epics| && Perform(q, p, k, call).Ok? {
      var r := Perform(q, p, k, call).value;
      var p' := Next(q, p, OnEpic(k, call));
      DriftTaskMeansExecuting(p.tasks, p.epics[k]);
      if Executing(r.epic.status) { EntersExecutionAlone(q, p, k, call); }
      ReplacedEpicKeepsOne(p.epics, k, r.epic);
      if call.CallStartNext? || call.CallStartDrift? {
        OpeningCallKeeps(q, p, k, call);
        TasksAppended(p.tasks, WorktreeAfter(p.repo, call));
        forall i | 0 <= i < |p.epics| ensures EpicOk(p'.tasks, p.epics[i]) {
          EpicIsKept(p.tasks, p'.tasks, p.epics[i]);
        }
      } else {
        QuietCallKeeps(q, p, k, call);
        assert p.tasks + r.started == p.tasks;
      }
    }
  }

  lemma NavigationKeeps(q: Quality, p: Project, key: Option<nat>)
    requires ProjectOk(p)
    ensures ProjectOk(Next(q, p, NextAction(key)))
  {
    hide EpicOk, Navigate, ResolveEpicForNext;
    var r := ResolveEpicForNext(p.epics, key);
    if r.Ok? && r.value.Some? && r.value.value < |p.epics| {
      var e := p.epics[r.value.value];
      NavigateKeeps(p.tasks, e, p.repo);
      DriftTaskMeansExecuting(p.tasks, e);
      var e' := Navigate(e, p.tasks, p.repo).epic;
      if Executing(e'.status) { NavigateStaysPut(e, p.tasks, p.repo); }
      ReplacedEpicKeepsOne(p.epics, r.value.value, e');
    }
  }

  lemma WorkEvolves(tasks: seq<Task>, i: nat, task: Task)
    requires TasksOk(tasks) && OpenTask(tasks) == Some(i) && SameRow(tasks[i], task)
    ensures TasksOk(tasks[i := task]) && Evolves(tasks, tasks[i := task])
  {
  }

  lemma EventsEvolve(tasks: seq<Task>, i: nat, task: Task)
    requires TasksOk(tasks) && i < |tasks|
    requires task == tasks[i].(knowledge := task.knowledge, maps := task.maps)
    requires tasks[i].knowledge <= task.knowledge && tasks[i].maps <= task.maps
    ensures TasksOk(tasks[i := task]) && Evolves(tasks, tasks[i := task])
  {
  }

  lemma EnvironmentEvolves(q: Quality, p: Project, step: Step)
    requires p.repo != "" && TasksOk(p.tasks) && !step.CreateEpic? && !step.OnEpic? && !step.NextAction?
    ensures var p' := Next(q, p, step);
            p'.repo != "" && TasksOk(p'.tasks) && Evolves(p.tasks, p'.tasks) && p'.epics == p.epics
  {
    hide TasksOk, Evolves;
    EvolvesReflexively(p.tasks);
    match step {
      case OpenStandalone => if OpenTask(p.tasks).None? { TasksAppended(p.tasks, p.repo); }
      case WorkOnTask(task) =>
        var open := OpenTask(p.tasks);
        if open.Some? && SameRow(p.tasks[open.value], task) { WorkEvolves(p.tasks, open.value, task); }
      case PublishKnowledge(t, _) => if t < |p.tasks| { EventsEvolve(p.tasks, t, Next(q, p, step).tasks[t]); }
      case CheckMap(t, _) => if t < |p.tasks| { EventsEvolve(p.tasks, t, Next(q, p, step).tasks[t]); }
      case ChangeWorktree(_) =>
    }
  }

  lemma EvolvesReflexively(a: seq<Task>)
    ensures Evolves(a, a)
  {
  }

  lemma StepKeeps(q: Quality, p: Project, step: Step)
    requires ProjectOk(p)
    ensures ProjectOk(Next(q, p, step))
  {
    hide EpicOk, TasksOk, Evolves, Next;
    match step {
      case CreateEpic(title, spec) => CreationKeeps(q, p, title, spec);
      case OnEpic(k, call) => CallKeeps(q, p, k, call);
      case NextAction(key) => NavigationKeeps(q, p, key);
      case _ =>
        EnvironmentEvolves(q, p, step);
        forall i | 0 <= i < |p.epics| ensures EpicOk(Next(q, p, step).tasks, p.epics[i]) {
          EpicIsKept(p.tasks, Next(q, p, step).tasks, p.epics[i]);
        }
    }
  }

  lemma CreationKeeps(q: Quality, p: Project, title: string, spec: string)
    requires ProjectOk(p)
    ensures ProjectOk(Next(q, p, CreateEpic(title, spec)))
  {
    hide EpicOk, TasksOk, BoundedText;
    if Create(title, spec).Ok? {
      CreateKeeps(p.tasks, title, spec);
    }
  }

  lemma {:induction false} RunKeeps(q: Quality, p: Project, steps: seq<Step>)
    requires ProjectOk(p)
    ensures ProjectOk(Run(q, p, steps))
    decreases |steps|
  {
    if steps != [] {
      StepKeeps(q, p, steps[0]);
      RunKeeps(q, Next(q, p, steps[0]), steps[1..]);
    }
  }

  lemma EveryReachableProjectIsOk(q: Quality, p: Project)
    requires Reachable(q, p)
    ensures ProjectOk(p)
  {
    var p0, steps :| Initial(p0) && p == Run(q, p0, steps);
    RunKeeps(q, p0, steps);
  }
}
