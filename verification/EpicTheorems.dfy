/** What holds of every reachable project, and of every step from one. */
module EpicTheorems {
  import opened Epics
  import opened Options
  import opened TaskBoundary
  import opened EpicLifecycle
  import opened EpicPlanning
  import opened EpicExecution
  import opened EpicReview
  import opened EpicNavigation
  import opened EpicInvariants
  import opened EpicRuns
  import SpecEditor

  // Plans

  /** In every reachable state a plan has its shape, and a blocked item means that its Epic is blocked. */
  lemma PlanShape(q: Quality, p: Project, k: nat)
    requires Reachable(q, p) && k < |p.epics|
    ensures PlanOk(p.epics[k].plan)
    ensures !NoBlockedItem(p.epics[k].plan) ==> p.epics[k].status.Blocked? && p.epics[k].reason.TaskEnded?
  {
    EveryReachableProjectIsOk(q, p);
    assert EpicOk(p.tasks, p.epics[k]);
  }

  /** The Epic's Task ended without completing: it is blocked for that, or its Phase 0 Task was cancelled. */
  predicate DeadEnd(tasks: seq<Task>, e: Epic) {
    || (e.status.Blocked? && e.reason.TaskEnded?)
    || (e.status.Phase0? && IsTask(tasks, e.phase0Task) && tasks[e.phase0Task.value].status.TaskCancelled?)
  }

  lemma DeadEndTakesNoCall(q: Quality, p: Project, k: nat, call: Call)
    requires k < |p.epics| && EpicOk(p.tasks, p.epics[k]) && DeadEnd(p.tasks, p.epics[k])
    ensures Perform(q, p, k, call).Err?
  {
    hide SpecsOk, PlanOk, DigestOk, DoneOk, Recorded, Detect;
  }

  lemma DeadEndIsNotNavigated(e: Epic, tasks: seq<Task>, repo: Digest)
    requires EpicOk(tasks, e) && DeadEnd(tasks, e)
    ensures Navigate(e, tasks, repo).epic == e
  {
    hide SpecsOk, PlanOk, DigestOk, DoneOk, RunningNavigation;
  }

  lemma DeadEndStays(a: seq<Task>, b: seq<Task>, e: Epic)
    requires Evolves(a, b) && DeadEnd(a, e)
    ensures DeadEnd(b, e)
  {
    if e.status.Phase0? && IsTask(a, e.phase0Task) {
      assert TaskEvolves(a[e.phase0Task.value], b[e.phase0Task.value]);
    }
  }

  lemma TasksEvolve(q: Quality, p: Project, step: Step)
    requires ProjectOk(p)
    ensures Evolves(p.tasks, Next(q, p, step).tasks)
  {
    hide EpicOk, TasksOk, Perform, Navigate, ResolveEpicForNext, AtMostOneExecuting;
    match step {
      case OnEpic(k, call) =>
        if k < |p.epics| && Perform(q, p, k, call).Ok? { StartedTasksEvolve(q, p, k, call); }
      case CreateEpic(_, _) => EvolvesReflexively(p.tasks);
      case NextAction(_) => EvolvesReflexively(p.tasks);
      case _ => EnvironmentEvolves(q, p, step);
    }
    EvolvesReflexively(p.tasks);
  }

  lemma StartedTasksEvolve(q: Quality, p: Project, k: nat, call: Call)
    requires ProjectOk(p) && k < |p.epics| && Perform(q, p, k, call).Ok?
    ensures Evolves(p.tasks, p.tasks + Perform(q, p, k, call).value.started)
  {
    hide EpicOk, Perform;
    if call.CallStartNext? || call.CallStartDrift? {
      OpeningCallKeeps(q, p, k, call);
      TasksAppended(p.tasks, WorktreeAfter(p.repo, call));
    } else {
      QuietCallKeeps(q, p, k, call);
      assert p.tasks + Perform(q, p, k, call).value.started == p.tasks;
      EvolvesReflexively(p.tasks);
    }
  }

  /** An Epic whose Task ended without completing, in Phase 0 or later, is changed by no step. */
  lemma EndedTaskFreezesEpic(q: Quality, p: Project, k: nat, step: Step)
    requires ProjectOk(p) && k < |p.epics| && DeadEnd(p.tasks, p.epics[k])
    ensures k < |Next(q, p, step).epics| && Next(q, p, step).epics[k] == p.epics[k]
    ensures DeadEnd(Next(q, p, step).tasks, p.epics[k])
  {
    hide EpicOk, TasksOk, DeadEnd, Evolves, Perform, Navigate, ResolveEpicForNext;
    if step.OnEpic? && step.k == k { DeadEndTakesNoCall(q, p, k, step.call); }
    DeadEndIsNotNavigated(p.epics[k], p.tasks, p.repo);
    TasksEvolve(q, p, step);
    DeadEndStays(p.tasks, Next(q, p, step).tasks, p.epics[k]);
  }

  /** No Epic but k is executing, and the Phase 0 of none can be started. */
  ghost predicate OthersShutOut(q: Quality, p: Project, k: nat) {
    forall j: nat | j < |p.epics| && j != k :: ShutOut(q, p, j)
  }

  ghost predicate ShutOut(q: Quality, p: Project, j: nat)
    requires j < |p.epics|
  {
    !Executing(p.epics[j].status) && forall moved :: Perform(q, p, j, CallStartNext(moved)).Err?
  }

  /** Nor by any run. And it blocks the others for good. */
  lemma {:induction false} FrozenForever(q: Quality, p: Project, k: nat, steps: seq<Step>)
    requires ProjectOk(p) && k < |p.epics| && DeadEnd(p.tasks, p.epics[k])
    ensures var p' := Run(q, p, steps);
            k < |p'.epics| && p'.epics[k] == p.epics[k] && OthersShutOut(q, p', k)
    decreases |steps|
  {
    hide Next, ProjectOk, DeadEnd, OthersShutOut;
    if steps != [] {
      EndedTaskFreezesEpic(q, p, k, steps[0]);
      StepKeeps(q, p, steps[0]);
      FrozenForever(q, Next(q, p, steps[0]), k, steps[1..]);
    } else {
      DeadEndIsExecuting(p.tasks, p.epics[k]);
      OthersAreShutOut(q, p, k);
    }
  }

  lemma OthersAreShutOut(q: Quality, p: Project, k: nat)
    requires ProjectOk(p) && k < |p.epics| && Executing(p.epics[k].status)
    ensures OthersShutOut(q, p, k)
  {
    hide ProjectOk;
    forall j: nat | j < |p.epics| && j != k ensures ShutOut(q, p, j) {
      OthersCannotStart(q, p, k, j, None);
      forall moved ensures Perform(q, p, j, CallStartNext(moved)).Err? {
        OthersCannotStart(q, p, k, j, moved);
      }
    }
  }

  lemma DeadEndIsExecuting(tasks: seq<Task>, e: Epic)
    requires DeadEnd(tasks, e)
    ensures Executing(e.status)
  {
  }

  /** While one Epic is executing no other is, and no other can start. */
  lemma OthersCannotStart(q: Quality, p: Project, k: nat, j: nat, moved: Option<Digest>)
    requires ProjectOk(p) && k < |p.epics| && j < |p.epics| && j != k && Executing(p.epics[k].status)
    ensures !Executing(p.epics[j].status) && Perform(q, p, j, CallStartNext(moved)).Err?
  {
    hide EpicOk, TasksOk;
    assert !Executing(p.epics[j].status) by {
      if j < k { NotBothExecuting(p.epics, j, k); } else { NotBothExecuting(p.epics, k, j); }
    }
  }

  // An intervening review that nothing explains

  predicate EngineStep(step: Step) { step.CreateEpic? || step.OnEpic? || step.NextAction? }

  /** The Epic waits for a review of intervening Tasks, and completed Tasks do not explain the repository (any more). */
  predicate Unexplainable(p: Project, k: nat) {
    k < |p.epics| && AwaitsReview(p.epics[k]) && Detect(p.epics[k], p.tasks, p.repo).Unexplained?
  }

  lemma UnexplainableTakesNoCall(q: Quality, p: Project, k: nat, call: Call)
    requires Unexplainable(p, k) && EpicOk(p.tasks, p.epics[k])
    ensures Perform(q, p, k, call).Err?
  {
    hide SpecsOk, PlanOk, LinksOk, DigestOk, DoneOk, Recorded, Detect;
  }

  lemma BystandersOpenNothing(q: Quality, p: Project, k: nat, j: nat, call: Call)
    requires ProjectOk(p) && k < |p.epics| && Executing(p.epics[k].status) && j < |p.epics| && j != k
    requires Perform(q, p, j, call).Ok?
    ensures Perform(q, p, j, call).value.started == [] && WorktreeAfter(p.repo, call) == p.repo
  {
    hide EpicOk, TasksOk;
    OthersCannotStart(q, p, k, j, if call.CallStartNext? then call.moved else None);
    if !call.CallStartNext? && !call.CallStartDrift? { QuietCallKeeps(q, p, j, call); }
  }

  lemma UnexplainableStays(q: Quality, p: Project, k: nat, step: Step)
    requires ProjectOk(p) && Unexplainable(p, k) && EngineStep(step)
    ensures var p' := Next(q, p, step);
            k < |p'.epics| && p'.epics[k] == p.epics[k] && p'.tasks == p.tasks && p'.repo == p.repo
  {
    hide EpicOk, TasksOk, Perform, Navigate, ResolveEpicForNext, Detect, AtMostOneExecuting;
    if step.OnEpic? && step.k == k {
      UnexplainableTakesNoCall(q, p, k, step.call);
    } else if step.OnEpic? && step.k < |p.epics| && Perform(q, p, step.k, step.call).Ok? {
      BystandersOpenNothing(q, p, k, step.k, step.call);
    } else if step.NextAction? {
      ReviewIsNotNavigated(p.epics[k], p.tasks, p.repo);
    }
  }

  lemma ReviewIsNotNavigated(e: Epic, tasks: seq<Task>, repo: Digest)
    requires AwaitsReview(e)
    ensures Navigate(e, tasks, repo) == Navigated(e, ReviewInterveningTasks)
  {
    hide RunningNavigation;
  }

  /** While nothing explains the repository, no sequence of engine calls moves the Epic, `next_action` included,
      and no other Epic can start: only a change outside the engine does. */
  lemma {:induction false} UnexplainedReviewFreezes(q: Quality, p: Project, k: nat, steps: seq<Step>)
    requires ProjectOk(p) && Unexplainable(p, k) && forall i | 0 <= i < |steps| :: EngineStep(steps[i])
    ensures var p' := Run(q, p, steps);
            k < |p'.epics| && p'.epics[k] == p.epics[k] && Unexplainable(p', k) && OthersShutOut(q, p', k)
    decreases |steps|
  {
    hide Next, ProjectOk, OthersShutOut, Detect;
    if steps != [] {
      UnexplainableStays(q, p, k, steps[0]);
      StepKeeps(q, p, steps[0]);
      UnexplainedReviewFreezes(q, Next(q, p, steps[0]), k, steps[1..]);
    } else {
      OthersAreShutOut(q, p, k);
    }
  }

  /** An Epic that waits for the review takes some call if and only if completed Tasks explain the repository. */
  lemma ReviewMovesIffExplained(q: Quality, p: Project, k: nat)
    requires ProjectOk(p) && k < |p.epics| && AwaitsReview(p.epics[k])
    ensures (exists call :: Perform(q, p, k, call).Ok?) <==> Detect(p.epics[k], p.tasks, p.repo).Explained?
  {
    hide EpicOk, TasksOk, AtMostOneExecuting, Detect;
    var e := p.epics[k];
    if Detect(e, p.tasks, p.repo).Explained? {
      var texts := ReviewTexts("x", "", "");
      assert CheckedReview(texts).Ok?;
      assert Perform(q, p, k, CallRecordReview(Detect(e, p.tasks, p.repo).tasks, Unaffected, false, texts)).Ok?;
    } else {
      forall call ensures Perform(q, p, k, call).Err? {
        UnexplainableTakesNoCall(q, p, k, call);
      }
    }
  }

  lemma {:induction false} RunAppends(q: Quality, p: Project, steps: seq<Step>, step: Step)
    ensures Run(q, p, steps + [step]) == Next(q, Run(q, p, steps), step)
    decreases |steps|
  {
    hide Next;
    if steps != [] {
      assert (steps + [step])[1..] == steps[1..] + [step];
      RunAppends(q, Next(q, p, steps[0]), steps[1..], step);
    } else {
      assert steps + [step] == [step];
    }
  }

  lemma StaysReachable(q: Quality, p: Project, step: Step)
    requires Reachable(q, p)
    ensures Reachable(q, Next(q, p, step))
  {
    hide Next;
    var p0, steps :| Initial(p0) && p == Run(q, p0, steps);
    RunAppends(q, p0, steps, step);
    assert Next(q, p, step) == Run(q, p0, steps + [step]);
  }

  /** The plan that `set_plan` stores: the finished analysis, the given items in order, the closure. */
  lemma PlanAsGiven(e: Epic, items: seq<WorkText>, i: nat)
    requires SetPlan(e, items).Ok? && i < |items|
    ensures var e' := SetPlan(e, items).value;
            && |e'.plan| == |items| + 2 <= MAX_EPIC_PLAN_ITEMS
            && NormalizedText(items[i]) == Ok(e'.plan[i + 1].text)
            && e'.plan[i + 1].kind.Work? && e'.plan[i + 1].status.ItemPending?
            && e'.plan[0].task == e.phase0Task && e'.plan[|items| + 1].kind.Final?
  {
    hide NormalizedText;
    NormalizedInOrder(items, i);
  }

  lemma {:induction false} NormalizedInOrder(items: seq<WorkText>, i: nat)
    requires NormalizedTexts(items).Ok? && i < |items|
    ensures NormalizedText(items[i]) == Ok(NormalizedTexts(items).value[i])
    decreases |items|
  {
    hide NormalizedText;
    if i < |items| - 1 {
      NormalizedInOrder(items[..|items| - 1], i);
    }
  }

  // Specifications

  /** In every reachable state: versions 1 to current, no versions approved or executed in a draft, the
      execution version current from the first reconciliation on and the approved one at most that. */
  lemma SpecHistory(q: Quality, p: Project, k: nat)
    requires Reachable(q, p) && k < |p.epics|
    ensures SpecsOk(p.epics[k])
  {
    EveryReachableProjectIsOk(q, p);
    assert EpicOk(p.tasks, p.epics[k]);
  }

  predicate Extends(a: map<nat, string>, b: map<nat, string>) {
    forall v | v in a :: v in b && b[v] == a[v]
  }

  lemma PersistKeepsHistory(e: Epic, content: string, note: Note)
    requires SpecsOk(e) && PersistManualRevision(e, content, note).Ok?
    ensures Extends(e.specs, PersistManualRevision(e, content, note).value.specs)
  {
    hide BoundedText;
  }

  lemma ReconcileKeepsHistory(e: Epic, tasks: seq<Task>, f: Findings)
    requires SpecsOk(e) && Reconcile(e, tasks, f).Ok?
    ensures Extends(e.specs, Reconcile(e, tasks, f).value.specs) && Reconcile(e, tasks, f).value.approved == e.approved
  {
    hide BoundedText, NormalizedWork, First, WithStatus, WithoutPending, MaxOrdinal, WorkItems, Accepted;
  }

  lemma PerformKeepsHistory(q: Quality, p: Project, k: nat, call: Call)
    requires k < |p.epics| && EpicOk(p.tasks, p.epics[k]) && Perform(q, p, k, call).Ok?
    ensures Extends(p.epics[k].specs, Perform(q, p, k, call).value.epic.specs)
    ensures !Revisable(p.epics[k]) ==> Perform(q, p, k, call).value.epic.approved == p.epics[k].approved
  {
    hide SpecsOk, PlanOk, LinksOk, DigestOk, DoneOk, PhaseOk, BoundedText, EditedContent, NormalizedWork, Detect,
         CheckedReview, BeginStart, BeginDrift, PersistManualRevision, Reconcile, Extends;
    var e := p.epics[k];
    match call {
      case CallRevise(spec, note) => PersistKeepsHistory(e, BoundedText(spec, MAX_EPIC_SPEC_CHARS, true).value, note);
      case CallEdit(_, edits, note) => PersistKeepsHistory(e, EditedContent(CurrentSpec(e).value, edits).value, note);
      case CallReconcile(f) => ReconcileKeepsHistory(e, p.tasks, f);
      case _ => ExtendsReflexively(e.specs);
    }
  }

  lemma ExtendsReflexively(a: map<nat, string>)
    ensures Extends(a, a)
  {
  }

  lemma NavigateKeepsHistory(e: Epic, tasks: seq<Task>, repo: Digest)
    ensures Navigate(e, tasks, repo).epic.specs == e.specs && Navigate(e, tasks, repo).epic.approved == e.approved
  {
    hide Accepted, DocsUpdated, KnowledgePublished, MapReconciled, First, Detect, StandaloneOpen, PendingNavigation,
        MaxOrdinal;
  }

  /** No step alters a stored version, and none touches the approved version once execution began. */
  lemma StepKeepsHistory(q: Quality, p: Project, k: nat, step: Step)
    requires ProjectOk(p) && k < |p.epics|
    ensures k < |Next(q, p, step).epics| && Extends(p.epics[k].specs, Next(q, p, step).epics[k].specs)
    ensures !Revisable(p.epics[k]) ==> Next(q, p, step).epics[k].approved == p.epics[k].approved
  {
    hide EpicOk, Perform, Navigate, ResolveEpicForNext, TasksOk;
    if step.OnEpic? && step.k == k && Perform(q, p, k, step.call).Ok? {
      PerformKeepsHistory(q, p, k, step.call);
    } else if step.NextAction? {
      NavigateKeepsHistory(p.epics[k], p.tasks, p.repo);
    }
  }

  lemma {:induction false} ContentsAreNeverAltered(q: Quality, p: Project, k: nat, steps: seq<Step>)
    requires ProjectOk(p) && k < |p.epics|
    ensures k < |Run(q, p, steps).epics| && Extends(p.epics[k].specs, Run(q, p, steps).epics[k].specs)
    decreases |steps|
  {
    hide Next, ProjectOk;
    if steps != [] {
      StepKeeps(q, p, steps[0]);
      StepKeepsHistory(q, p, k, steps[0]);
      ContentsAreNeverAltered(q, Next(q, p, steps[0]), k, steps[1..]);
    }
  }

  /** A successful `edit_spec` turns exactly the version its caller named into the successor of that
      version, or leaves the Epic as it was when the edits come to nothing. */
  lemma EditTurnsNamedVersion(q: Quality, p: Project, k: nat, expected: int, edits: seq<SpecEditor.Edit>, note: Note)
    requires Reachable(q, p) && k < |p.epics| && Perform(q, p, k, CallEdit(expected, edits, note)).Ok?
    ensures var e, e' := p.epics[k], Perform(q, p, k, CallEdit(expected, edits, note)).value.epic;
            && 1 <= expected == e.current
            && EditedContent(e.specs[e.current], edits).Ok?
            && var content := EditedContent(e.specs[e.current], edits).value;
            && (content == e.specs[e.current] ==> e' == e)
            && (content != e.specs[e.current] ==>
                  && e'.current == expected + 1 && expected + 1 !in e.specs
                  && e'.specs == e.specs[expected + 1 := content]
                  && e'.status.Draft? && e'.approved == None)
  {
    hide EditedContent, BoundedText;
    EveryReachableProjectIsOk(q, p);
    assert EpicOk(p.tasks, p.epics[k]);
  }

  // Completion

  /** A completed or archived Epic has every item completed by a completed Task, and the Task of its last
      item, a final one, had changed documentation, published knowledge and a reconciled map. */
  lemma CompletedEpicsAreDone(q: Quality, p: Project, k: nat)
    requires Reachable(q, p) && k < |p.epics| && (p.epics[k].status.Completed? || p.epics[k].status.Archived?)
    ensures AllCompleted(p.epics[k].plan) && |p.epics[k].plan| >= 2
    ensures forall i | 0 <= i < |p.epics[k].plan| :: IsCompletedTask(p.tasks, p.epics[k].plan[i].task)
    ensures var last := p.epics[k].plan[|p.epics[k].plan| - 1];
            last.kind.Final? && IsTask(p.tasks, last.task) && Evidenced(p.tasks[last.task.value])
  {
    hide Evidenced;
    EveryReachableProjectIsOk(q, p);
    var e := p.epics[k];
    assert EpicOk(p.tasks, e);
    assert ItemPlaced(e.plan, 0) && ItemPlaced(e.plan, |e.plan| - 1);
    forall i | 0 <= i < |e.plan| ensures IsCompletedTask(p.tasks, e.plan[i].task) {
      assert ItemLinked(p.tasks, e.plan[i]);
    }
  }

  predicate ClosedBy(e: Epic, tasks: seq<Task>) {
    var active := First(e.plan, ItemActive);
    && InRun(e) && active.Some? && e.plan[active.value].kind.Final? && IsCompletedTask(tasks, e.plan[active.value].task)
    && var t := tasks[e.plan[active.value].task.value];
    && DocsUpdated(t) && KnowledgePublished(t) && MapReconciled(t)
  }

  lemma NavigateCompletes(e: Epic, tasks: seq<Task>, repo: Digest)
    requires !e.status.Completed? && Navigate(e, tasks, repo).epic.status.Completed?
    ensures ClosedBy(e, tasks)
  {
    hide Accepted, DocsUpdated, KnowledgePublished, MapReconciled, First, Detect;
  }

  /** Only the navigator completes an Epic, and only on all three pieces of evidence at once; only a
      completed Epic is archived; no Epic is ever cancelled. */
  lemma HowEpicsEnd(q: Quality, p: Project, k: nat, step: Step)
    requires Reachable(q, p) && k < |p.epics|
    ensures k < |Next(q, p, step).epics|
    ensures var e, e' := p.epics[k], Next(q, p, step).epics[k];
            && (e'.status.Completed? && !e.status.Completed? ==> step.NextAction? && ClosedBy(e, p.tasks))
            && (e'.status.Archived? && !e.status.Archived? ==> e.status.Completed? && step == OnEpic(k, CallArchive))
            && (e.status.Archived? ==> e' == e)
            && !e'.status.Cancelled?
  {
    hide EpicOk, Perform, Navigate, ResolveEpicForNext, ClosedBy, TasksOk;
    EveryReachableProjectIsOk(q, p);
    StepKeeps(q, p, step);
    NeverCancelled(p.tasks, p.epics[k]);
    NeverCancelled(Next(q, p, step).tasks, Next(q, p, step).epics[k]);
    if step.OnEpic? && step.k == k && Perform(q, p, k, step.call).Ok? {
      CallsDoNotEnd(q, p, k, step.call);
    } else if step.NextAction? {
      NavigateDoesNotArchive(p.tasks, p.epics[k], p.repo);
      if !p.epics[k].status.Completed? && Navigate(p.epics[k], p.tasks, p.repo).epic.status.Completed? {
        NavigateCompletes(p.epics[k], p.tasks, p.repo);
      }
    }
  }

  lemma NeverCancelled(tasks: seq<Task>, e: Epic)
    requires EpicOk(tasks, e)
    ensures !e.status.Cancelled? && (e.status.Archived? ==> e.driftTask == None)
  {
    hide SpecsOk, PlanOk, LinksOk, DigestOk, DoneOk;
  }

  lemma CallsDoNotEnd(q: Quality, p: Project, k: nat, call: Call)
    requires k < |p.epics| && Perform(q, p, k, call).Ok?
    requires p.epics[k].status.Archived? ==> p.epics[k].driftTask == None
    ensures var e, e' := p.epics[k], Perform(q, p, k, call).value.epic;
            && !e.status.Archived?
            && (e'.status.Archived? ==> e.status.Completed? && call.CallArchive?)
            && (e'.status.Completed? ==> e.status.Completed?)
  {
    hide BoundedText, EditedContent, Recorded, ReplacePendingWork, NormalizedWork, Detect, CheckedReview;
  }

  lemma NavigateDoesNotArchive(tasks: seq<Task>, e: Epic, repo: Digest)
    requires e.status.Archived? ==> e.driftTask == None
    ensures Navigate(e, tasks, repo).epic.status.Archived? ==> Navigate(e, tasks, repo).epic == e
    ensures e.status.Archived? ==> Navigate(e, tasks, repo).epic == e
  {
    hide Accepted, DocsUpdated, KnowledgePublished, MapReconciled, First, Detect;
  }

  // Execution

  lemma NotBothExecuting(epics: seq<Epic>, i: nat, j: nat)
    requires AtMostOneExecuting(epics) && i < j < |epics|
    ensures !(IsExecuting(epics, i) && IsExecuting(epics, j))
  {
  }

  lemma AtMostOneIsFound(epics: seq<Epic>)
    requires AtMostOneExecuting(epics)
    ensures |ExecutingEpics(epics)| <= 1
  {
    hide AtMostOneExecuting;
    var ids := ExecutingEpics(epics);
    if |ids| > 1 {
      NotBothExecuting(epics, ids[0], ids[1]);
    }
  }

  /** At most one Epic is executing, so the navigator never finds several. */
  lemma NavigatorNeverFindsSeveral(q: Quality, p: Project, key: Option<nat>)
    requires Reachable(q, p)
    ensures AtMostOneExecuting(p.epics) && ResolveEpicForNext(p.epics, key) != Err(SeveralExecuting)
  {
    EveryReachableProjectIsOk(q, p);
    AtMostOneIsFound(p.epics);
  }

  /** The execution digest is empty before the first reconciliation and never after it, and then is where a
      completed Task of the project was accepted. No linked Task is ever missing. */
  lemma DigestProvenance(q: Quality, p: Project, k: nat)
    requires Reachable(q, p) && k < |p.epics|
    ensures p.epics[k].digest == "" <==> BeforeExecution(p.epics[k].status)
    ensures p.epics[k].digest != "" ==> IsAccepted(p.tasks, p.epics[k].digest)
    ensures p.epics[k].status.Blocked? ==> !p.epics[k].reason.TaskMissing?
  {
    EveryReachableProjectIsOk(q, p);
    assert EpicOk(p.tasks, p.epics[k]);
  }

  /** A plan item's start passes the boundary check: the repository it saw is the execution digest, an accepted
      one. The new Task's baseline is that digest if and only if the worktree did not change between the check
      and the moment `create_task` records the baseline. */
  lemma ItemsStartAtTheBoundary(q: Quality, p: Project, k: nat, moved: Option<Digest>)
    requires Reachable(q, p) && k < |p.epics| && InRun(p.epics[k]) && Perform(q, p, k, CallStartNext(moved)).Ok?
    ensures var r := Perform(q, p, k, CallStartNext(moved)).value;
            && |r.started| == 1 && p.repo == p.epics[k].digest && IsAccepted(p.tasks, p.repo)
            && (r.started[0].baseline == p.epics[k].digest <==> WorktreeAfter(p.repo, CallStartNext(moved)) == p.repo)
  {
    DigestProvenance(q, p, k);
  }
}
