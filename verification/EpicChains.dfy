/** What links consecutive plan items of a guided run: accepted Tasks, up to the repository that the second
    item's boundary check saw. */
module EpicChains {
  import opened Epics
  import opened Options
  import opened TaskBoundary
  import opened EpicLifecycle
  import opened EpicPlanning
  import opened EpicExecution
  import opened EpicReview
  import opened EpicNavigation
  import opened EpicInvariants
  import opened EpicPreservation
  import opened EpicRuns
  import opened EpicTheorems
  import opened EpicGuidedRuns

  // What each Task's opening saw

  /** The repositories seen, after a step: one more if the step opened a Task. */
  function SeenAfter(q: Quality, p: Project, seen: seq<Digest>, step: Step): seq<Digest> {
    if |Next(q, p, step).tasks| > |p.tasks| then seen + [p.repo] else seen
  }

  function Seen(q: Quality, p: Project, seen: seq<Digest>, steps: seq<Step>): seq<Digest>
    decreases |steps|
  {
    if steps == [] then seen else Seen(q, Next(q, p, steps[0]), SeenAfter(q, p, seen, steps[0]), steps[1..])
  }

  // Steps keep the chain

  lemma EarlyIsGuided(tasks: seq<Task>, seen: seq<Digest>, e: Epic)
    requires |seen| == |tasks| && EpicOk(tasks, e) && BeforeExecution(e.status)
    ensures GuidedOk(tasks, seen, e)
  {
    hide SpecsOk, LinksOk, DigestOk, DoneOk;
    NothingStarted(tasks, seen, e);
  }

  lemma DriftIsNewest(tasks: seq<Task>, seen: seq<Digest>, e: Epic, repo: Digest)
    requires EpicOk(tasks, e) && GuidedOk(tasks, seen, e) && StartDrift(e, tasks, repo).Ok?
    ensures GuidedOk(tasks + [NewTask(repo)], seen + [repo], StartDrift(e, tasks, repo).value.epic)
  {
    hide SpecsOk, PlanOk, DigestOk, DoneOk, Chained, PairChained;
    var e' := StartDrift(e, tasks, repo).value.epic;
    assert Evolves(tasks, tasks + [NewTask(repo)]);
    forall i: nat | i < |e.plan| && HasTask(e.plan[i]) ensures e.plan[i].task.value < |tasks| {
      assert ItemLinked(tasks, e.plan[i]);
    }
    GuidedIsKept(tasks, tasks + [NewTask(repo)], seen, seen + [repo], e, e');
  }

  lemma GuidedStart(q: Quality, p: Project, seen: seq<Digest>, k: nat, call: Call)
    requires ProjectOk(p) && k < |p.epics| && GuidedOk(p.tasks, seen, p.epics[k]) && call.CallStartNext?
    requires Guided(p, OnEpic(k, call)) && Perform(q, p, k, call).Ok?
    ensures GuidedOk(p.tasks + [NewTask(WorktreeAfter(p.repo, call))], seen + [p.repo],
        Perform(q, p, k, call).value.epic)
  {
    hide GuidedOk, EpicOk, Navigate, TasksOk;
    var e := p.epics[k];
    var captured := WorktreeAfter(p.repo, call);
    if InRun(e) {
      NamedMeansNoneActive(e, p.tasks, p.repo);
      var i := First(e.plan, ItemPending).value;
      DigestIsSet(p.tasks, e);
      ItemStarted(p.tasks, seen, e, captured, i, Perform(q, p, k, call).value.epic);
    } else {
      OpeningCallKeeps(q, p, k, call);
      OneActiveOf(p.tasks, seen, e);
      EarlyIsGuided(p.tasks + [NewTask(captured)], seen + [p.repo], Perform(q, p, k, call).value.epic);
    }
  }

  lemma DigestIsSet(tasks: seq<Task>, e: Epic)
    requires EpicOk(tasks, e) && InRun(e)
    ensures e.digest != ""
  {
  }

  lemma GuidedOpening(q: Quality, p: Project, seen: seq<Digest>, k: nat, call: Call)
    requires ProjectOk(p) && k < |p.epics| && GuidedOk(p.tasks, seen, p.epics[k]) && IsStart(call)
    requires Guided(p, OnEpic(k, call)) && Perform(q, p, k, call).Ok?
    ensures GuidedOk(p.tasks + Perform(q, p, k, call).value.started, seen + [p.repo], Perform(q, p, k, call).value.epic)
  {
    hide EpicOk, GuidedOk, TasksOk, Guided, StartDrift, StartNext;
    OpeningCallKeeps(q, p, k, call);
    if call.CallStartNext? {
      GuidedStart(q, p, seen, k, call);
    } else {
      DriftIsNewest(p.tasks, seen, p.epics[k], p.repo);
    }
  }

  lemma GuidedQuietCall(q: Quality, p: Project, seen: seq<Digest>, k: nat, call: Call)
    requires ProjectOk(p) && k < |p.epics| && GuidedOk(p.tasks, seen, p.epics[k]) && !IsStart(call)
    requires Perform(q, p, k, call).Ok?
    ensures GuidedOk(p.tasks, seen, Perform(q, p, k, call).value.epic)
  {
    hide EpicOk, GuidedOk, TasksOk, ReviseSpec, EditSpec, Approve, Reconcile, SetPlan, RecordReview;
    var e := p.epics[k];
    var r := Perform(q, p, k, call).value;
    QuietCallKeeps(q, p, k, call);
    match call {
      case CallReconcile(f) => Reconciled(p.tasks, seen, e, f);
      case CallSetPlan(items) => PlanSet(p.tasks, seen, e, items);
      case CallRecordReview(keys, outcome, affected, texts) =>
        Reviewed(p.tasks, seen, e, p.repo, keys, outcome, affected, texts);
      case CallArchive => StatusOnly(p.tasks, seen, e, r.epic);
      case _ =>
        ManualCallsAreEarly(q, p, k, call);
        OneActiveOf(p.tasks, seen, e);
        EarlyIsGuided(p.tasks, seen, r.epic);
    }
  }

  lemma ManualCallsAreEarly(q: Quality, p: Project, k: nat, call: Call)
    requires k < |p.epics| && (call.CallRevise? || call.CallEdit? || call.CallApprove?) && Perform(q, p, k, call).Ok?
    ensures BeforeExecution(Perform(q, p, k, call).value.epic.status)
  {
    hide BoundedText, EditedContent;
  }

  ghost predicate ProjectGuided(p: Project, seen: seq<Digest>) {
    ProjectOk(p) && |seen| == |p.tasks| && forall k | 0 <= k < |p.epics| :: GuidedOk(p.tasks, seen, p.epics[k])
  }

  /** The other Epics, when Tasks have moved on. */
  lemma OthersAreKept(p: Project, seen: seq<Digest>, tasks: seq<Task>, seen': seq<Digest>)
    requires ProjectGuided(p, seen) && Evolves(p.tasks, tasks) && seen <= seen' && |seen'| == |tasks|
    ensures forall k | 0 <= k < |p.epics| :: GuidedOk(tasks, seen', p.epics[k])
  {
    hide GuidedOk, Evolves, ProjectOk;
    forall k | 0 <= k < |p.epics| ensures GuidedOk(tasks, seen', p.epics[k]) {
      EpicIsKeptGuided(p, seen, tasks, seen', k);
    }
  }

  lemma EpicIsKeptGuided(p: Project, seen: seq<Digest>, tasks: seq<Task>, seen': seq<Digest>, k: nat)
    requires ProjectGuided(p, seen) && Evolves(p.tasks, tasks) && seen <= seen' && |seen'| == |tasks| && k < |p.epics|
    ensures GuidedOk(tasks, seen', p.epics[k])
  {
    hide PairChained, Chained, EpicOk, TasksOk, Accepted;
    GuidedIsKept(p.tasks, tasks, seen, seen', p.epics[k], p.epics[k]);
  }

  lemma GuidedCallKeeps(q: Quality, p: Project, seen: seq<Digest>, k: nat, call: Call)
    requires ProjectGuided(p, seen) && Guided(p, OnEpic(k, call))
    ensures ProjectGuided(Next(q, p, OnEpic(k, call)), SeenAfter(q, p, seen, OnEpic(k, call)))
  {
    hide EpicOk, GuidedOk, TasksOk, Guided, Perform, Evolves, AtMostOneExecuting;
    StepKeeps(q, p, OnEpic(k, call));
    if k < |p.epics| && Perform(q, p, k, call).Ok? {
      var r := Perform(q, p, k, call).value;
      if IsStart(call) {
        OpeningCallKeeps(q, p, k, call);
        GuidedOpening(q, p, seen, k, call);
        TasksAppended(p.tasks, WorktreeAfter(p.repo, call));
        OthersAreKept(p, seen, p.tasks + r.started, seen + [p.repo]);
      } else {
        QuietCallKeeps(q, p, k, call);
        GuidedQuietCall(q, p, seen, k, call);
        assert p.tasks + r.started == p.tasks;
      }
    }
  }

  lemma GuidedNavigationKeeps(q: Quality, p: Project, seen: seq<Digest>, key: Option<nat>)
    requires ProjectGuided(p, seen)
    ensures ProjectGuided(Next(q, p, NextAction(key)), SeenAfter(q, p, seen, NextAction(key)))
  {
    hide EpicOk, GuidedOk, TasksOk, AtMostOneExecuting, Navigate, ResolveEpicForNext;
    StepKeeps(q, p, NextAction(key));
    forall k | 0 <= k < |p.epics| ensures GuidedOk(p.tasks, seen, Navigate(p.epics[k], p.tasks, p.repo).epic) {
      GuidedNavigation(p.tasks, seen, p.epics[k], p.repo);
    }
  }

  lemma GuidedStepKeeps(q: Quality, p: Project, seen: seq<Digest>, step: Step)
    requires ProjectGuided(p, seen) && Guided(p, step)
    ensures ProjectGuided(Next(q, p, step), SeenAfter(q, p, seen, step))
  {
    hide EpicOk, GuidedOk, TasksOk, Guided, Perform, Evolves, AtMostOneExecuting, Navigate, ResolveEpicForNext;
    StepKeeps(q, p, step);
    match step {
      case OnEpic(k, call) => GuidedCallKeeps(q, p, seen, k, call);
      case NextAction(key) => GuidedNavigationKeeps(q, p, seen, key);
      case CreateEpic(title, spec) =>
        if Create(title, spec).Ok? {
          CreateKeeps(p.tasks, title, spec);
          EarlyIsGuided(p.tasks, seen, Create(title, spec).value);
        }
      case _ =>
        EnvironmentEvolves(q, p, step);
        OthersAreKept(p, seen, Next(q, p, step).tasks, SeenAfter(q, p, seen, step));
    }
  }

  lemma {:induction false} GuidedRunKeeps(q: Quality, p: Project, seen: seq<Digest>, steps: seq<Step>)
    requires ProjectGuided(p, seen) && GuidedRun(q, p, steps)
    ensures ProjectGuided(Run(q, p, steps), Seen(q, p, seen, steps))
    decreases |steps|
  {
    hide Next, ProjectGuided, Guided, SeenAfter;
    if steps != [] {
      GuidedStepKeeps(q, p, seen, steps[0]);
      GuidedRunKeeps(q, Next(q, p, steps[0]), SeenAfter(q, p, seen, steps[0]), steps[1..]);
    }
  }

  // Which step opened an item's Task

  /** From row to row no item behind the first gets a Task. */
  predicate NoNewTasks(e: Epic, e': Epic) {
    forall j: nat | 1 <= j < |e'.plan| && HasTask(e'.plan[j]) :: j < |e.plan| && e'.plan[j].task == e.plan[j].task
  }

  lemma ReplanningGivesNoTasks(tasks: seq<Task>, e: Epic, f: Findings)
    requires EpicOk(tasks, e) && TasksOk(tasks) && Reconcile(e, tasks, f).Ok?
    ensures NoNewTasks(e, Reconcile(e, tasks, f).value)
  {
    hide SpecsOk, PlanOk, LinksOk, DigestOk, DoneOk, Recorded, ReplacePendingWork, Accepted;
    var t := AnalysisTask(e).value;
    RecordedKeeps(tasks, e, t, f);
    var r := Recorded(e, tasks[t], f).value;
    if e.driftTask.Some? && !f.decisions && f.remaining.Some? {
      NothingBlockedInDrift(tasks, e);
      var c, work := ReplacedIsTail(r, f.remaining.value);
      TailIsUnstarted(e, c, work, e.planVersion + 1);
    }
  }

  lemma PlanningGivesNoTasks(e: Epic, items: seq<WorkText>)
    requires SetPlan(e, items).Ok?
    ensures NoNewTasks(e, SetPlan(e, items).value)
  {
    hide NormalizedWork;
  }

  lemma SettlingGivesNoTasks(e: Epic, tasks: seq<Task>, i: nat)
    requires i < |e.plan|
    ensures NoNewTasks(e, Settle(e, tasks, i).epic)
  {
    hide Accepted, DocsUpdated, KnowledgePublished, MapReconciled, MaxOrdinal;
  }

  lemma NavigatingGivesNoTasks(e: Epic, tasks: seq<Task>, repo: Digest)
    ensures NoNewTasks(e, Navigate(e, tasks, repo).epic)
  {
    hide Settle, StandaloneOpen, DriftAction, PendingNavigation, Phase0Navigation, ApprovedNavigation;
    var active := First(e.plan, ItemActive);
    if active.Some? {
      SettlingGivesNoTasks(e, tasks, active.value);
    }
  }

  /** Only the start of an item gives it a Task, and then it is the new one. */
  lemma StartingGivesTheNewTask(q: Quality, p: Project, k: nat, call: Call, j: nat)
    requires k < |p.epics| && IsStart(call) && Perform(q, p, k, call).Ok?
    requires var e' := Perform(q, p, k, call).value.epic; 1 <= j < |e'.plan| && HasTask(e'.plan[j])
    ensures var e, e' := p.epics[k], Perform(q, p, k, call).value.epic;
            || (j < |e.plan| && e'.plan[j].task == e.plan[j].task)
            || (call.CallStartNext? && InRun(e) && e'.plan[j].task == Some(|p.tasks|))
  {
    hide First;
  }

  predicate ItemTask(p: Project, k: nat, j: nat, t: nat) {
    k < |p.epics| && 1 <= j < |p.epics[k].plan| && p.epics[k].plan[j].task == Some(t)
  }

  /** The step starts a plan item of Epic k, with Task t. */
  predicate StartsItem(q: Quality, p: Project, step: Step, k: nat, t: nat) {
    && |p.tasks| == t && k < |p.epics| && InRun(p.epics[k])
    && step.OnEpic? && step.k == k && step.call.CallStartNext? && Perform(q, p, k, step.call).Ok?
  }

  lemma CallLinksItem(q: Quality, p: Project, k: nat, call: Call, j: nat, t: nat)
    requires ProjectOk(p) && k < |p.epics| && Perform(q, p, k, call).Ok?
    requires ItemTask(Next(q, p, OnEpic(k, call)), k, j, t)
    ensures ItemTask(p, k, j, t) || StartsItem(q, p, OnEpic(k, call), k, t)
  {
    hide EpicOk, TasksOk, AtMostOneExecuting, BoundedText, EditedContent, Detect, CheckedReview, Reconcile, SetPlan,
        StartNext, StartDrift;
    var e := p.epics[k];
    match call {
      case CallReconcile(f) => ReplanningGivesNoTasks(p.tasks, e, f);
      case CallSetPlan(items) => PlanningGivesNoTasks(e, items);
      case CallStartNext(_) => StartingGivesTheNewTask(q, p, k, call, j);
      case CallStartDrift => StartingGivesTheNewTask(q, p, k, call, j);
      case _ =>
    }
  }

  lemma StepLinksItem(q: Quality, p: Project, step: Step, k: nat, j: nat, t: nat)
    requires ProjectOk(p) && ItemTask(Next(q, p, step), k, j, t)
    ensures ItemTask(p, k, j, t) || StartsItem(q, p, step, k, t)
  {
    hide EpicOk, TasksOk, AtMostOneExecuting, Perform, Navigate, ResolveEpicForNext;
    if step.OnEpic? && step.k == k && k < |p.epics| && Perform(q, p, k, step.call).Ok? {
      CallLinksItem(q, p, k, step.call, j, t);
    } else if step.NextAction? && k < |p.epics| {
      NavigatingGivesNoTasks(p.epics[k], p.tasks, p.repo);
    } else if step.CreateEpic? && Create(step.title, step.spec).Ok? {
      assert Create(step.title, step.spec).value.plan == [];
    }
  }

  lemma TasksGrow(q: Quality, p: Project, step: Step)
    requires ProjectOk(p)
    ensures |p.tasks| <= |Next(q, p, step).tasks|
    ensures forall t | 0 <= t < |p.tasks| :: Next(q, p, step).tasks[t].baseline == p.tasks[t].baseline
  {
    hide Next, EpicOk, TasksOk;
    TasksEvolve(q, p, step);
    assert forall t | 0 <= t < |p.tasks| :: TaskEvolves(p.tasks[t], Next(q, p, step).tasks[t]);
  }

  /** Later steps neither link an item to an old Task nor alter what is known of that Task. */
  lemma {:induction false} OldTaskStays(q: Quality, p: Project, seen: seq<Digest>, steps: seq<Step>,
                                        k: nat, j: nat, t: nat)
    requires ProjectOk(p) && |seen| >= |p.tasks| > t
    ensures t < |Seen(q, p, seen, steps)| && Seen(q, p, seen, steps)[t] == seen[t]
    ensures t < |Run(q, p, steps).tasks| && Run(q, p, steps).tasks[t].baseline == p.tasks[t].baseline
    ensures ItemTask(Run(q, p, steps), k, j, t) ==> ItemTask(p, k, j, t)
    decreases |steps|
  {
    hide Next, ProjectOk, StartsItem;
    if steps != [] {
      var p' := Next(q, p, steps[0]);
      StepKeeps(q, p, steps[0]);
      TasksGrow(q, p, steps[0]);
      OneTaskAtATime(q, p, seen, steps[0]);
      OldTaskStays(q, p', SeenAfter(q, p, seen, steps[0]), steps[1..], k, j, t);
      if ItemTask(p', k, j, t) {
        StepLinksItem(q, p, steps[0], k, j, t);
        StartedTaskIsNew(q, p, steps[0], k, t);
      }
    }
  }

  lemma StartedTaskIsNew(q: Quality, p: Project, step: Step, k: nat, t: nat)
    ensures StartsItem(q, p, step, k, t) ==> t == |p.tasks|
  {
  }

  lemma OneTaskAtATime(q: Quality, p: Project, seen: seq<Digest>, step: Step)
    requires ProjectOk(p) && |seen| >= |p.tasks|
    ensures |SeenAfter(q, p, seen, step)| >= |Next(q, p, step).tasks| && seen <= SeenAfter(q, p, seen, step)
    ensures |seen| == |p.tasks| ==> |SeenAfter(q, p, seen, step)| == |Next(q, p, step).tasks|
    ensures |Next(q, p, step).tasks| <= |p.tasks| + 1
  {
    hide EpicOk, TasksOk, AtMostOneExecuting, Perform, Navigate, ResolveEpicForNext;
    if step.OnEpic? && step.k < |p.epics| && Perform(q, p, step.k, step.call).Ok? {
      if IsStart(step.call) {
        OpeningCallKeeps(q, p, step.k, step.call);
      } else {
        QuietCallKeeps(q, p, step.k, step.call);
      }
    }
  }

  /** Step n of the run starts a plan item of Epic k with Task t. */
  ghost predicate StartedAt(q: Quality, p: Project, steps: seq<Step>, n: nat, k: nat, t: nat) {
    n < |steps| && StartsItem(q, Run(q, p, steps[..n]), steps[n], k, t)
  }

  function Before(q: Quality, p: Project, steps: seq<Step>, n: nat): Project
    requires n < |steps|
  {
    Run(q, p, steps[..n])
  }

  lemma {:induction false} ItemWasStarted(q: Quality, p: Project, seen: seq<Digest>, steps: seq<Step>,
                                          k: nat, j: nat, t: nat) returns (n: nat)
    requires ProjectOk(p) && |seen| == |p.tasks| <= t && ItemTask(Run(q, p, steps), k, j, t)
    ensures StartedAt(q, p, steps, n, k, t) && t < |Seen(q, p, seen, steps)| && t < |Run(q, p, steps).tasks|
    ensures Seen(q, p, seen, steps)[t] == Before(q, p, steps, n).repo
    ensures Run(q, p, steps).tasks[t].baseline == WorktreeAfter(Before(q, p, steps, n).repo, steps[n].call)
    decreases |steps|
  {
    hide Next, ProjectOk, StartsItem, SeenAfter, ItemTask;
    if steps == [] {
      LinksAreOld(p, k, j, t);
    }
    var p', seen' := Next(q, p, steps[0]), SeenAfter(q, p, seen, steps[0]);
    StepKeeps(q, p, steps[0]);
    OneTaskAtATime(q, p, seen, steps[0]);
    if |p'.tasks| <= t {
      var m := ItemWasStarted(q, p', seen', steps[1..], k, j, t);
      n := m + 1;
      assert steps[..n][1..] == steps[1..][..n - 1] && steps[..n] != [] && steps[..n][0] == steps[0];
    } else {
      OldTaskStays(q, p', seen', steps[1..], k, j, t);
      if ItemTask(p, k, j, t) { LinksAreOld(p, k, j, t); }
      StepLinksItem(q, p, steps[0], k, j, t);
      StartOpensTask(q, p, seen, steps[0], k, t);
      n := 0;
      assert steps[..0] == [];
    }
  }

  lemma LinksAreOld(p: Project, k: nat, j: nat, t: nat)
    requires ProjectOk(p) && ItemTask(p, k, j, t)
    ensures t < |p.tasks|
  {
    hide SpecsOk, PlanOk, DigestOk, DoneOk, PhaseOk, TasksOk, AtMostOneExecuting;
    assert EpicOk(p.tasks, p.epics[k]);
    assert ItemLinked(p.tasks, p.epics[k].plan[j]);
  }

  lemma StartOpensTask(q: Quality, p: Project, seen: seq<Digest>, step: Step, k: nat, t: nat)
    requires ProjectOk(p) && |seen| == |p.tasks| && StartsItem(q, p, step, k, t)
    ensures var p' := Next(q, p, step);
            && |p'.tasks| == t + 1 && p'.tasks[t].baseline == WorktreeAfter(p.repo, step.call)
            && SeenAfter(q, p, seen, step) == seen + [p.repo]
  {
    hide Perform, EpicOk, TasksOk;
    OpeningCallKeeps(q, p, k, step.call);
  }

  // The theorem

  predicate NoDriftBetween(e: Epic, a: nat, b: nat) { forall d | d in e.driftLog :: !(a < d < b) }

  /** In a guided run, between two consecutive plan items with no drift reconciliation between them, accepted
      Tasks lead from where the first was accepted to the repository that the boundary check of the second one's
      own start saw; and the second's baseline is that repository if and only if the worktree did not move
      inside that very start, whatever moved inside others. */
  lemma ConsecutiveItemsAreChained(q: Quality, p0: Project, steps: seq<Step>, k: nat, i: nat)
    returns (n: nat, ids: seq<nat>)
    requires Initial(p0) && GuidedRun(q, p0, steps)
    requires var p := Run(q, p0, steps); k < |p.epics| && Adjacent(p.epics[k], i)
    requires var e := Run(q, p0, steps).epics[k]; NoDriftBetween(e, e.plan[i].task.value, e.plan[i + 1].task.value)
    ensures var p := Run(q, p0, steps);
            var a, b := p.epics[k].plan[i].task.value, p.epics[k].plan[i + 1].task.value;
            && StartedAt(q, p0, steps, n, k, b)
            && var before := Before(q, p0, steps, n);
            && before.epics[k].digest == before.repo && TrailTo(p.tasks, a, ids, b, before.repo) && b < |p.tasks|
            && (p.tasks[b].baseline == before.repo <==> WorktreeAfter(before.repo, steps[n].call) == before.repo)
  {
    hide TrailTo, Next, ProjectOk, GuidedOk, Guided;
    NothingYet(p0);
    GuidedRunKeeps(q, p0, [], steps);
    var p := Run(q, p0, steps);
    var e := p.epics[k];
    var b := e.plan[i + 1].task.value;
    n := ItemWasStarted(q, p0, [], steps, k, i + 1, b);
    ids := PairIsChained(p, Seen(q, p0, [], steps), k, i);
    RunKeeps(q, p0, steps[..n]);
    BoundaryWasChecked(q, Before(q, p0, steps, n), steps[n], k, b);
  }

  lemma NothingYet(p: Project)
    requires Initial(p)
    ensures ProjectGuided(p, [])
  {
  }

  lemma PairIsChained(p: Project, seen: seq<Digest>, k: nat, i: nat) returns (ids: seq<nat>)
    requires ProjectGuided(p, seen) && k < |p.epics| && Adjacent(p.epics[k], i)
    requires NoDriftBetween(p.epics[k], p.epics[k].plan[i].task.value, p.epics[k].plan[i + 1].task.value)
    ensures var a, b := p.epics[k].plan[i].task.value, p.epics[k].plan[i + 1].task.value;
            b < |seen| && TrailTo(p.tasks, a, ids, b, seen[b])
  {
    hide TrailTo, ProjectOk;
    var e := p.epics[k];
    assert GuidedOk(p.tasks, seen, e) && PairChained(p.tasks, seen, e, i);
    var b := e.plan[i + 1].task.value;
    ids :| TrailTo(p.tasks, e.plan[i].task.value, ids, b, seen[b]);
  }

  lemma BoundaryWasChecked(q: Quality, p: Project, step: Step, k: nat, t: nat)
    requires ProjectOk(p) && StartsItem(q, p, step, k, t)
    ensures p.epics[k].digest == p.repo
  {
    hide SpecsOk, PlanOk, LinksOk, DoneOk, TasksOk;
    DigestIsSet(p.tasks, p.epics[k]);
  }
}
