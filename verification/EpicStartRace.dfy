/** `start_next` and `start_drift_reconciliation` are not one transaction: `create_task` commits inside
    (src/ai_layer/tasks/lifecycle.py:190), which releases the row locks, and the Epic's own columns follow
    in a second commit (src/ai_layer/db/session.py:100). This machine takes the two commits apart. */
module EpicStartRace {
  import opened Epics
  import opened Options
  import opened EpicLifecycle
  import opened EpicPlanning
  import opened EpicExecution
  import opened EpicReview
  import opened EpicNavigation
  import opened EpicInvariants
  import opened EpicRuns
  import opened EpicTheorems
  import opened EpicGuidedRuns

  /** A start between its commits: the Epic, and the columns it will write. */
  datatype Flight = Flight(k: nat, columns: Assignment)

  /** The committed project, and the starts between their commits. */
  datatype Race = Race(project: Project, flights: seq<Flight>)

  datatype RaceStep =
    | FirstCommit(k: nat, call: Call)
    | SecondCommit(n: nat)
    | Die(n: nat)             // a start ends without its second commit
    | Other(step: Step)       // any step but a start

  /** The checks before `create_task`. */
  function Begun(p: Project, k: nat, call: Call): Result<Assignment>
    requires k < |p.epics| && IsStart(call)
  {
    if call.CallStartNext? then BeginStart(p.epics[k], p.tasks, p.repo, OtherExecuting(p.epics, k))
    else BeginDrift(p.epics[k], p.tasks)
  }

  /** The project with the new Task committed, and nothing else. */
  function WithNewTask(p: Project, call: Call): Project {
    var repo := WorktreeAfter(p.repo, call);
    Project(p.tasks + [NewTask(repo)], repo, p.epics)
  }

  function WithoutFlight(s: Race, n: nat): seq<Flight>
    requires n < |s.flights|
  {
    s.flights[..n] + s.flights[n + 1..]
  }

  /** The second commit: the assigned columns go into the row as it is now. */
  function Written(p: Project, f: Flight): Project {
    if f.k < |p.epics| then p.(epics := p.epics[f.k := Landed(p.epics[f.k], f.columns)]) else p
  }

  function RaceNext(q: Quality, s: Race, step: RaceStep): Race {
    match step
    case FirstCommit(k, call) =>
      if k < |s.project.epics| && IsStart(call) && Begun(s.project, k, call).Ok? then
        Race(WithNewTask(s.project, call), s.flights + [Flight(k, Begun(s.project, k, call).value)])
      else s
    case SecondCommit(n) =>
      if n < |s.flights| then Race(Written(s.project, s.flights[n]), WithoutFlight(s, n)) else s
    case Die(n) => if n < |s.flights| then Race(s.project, WithoutFlight(s, n)) else s
    case Other(other) =>
      if other.OnEpic? && IsStart(other.call) then s else s.(project := Next(q, s.project, other))
  }

  // The hypotheses, each a predicate of a step

  datatype Hypothesis =
    | TaskStaysOpen  // the Task that a start opened stays open until the start ends
    | RowStaysPut    // the row of a starting Epic stays as it is until the start ends

  const ALL: set<Hypothesis> := {TaskStaysOpen, RowStaysPut}

  predicate StillOpen(tasks: seq<Task>, f: Flight) { f.columns.task < |tasks| && IsOpen(tasks[f.columns.task]) }

  predicate SameRowAfter(before: Project, after: Project, f: Flight) {
    f.k < |before.epics| ==> f.k < |after.epics| && after.epics[f.k] == before.epics[f.k]
  }

  predicate Respects(q: Quality, s: Race, step: RaceStep, h: Hypothesis) {
    match h
    case TaskStaysOpen =>
      step.Other? ==> forall n | 0 <= n < |s.flights| :: StillOpen(RaceNext(q, s, step).project.tasks, s.flights[n])
    case RowStaysPut =>
      step.Other? ==>
        forall n | 0 <= n < |s.flights| :: SameRowAfter(s.project, RaceNext(q, s, step).project, s.flights[n])
  }

  predicate Allowed(q: Quality, s: Race, step: RaceStep, hyps: set<Hypothesis>) {
    forall h | h in hyps :: Respects(q, s, step, h)
  }

  ghost predicate Runs(q: Quality, hyps: set<Hypothesis>, s: Race, steps: seq<RaceStep>, t: Race)
    decreases |steps|
  {
    if steps == [] then s == t
    else Allowed(q, s, steps[0], hyps) && Runs(q, hyps, RaceNext(q, s, steps[0]), steps[1..], t)
  }

  ghost predicate RaceReachable(q: Quality, hyps: set<Hypothesis>, s: Race) {
    exists p0, steps :: Initial(p0) && Runs(q, hyps, Race(p0, []), steps, s)
  }

  /** A plan item's start begins only when the navigator, called now, changes nothing and names it. */
  predicate NamedNow(s: Race, step: RaceStep) {
    step.FirstCommit? ==> Guided(s.project, OnEpic(step.k, step.call))
  }

  predicate NamedRun(q: Quality, s: Race, steps: seq<RaceStep>)
    decreases |steps|
  {
    steps == [] || (NamedNow(s, steps[0]) && NamedRun(q, RaceNext(q, s, steps[0]), steps[1..]))
  }

  ghost predicate NamedReachable(q: Quality, hyps: set<Hypothesis>, s: Race) {
    exists p0, steps ::
      Initial(p0) && Runs(q, hyps, Race(p0, []), steps, s) && NamedRun(q, Race(p0, []), steps)
  }

  // Undisturbed starts

  /** What the one-step machine reaches, in guided runs or in any. */
  ghost predicate Reaches(q: Quality, guided: bool, p: Project) {
    if guided then GuidedReachable(q, p) else Reachable(q, p)
  }

  lemma ReachesOn(q: Quality, guided: bool, p: Project, step: Step)
    requires Reaches(q, guided, p) && (guided ==> Guided(p, step))
    ensures Reaches(q, guided, Next(q, p, step))
  {
    hide Reachable, GuidedReachable, Guided, Next;
    if guided { StaysGuided(q, p, step); } else { StaysReachable(q, p, step); }
  }

  lemma ReachedIsOk(q: Quality, guided: bool, p: Project)
    requires Reaches(q, guided, p)
    ensures Reachable(q, p) && ProjectOk(p)
  {
    EveryReachableProjectIsOk(q, p);
  }

  /** At most one start is under way, its Task is open, and both what is committed and what will be after the
      second commit are projects that the one-step machine reaches. */
  ghost predicate Covered(q: Quality, guided: bool, s: Race) {
    && Reaches(q, guided, s.project) && |s.flights| <= 1
    && (s.flights != [] ==>
          && s.flights[0].k < |s.project.epics| && StillOpen(s.project.tasks, s.flights[0])
          && Reaches(q, guided, Written(s.project, s.flights[0])))
  }

  lemma OpenTaskIsFound(tasks: seq<Task>, i: nat)
    requires i < |tasks| && IsOpen(tasks[i])
    ensures OpenTask(tasks).Some?
  {
  }

  lemma BeginsWithNoOpenTask(p: Project, k: nat, call: Call)
    requires k < |p.epics| && IsStart(call) && Begun(p, k, call).Ok?
    ensures OpenTask(p.tasks).None? && Begun(p, k, call).value.task == |p.tasks|
  {
  }

  /** Both commits together are the one-step start. */
  lemma CommitsMakeTheStart(q: Quality, p: Project, k: nat, call: Call)
    requires k < |p.epics| && IsStart(call) && Begun(p, k, call).Ok?
    ensures Written(WithNewTask(p, call), Flight(k, Begun(p, k, call).value)) == Next(q, p, OnEpic(k, call))
  {
    hide BeginStart, BeginDrift, Landed;
  }

  /** The first commit alone is a change of the worktree, if any, and a standalone Task. */
  lemma FirstCommitIsStandalone(q: Quality, p: Project, call: Call)
    requires p.repo != "" && OpenTask(p.tasks).None?
    ensures WithNewTask(p, call) == Next(q, Next(q, p, ChangeWorktree(WorktreeAfter(p.repo, call))), OpenStandalone)
  {
  }

  lemma FirstCommitIsCovered(q: Quality, guided: bool, s: Race, k: nat, call: Call)
    requires Covered(q, guided, s) && (guided ==> Guided(s.project, OnEpic(k, call)))
    ensures Covered(q, guided, RaceNext(q, s, FirstCommit(k, call)))
  {
    hide Reaches, Begun, Next, Landed, Navigate;
    var p := s.project;
    if k < |p.epics| && IsStart(call) && Begun(p, k, call).Ok? {
      BeginsWithNoOpenTask(p, k, call);
      if s.flights != [] {
        OpenTaskIsFound(p.tasks, s.flights[0].columns.task);
      } else {
        ReachedIsOk(q, guided, p);
        FirstCommitIsStandalone(q, p, call);
        ReachesOn(q, guided, p, ChangeWorktree(WorktreeAfter(p.repo, call)));
        ReachesOn(q, guided, Next(q, p, ChangeWorktree(WorktreeAfter(p.repo, call))), OpenStandalone);
        CommitsMakeTheStart(q, p, k, call);
        ReachesOn(q, guided, p, OnEpic(k, call));
        assert (s.flights + [Flight(k, Begun(p, k, call).value)]) == [Flight(k, Begun(p, k, call).value)];
      }
    }
  }

  lemma EndIsCovered(q: Quality, guided: bool, s: Race, step: RaceStep)
    requires Covered(q, guided, s) && (step.SecondCommit? || step.Die?)
    ensures Covered(q, guided, RaceNext(q, s, step))
  {
    hide Reaches, Landed;
    if step.n < |s.flights| {
      assert step.n == 0 && WithoutFlight(s, 0) == [];
    }
  }

  predicate IsStartStep(step: Step) { step.OnEpic? && IsStart(step.call) }

  /** A step that leaves the row alone is the same step, or none, of the project after the second commit. */
  ghost predicate SameStepLater(q: Quality, p: Project, f: Flight, step: Step) {
    || Written(Next(q, p, step), f) == Written(p, f)
    || exists step' :: !IsStartStep(step') && Written(Next(q, p, step), f) == Next(q, Written(p, f), step')
  }

  /** The calls that are not starts look at no other Epic. */
  lemma SameElsewhere(q: Quality, p: Project, f: Flight, j: nat, call: Call)
    requires j < |p.epics| && j != f.k && !IsStart(call)
    ensures Perform(q, p, j, call) == Perform(q, Written(p, f), j, call)
  {
    hide Landed;
  }

  lemma QuietCallsOpenNothing(q: Quality, p: Project, k: nat, call: Call)
    requires k < |p.epics| && !IsStart(call) && Perform(q, p, k, call).Ok?
    ensures Perform(q, p, k, call).value.started == [] && WorktreeAfter(p.repo, call) == p.repo
  {
  }

  lemma CallCommutes(q: Quality, p: Project, f: Flight, k: nat, call: Call)
    requires f.k < |p.epics| && !IsStart(call) && SameRowAfter(p, Next(q, p, OnEpic(k, call)), f)
    ensures SameStepLater(q, p, f, OnEpic(k, call))
  {
    hide Perform, Landed;
    var p' := Next(q, p, OnEpic(k, call));
    if k < |p.epics| && Perform(q, p, k, call).Ok? {
      var e := Perform(q, p, k, call).value.epic;
      QuietCallsOpenNothing(q, p, k, call);
      assert p.tasks + Perform(q, p, k, call).value.started == p.tasks;
      if k == f.k {
        assert p'.epics == p.epics;
      } else {
        SameElsewhere(q, p, f, k, call);
        var landed := Landed(p.epics[f.k], f.columns);
        assert p.epics[k := e][f.k := landed] == p.epics[f.k := landed][k := e];
        assert Written(p', f) == Next(q, Written(p, f), OnEpic(k, call));
      }
    }
  }

  lemma NavigationCommutes(q: Quality, p: Project, f: Flight, key: Option<nat>)
    requires f.k < |p.epics| && SameRowAfter(p, Next(q, p, NextAction(key)), f)
    ensures SameStepLater(q, p, f, NextAction(key))
  {
    hide Navigate, ResolveEpicForNext, Landed;
    var r := ResolveEpicForNext(p.epics, key);
    var p' := Next(q, p, NextAction(key));
    if r.Ok? && r.value.Some? && r.value.value < |p.epics| {
      var j := r.value.value;
      var e := Navigate(p.epics[j], p.tasks, p.repo).epic;
      if j == f.k {
        assert p'.epics == p.epics;
      } else {
        var landed := Landed(p.epics[f.k], f.columns);
        assert p.epics[j := e][f.k := landed] == p.epics[f.k := landed][j := e];
        KeyResolves(Written(p, f).epics, j);
        assert Written(p', f) == Next(q, Written(p, f), NextAction(Some(j)));
      }
    }
  }

  lemma KeyResolves(epics: seq<Epic>, j: nat)
    requires j < |epics|
    ensures ResolveEpicForNext(epics, Some(j)) == Ok(Some(j))
  {
  }

  lemma EnvironmentCommutes(q: Quality, p: Project, f: Flight, step: Step)
    requires f.k < |p.epics| && !step.OnEpic? && !step.NextAction?
    ensures Written(Next(q, p, step), f) == Next(q, Written(p, f), step)
  {
    hide Landed, BoundedText;
    if step.CreateEpic? && Create(step.title, step.spec).Ok? {
      var e := Create(step.title, step.spec).value;
      var landed := Landed(p.epics[f.k], f.columns);
      assert (p.epics + [e])[f.k := landed] == p.epics[f.k := landed] + [e];
    }
  }

  lemma OtherCommutes(q: Quality, p: Project, f: Flight, step: Step)
    requires f.k < |p.epics| && (step.OnEpic? ==> !IsStart(step.call)) && SameRowAfter(p, Next(q, p, step), f)
    ensures SameStepLater(q, p, f, step)
  {
    hide Next, Written;
    match step {
      case OnEpic(k, call) => CallCommutes(q, p, f, k, call);
      case NextAction(key) => NavigationCommutes(q, p, f, key);
      case _ => EnvironmentCommutes(q, p, f, step);
    }
  }

  lemma OtherIsCovered(q: Quality, guided: bool, s: Race, step: RaceStep)
    requires Covered(q, guided, s) && step.Other? && Allowed(q, s, step, ALL)
    ensures Covered(q, guided, RaceNext(q, s, step))
  {
    hide Reaches, Next, Written;
    assert Respects(q, s, step, TaskStaysOpen) && Respects(q, s, step, RowStaysPut);
    if !IsStartStep(step.step) {
      var p' := Next(q, s.project, step.step);
      ReachesOn(q, guided, s.project, step.step);
      if s.flights != [] {
        var f := s.flights[0];
        assert SameRowAfter(s.project, p', f) && StillOpen(p'.tasks, f);
        OtherCommutes(q, s.project, f, step.step);
        if Written(p', f) != Written(s.project, f) {
          var step' :| !IsStartStep(step') && Written(p', f) == Next(q, Written(s.project, f), step');
          ReachesOn(q, guided, Written(s.project, f), step');
        }
      }
    }
  }

  lemma StepIsCovered(q: Quality, guided: bool, s: Race, step: RaceStep)
    requires Covered(q, guided, s) && Allowed(q, s, step, ALL) && (guided ==> NamedNow(s, step))
    ensures Covered(q, guided, RaceNext(q, s, step))
  {
    hide Covered, RaceNext, Guided;
    match step {
      case FirstCommit(k, call) => FirstCommitIsCovered(q, guided, s, k, call);
      case Other(_) => OtherIsCovered(q, guided, s, step);
      case _ => EndIsCovered(q, guided, s, step);
    }
  }

  lemma {:induction false} RunIsCovered(q: Quality, guided: bool, s: Race, steps: seq<RaceStep>, t: Race)
    requires Covered(q, guided, s) && Runs(q, ALL, s, steps, t) && (guided ==> NamedRun(q, s, steps))
    ensures Covered(q, guided, t)
    decreases |steps|
  {
    hide Covered, RaceNext, Allowed, NamedNow;
    if steps != [] {
      StepIsCovered(q, guided, s, steps[0]);
      RunIsCovered(q, guided, RaceNext(q, s, steps[0]), steps[1..], t);
    }
  }

  lemma StartIsCovered(q: Quality, guided: bool, p0: Project)
    requires Initial(p0)
    ensures Covered(q, guided, Race(p0, []))
  {
    assert GuidedRun(q, p0, []) && p0 == Run(q, p0, []);
  }

  /** Under both hypotheses, starts that die included, every committed project of the two-commit machine is one
      that the one-step machine reaches, and so is what a start under way will commit. Whatever holds of every
      reachable project holds here. */
  lemma UndisturbedProjectsAreReachable(q: Quality, s: Race)
    requires RaceReachable(q, ALL, s)
    ensures Reachable(q, s.project) && ProjectOk(s.project) && |s.flights| <= 1
    ensures s.flights != [] ==> Reachable(q, Written(s.project, s.flights[0]))
  {
    hide RaceNext, Reachable;
    var p0, steps :| Initial(p0) && Runs(q, ALL, Race(p0, []), steps, s);
    StartIsCovered(q, false, p0);
    RunIsCovered(q, false, Race(p0, []), steps, s);
    ReachedIsOk(q, false, s.project);
  }

  /** When plan items are started only on the navigator's word, the same holds of guided runs: what is proved of
      every project that one of them reaches holds of every committed project here. */
  lemma NamedProjectsAreGuided(q: Quality, s: Race)
    requires NamedReachable(q, ALL, s)
    ensures GuidedReachable(q, s.project) && |s.flights| <= 1
    ensures s.flights != [] ==> GuidedReachable(q, Written(s.project, s.flights[0]))
  {
    hide RaceNext, GuidedReachable;
    var p0, steps :| Initial(p0) && Runs(q, ALL, Race(p0, []), steps, s) && NamedRun(q, Race(p0, []), steps);
    StartIsCovered(q, true, p0);
    RunIsCovered(q, true, Race(p0, []), steps, s);
  }

  /** A start that dies leaves its Task behind as a standalone one. */
  lemma DeadStartLeavesStandaloneTask(q: Quality, s: Race, k: nat, call: Call)
    requires ProjectOk(s.project) && s.flights == [] && k < |s.project.epics| && IsStart(call)
    requires Begun(s.project, k, call).Ok?
    ensures var p := RaceNext(q, RaceNext(q, s, FirstCommit(k, call)), Die(0)).project;
            && p == Run(q, s.project, [ChangeWorktree(WorktreeAfter(s.project.repo, call)), OpenStandalone])
            && OpenTask(p.tasks) == Some(|s.project.tasks|) && !Linked(p.epics[k], |s.project.tasks|)
  {
    hide EpicOk, Begun, TasksOk, AtMostOneExecuting, Next, Run;
    var p := s.project;
    BeginsWithNoOpenTask(p, k, call);
    FirstCommitIsStandalone(q, p, call);
    TwoSteps(q, p, ChangeWorktree(WorktreeAfter(p.repo, call)), OpenStandalone);
    TasksAreKnown(p.tasks, p.epics[k]);
    NewTaskIsTheOpenOne(p.tasks, WorktreeAfter(p.repo, call));
  }

  lemma TwoSteps(q: Quality, p: Project, first: Step, second: Step)
    ensures Run(q, p, [first, second]) == Next(q, Next(q, p, first), second)
  {
    hide Next;
    var middle := Next(q, p, first);
    assert [first, second][1..] == [second] && [second][1..] == [];
    assert Run(q, p, [first, second]) == Run(q, middle, [second]);
    assert Run(q, middle, [second]) == Run(q, Next(q, middle, second), []);
  }

  lemma NewTaskIsTheOpenOne(tasks: seq<Task>, repo: Digest)
    requires OpenTask(tasks).None?
    ensures OpenTask(tasks + [NewTask(repo)]) == Some(|tasks|)
  {
    assert IsOpen((tasks + [NewTask(repo)])[|tasks|]);
  }

  lemma TasksAreKnown(tasks: seq<Task>, e: Epic)
    requires EpicOk(tasks, e)
    ensures !Linked(e, |tasks|)
  {
    hide SpecsOk, PlanOk, DigestOk, DoneOk, PhaseOk;
    forall i | 0 <= i < |e.plan| ensures e.plan[i].task != Some(|tasks|) {
      assert ItemLinked(tasks, e.plan[i]);
    }
  }
}
