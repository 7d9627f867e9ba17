/** Both hypotheses of `EpicStartRace` are needed: without either there is a run from an empty project that
    commits a project which breaks the engine's invariant. */
module StartRaceHypotheses {
  import opened Epics
  import opened Options
  import opened EpicLifecycle
  import opened EpicExecution
  import opened EpicInvariants
  import opened EpicRuns
  import opened EpicStartRace
  import opened EpicExamples

  const GONE := Task(TaskCancelled, "r", [], [], [], [])

  /** A project without a start under way. */
  function Quiet(tasks: seq<Task>, epics: seq<Epic>): Race { Race(Project(tasks, "r", epics), []) }

  lemma {:induction false} RaceRunAppends(hyps: set<Hypothesis>, s: Race, steps: seq<RaceStep>, t: Race, step: RaceStep)
    requires Runs(ANY, hyps, s, steps, t) && Allowed(ANY, t, step, hyps)
    ensures Runs(ANY, hyps, s, steps + [step], RaceNext(ANY, t, step))
    decreases |steps|
  {
    hide RaceNext, Allowed;
    if steps != [] {
      assert (steps + [step])[1..] == steps[1..] + [step];
      RaceRunAppends(hyps, RaceNext(ANY, s, steps[0]), steps[1..], t, step);
    } else {
      assert steps + [step] == [step];
      assert Runs(ANY, hyps, RaceNext(ANY, s, step), [], RaceNext(ANY, s, step));
    }
  }

  lemma Go(hyps: set<Hypothesis>, s: Race, step: RaceStep, t: Race)
    requires RaceReachable(ANY, hyps, s) && Allowed(ANY, s, step, hyps) && RaceNext(ANY, s, step) == t
    ensures RaceReachable(ANY, hyps, t)
  {
    hide Allowed, RaceNext;
    var p0, steps :| Initial(p0) && Runs(ANY, hyps, Race(p0, []), steps, s);
    RaceRunAppends(hyps, Race(p0, []), steps, s, step);
  }

  lemma Begin(hyps: set<Hypothesis>)
    ensures RaceReachable(ANY, hyps, Quiet([], []))
  {
    assert Initial(Project([], "r", [])) && Runs(ANY, hyps, Race(Project([], "r", []), []), [], Quiet([], []));
  }

  lemma UpToReady(hyps: set<Hypothesis>)
    ensures RaceReachable(ANY, hyps, Quiet([], [READY]))
  {
    hide RaceReachable;
    Begin(hyps);
    Go(hyps, Quiet([], []), Other(CreateEpic("t", "s")), Quiet([], [CREATED]));
    Go(hyps, Quiet([], [CREATED]), Other(OnEpic(0, CallApprove)), Quiet([], [READY]));
  }

  lemma UpToTwoReady(hyps: set<Hypothesis>)
    ensures RaceReachable(ANY, hyps, Quiet([], [READY, READY]))
  {
    hide RaceReachable;
    UpToReady(hyps);
    Go(hyps, Quiet([], [READY]), Other(CreateEpic("t", "s")), Quiet([], [READY, CREATED]));
    Go(hyps, Quiet([], [READY, CREATED]), Other(OnEpic(1, CallApprove)), Quiet([], [READY, READY]));
  }

  const PHASE0 := CallStartNext(None)

  lemma Phase0Begins(tasks: seq<Task>, epics: seq<Epic>, k: nat)
    requires OpenTask(tasks).None? && k < |epics| && epics[k] == READY && OtherExecuting(epics, k).None?
    ensures Begun(Project(tasks, "r", epics), k, PHASE0) == Ok(Phase0Columns(|tasks|))
  {
  }

  const STARTED_0 := READY.(status := Phase0, phase0Task := Some(0))
  const STARTED_1 := READY.(status := Phase0, phase0Task := Some(1))

  const FIRST_FLIGHT := Flight(0, Phase0Columns(0))
  const SECOND_FLIGHT := Flight(1, Phase0Columns(1))

  lemma NoneExecuting(k: nat)
    requires k < 2
    ensures OtherExecuting([READY, READY], k).None?
  {
  }

  lemma UpToFirstFlight(hyps: set<Hypothesis>)
    ensures RaceReachable(ANY, hyps, Race(Project([OPEN], "r", [READY, READY]), [FIRST_FLIGHT]))
  {
    hide RaceReachable, Begun, OtherExecuting, Allowed;
    UpToTwoReady(hyps);
    NoneExecuting(0);
    Phase0Begins([], [READY, READY], 0);
    CommitsAreAllowed(hyps, Quiet([], [READY, READY]), FirstCommit(0, PHASE0));
    Go(hyps, Quiet([], [READY, READY]), FirstCommit(0, PHASE0),
        Race(Project([OPEN], "r", [READY, READY]), [FIRST_FLIGHT]));
  }

  lemma CommitsAreAllowed(hyps: set<Hypothesis>, s: Race, step: RaceStep)
    requires !step.Other?
    ensures Allowed(ANY, s, step, hyps)
  {
    hide RaceNext;
  }

  lemma UpToCancelled(hyps: set<Hypothesis>)
    requires TaskStaysOpen !in hyps
    ensures RaceReachable(ANY, hyps, Race(Project([GONE], "r", [READY, READY]), [FIRST_FLIGHT]))
  {
    hide RaceReachable;
    UpToFirstFlight(hyps);
    Go(hyps, Race(Project([OPEN], "r", [READY, READY]), [FIRST_FLIGHT]), Other(WorkOnTask(GONE)),
       Race(Project([GONE], "r", [READY, READY]), [FIRST_FLIGHT]));
  }

  lemma UpToTwoFlights(hyps: set<Hypothesis>)
    requires TaskStaysOpen !in hyps
    ensures RaceReachable(ANY, hyps, Race(Project([GONE, OPEN], "r", [READY, READY]), [FIRST_FLIGHT, SECOND_FLIGHT]))
  {
    hide RaceReachable, Begun, OtherExecuting, Allowed;
    UpToCancelled(hyps);
    NoneExecuting(1);
    assert OpenTask([GONE]).None?;
    Phase0Begins([GONE], [READY, READY], 1);
    var s := Race(Project([GONE], "r", [READY, READY]), [FIRST_FLIGHT]);
    CommitsAreAllowed(hyps, s, FirstCommit(1, PHASE0));
    Go(hyps, s, FirstCommit(1, PHASE0), Race(Project([GONE, OPEN], "r", [READY, READY]),
        [FIRST_FLIGHT, SECOND_FLIGHT]));
  }

  ghost predicate Fails(hyps: set<Hypothesis>) {
    exists s :: RaceReachable(ANY, hyps, s) && !ProjectOk(s.project)
  }

  /** The Task of a start is cancelled between the commits, a second Epic starts, and both are executing. */
  lemma CancelledTaskLetsTwoStart()
    ensures Fails(ALL - {TaskStaysOpen})
  {
    hide RaceReachable, EpicOk, TasksOk, Allowed;
    var hyps := ALL - {TaskStaysOpen};
    UpToTwoFlights(hyps);
    var s := Race(Project([GONE, OPEN], "r", [READY, READY]), [FIRST_FLIGHT, SECOND_FLIGHT]);
    var t := Race(Project([GONE, OPEN], "r", [STARTED_0, READY]), [SECOND_FLIGHT]);
    CommitsAreAllowed(hyps, s, SecondCommit(0));
    Go(hyps, s, SecondCommit(0), t);
    var u := Quiet([GONE, OPEN], [STARTED_0, STARTED_1]);
    CommitsAreAllowed(hyps, t, SecondCommit(0));
    Go(hyps, t, SecondCommit(0), u);
    assert Executing(u.project.epics[0].status) && Executing(u.project.epics[1].status);
  }

  const REVISED := READY.(
    status := Draft, specs := map[1 := "s", 2 := "z"], current := 2, approved := None)

  lemma ReadyIsRevised()
    ensures ReviseSpec(READY, "z", Note("x", "")) == Ok(REVISED)
  {
    assert BoundedText("z", MAX_EPIC_SPEC_CHARS, true) == Ok("z");
    assert BoundedText("x", 4_000, true) == Ok("x") && BoundedText("", 8_000, false) == Ok("");
    assert READY.specs[2 := "z"] == REVISED.specs;
  }

  /** The specification is revised between the commits: an Epic is in Phase 0 without an approved version. */
  lemma RevisedRowIsStarted()
    ensures Fails(ALL - {RowStaysPut})
  {
    hide RaceReachable, Begun, ReviseSpec, PlanOk, LinksOk, DigestOk, DoneOk, TasksOk, AtMostOneExecuting;
    var hyps := ALL - {RowStaysPut};
    UpToReady(hyps);
    assert OtherExecuting([READY], 0).None?;
    var flight := Flight(0, Phase0Columns(0));
    Phase0Begins([], [READY], 0);
    Go(hyps, Quiet([], [READY]), FirstCommit(0, PHASE0), Race(Project([OPEN], "r", [READY]), [flight]));
    ReadyIsRevised();
    Go(hyps, Race(Project([OPEN], "r", [READY]), [flight]), Other(OnEpic(0, CallRevise("z", Note("x", "")))),
       Race(Project([OPEN], "r", [REVISED]), [flight]));
    var s := Quiet([OPEN], [REVISED.(status := Phase0, phase0Task := Some(0))]);
    Go(hyps, Race(Project([OPEN], "r", [REVISED]), [flight]), SecondCommit(0), s);
    assert !SpecsOk(s.project.epics[0]);
  }

  /** The engine's invariant holds of every committed project under both hypotheses, and under neither alone. */
  lemma HypothesesAreExact(h: Hypothesis)
    ensures !Fails(ALL)
    ensures Fails(ALL - {h})
  {
    forall s | RaceReachable(ANY, ALL, s) ensures ProjectOk(s.project) {
      UndisturbedProjectsAreReachable(ANY, s);
    }
    match h {
      case TaskStaysOpen => CancelledTaskLetsTwoStart();
      case RowStaysPut => RevisedRowIsStarted();
    }
  }
}
