/** Concrete runs: what a caller meets who acts against, or without, the navigator's conditions. */
module EpicExamples {
  import opened Epics
  import opened Options
  import opened TaskBoundary
  import opened EpicPlanning
  import opened EpicExecution
  import opened EpicReview
  import opened EpicNavigation
  import opened EpicInvariants
  import opened EpicRuns
  import opened EpicTheorems
  import opened EpicGuidedRuns
  import opened EpicProgress
  import EpicLaws

  const ANY: Quality := (s: string) => true
  const DONE := Task(TaskCompleted, "r", [], [], [], [])
  const OPEN := Task(TaskActive, "r", [], [], [], [])

  const ANALYSIS := PlanItem(0, Analysis, ItemCompleted, Some(0), 1, PHASE0_TEXT)
  const WORK := PlanItem(1, Work, ItemPending, None, 1, WorkText("a", "b"))
  const FINAL := PlanItem(2, Final, ItemPending, None, 1, FINAL_TEXT)

  const CREATED := Epic(Draft, map[1 := "s"], 1, None, None, None, None, "", 0, NoReason, [], {})
  const READY := CREATED.(status := Approved, approved := Some(1))
  const ANALYSED := READY.(status := Planning, execution := Some(1), phase0Task := Some(0), digest := "r")
  const PLANNED := ANALYSED.(status := Running, planVersion := 1, plan := [ANALYSIS, WORK, FINAL])
  const FIRST := PLANNED.(plan := [ANALYSIS, WORK.(status := ItemActive, task := Some(1)), FINAL])
  const SECOND := PLANNED.(
    status := FinalReview,
    plan := [ANALYSIS, WORK.(status := ItemActive, task := Some(1)), FINAL.(status := ItemActive, task := Some(2))])

  // Runs

  lemma Go(p: Project, step: Step, p': Project)
    requires GuidedReachable(ANY, p) && Guided(p, step) && Next(ANY, p, step) == p'
    ensures GuidedReachable(ANY, p')
  {
    hide Guided, Next, GuidedReachable;
    StaysGuided(ANY, p, step);
  }

  lemma GuidedIsReachable(p: Project)
    requires GuidedReachable(ANY, p)
    ensures Reachable(ANY, p)
  {
  }

  lemma Begin()
    ensures GuidedReachable(ANY, Project([], "r", []))
  {
    assert GuidedRun(ANY, Project([], "r", []), []);
  }

  lemma UpToReady()
    ensures GuidedReachable(ANY, Project([], "r", [READY]))
  {
    hide GuidedReachable;
    Begin();
    Go(Project([], "r", []), CreateEpic("t", "s"), Project([], "r", [CREATED]));
    Go(Project([], "r", [CREATED]), OnEpic(0, CallApprove), Project([], "r", [READY]));
  }

  lemma AnalysisIsRecorded()
    ensures Reconcile(READY.(status := Phase0, phase0Task := Some(0)), [DONE], Findings("x", "", false, None))
         == Ok(ANALYSED)
  {
    assert BoundedText("s", MAX_EPIC_SPEC_CHARS, true) == Ok("s");
  }

  lemma UpToAnalysis()
    ensures GuidedReachable(ANY, Project([DONE], "r", [ANALYSED]))
  {
    hide GuidedReachable, Reconcile;
    UpToReady();
    AnalysisIsRecorded();
    var started := READY.(status := Phase0, phase0Task := Some(0));
    Go(Project([], "r", [READY]), OnEpic(0, CallStartNext(None)), Project([OPEN], "r", [started]));
    Go(Project([OPEN], "r", [started]), WorkOnTask(DONE), Project([DONE], "r", [started]));
    Go(Project([DONE], "r", [started]), OnEpic(0, CallReconcile(Findings("x", "", false, None))),
        Project([DONE], "r", [ANALYSED]));
  }

  lemma PlanIsSet()
    ensures SetPlan(ANALYSED, [WorkText("a", "b")]) == Ok(PLANNED)
  {
    var work := [WorkText("a", "b")];
    assert work[..0] == [] && NormalizedText(work[0]) == Ok(work[0]);
    assert NormalizedTexts(work) == Ok([] + [work[0]]);
    assert SetPlan(ANALYSED, work).value.plan == PLANNED.plan;
  }

  lemma UpToPlan()
    ensures GuidedReachable(ANY, Project([DONE], "r", [PLANNED]))
  {
    hide GuidedReachable, SetPlan;
    UpToAnalysis();
    PlanIsSet();
    Go(Project([DONE], "r", [ANALYSED]), OnEpic(0, CallSetPlan([WorkText("a", "b")])), Project([DONE], "r", [PLANNED]));
  }

  // Two active items

  lemma FirstStarts(captured: Digest)
    ensures StartNext(PLANNED, [DONE], "r", captured, None) == Ok(Started(FIRST, NewTask(captured)))
  {
    assert PLANNED.plan[1].status.ItemPending?;
    assert First(PLANNED.plan, ItemPending) == Some(1);
    assert PLANNED.plan[1 := WORK.(task := Some(1), status := ItemActive)] == FIRST.plan;
  }

  lemma SecondStarts()
    ensures StartNext(FIRST, [DONE, DONE], "r", "r", None) == Ok(Started(SECOND, OPEN))
  {
    assert FIRST.plan[2].status.ItemPending?;
    assert First(FIRST.plan, ItemPending) == Some(2);
    assert FIRST.plan[2 := FINAL.(task := Some(2), status := ItemActive)] == SECOND.plan;
  }

  lemma NoOther(e: Epic)
    ensures OtherExecuting([e], 0) == None
  {
    assert [e][..0] == [];
  }

  lemma AlsoReachable(p: Project, step: Step, p': Project)
    requires Reachable(ANY, p) && Next(ANY, p, step) == p'
    ensures Reachable(ANY, p')
  {
    StaysReachable(ANY, p, step);
  }

  lemma UpToSecondStart()
    ensures Reachable(ANY, Project([DONE, DONE, OPEN], "r", [SECOND]))
  {
    hide GuidedReachable, Reachable, StartNext, OtherExecuting;
    UpToPlan();
    GuidedIsReachable(Project([DONE], "r", [PLANNED]));
    FirstStarts("r");
    SecondStarts();
    NoOther(PLANNED);
    NoOther(FIRST);
    AlsoReachable(Project([DONE], "r", [PLANNED]), OnEpic(0, CallStartNext(None)), Project([DONE, OPEN], "r", [FIRST]));
    AlsoReachable(Project([DONE, OPEN], "r", [FIRST]), WorkOnTask(DONE), Project([DONE, DONE], "r", [FIRST]));
    AlsoReachable(Project([DONE, DONE], "r", [FIRST]), OnEpic(0, CallStartNext(None)),
        Project([DONE, DONE, OPEN], "r", [SECOND]));
  }

  /** Without the navigator, a completed but unsynced Task without net change lets a second item start. Then two
      items are active, and asking the navigator twice is not asking once. */
  lemma TwoItemsCanBeActive() returns (p: Project)
    ensures Reachable(ANY, p) && |p.epics| == 1 && !AtMostOneActive(p.epics[0].plan)
    ensures var n := Navigate(p.epics[0], p.tasks, p.repo); Navigate(n.epic, p.tasks, p.repo) != n
  {
    hide Reachable;
    UpToSecondStart();
    p := Project([DONE, DONE, OPEN], "r", [SECOND]);
    assert p.epics[0].plan[1].status.ItemActive? && p.epics[0].plan[2].status.ItemActive?;
  }

  // Completion without a key

  const SYNCED := PLANNED.(plan := [ANALYSIS, WORK.(status := ItemCompleted, task := Some(1)), FINAL])
  const CLOSING := SYNCED.(
    status := FinalReview,
    plan := [ANALYSIS, WORK.(status := ItemCompleted, task := Some(1)), FINAL.(status := ItemActive, task := Some(2))])
  const CLOSED := CLOSING.(
    status := Completed,
    plan := [
      ANALYSIS, WORK.(status := ItemCompleted, task := Some(1)), FINAL.(status := ItemCompleted, task := Some(2))])
  const CHANGED := Task(TaskCompleted, "r", [], ["README.md"], [], [])
  const CLOSER := Task(TaskCompleted, "r", [], ["README.md"], [1], [1])

  lemma FirstIsSynced()
    ensures Navigate(FIRST, [DONE, DONE], "r") == Navigated(SYNCED, StartFinalReview(2))
    ensures Navigate(SYNCED, [DONE, DONE], "r") == Navigated(SYNCED, StartFinalReview(2))
  {
    assert FIRST.plan[1].status.ItemActive? && SYNCED.plan[2].status.ItemPending?;
    assert First(FIRST.plan, ItemActive) == Some(1);
    assert FIRST.plan[1 := WORK.(status := ItemCompleted, task := Some(1))] == SYNCED.plan;
    assert First(SYNCED.plan, ItemActive).None? && First(SYNCED.plan, ItemPending) == Some(2);
    assert OpenTask([DONE, DONE]).None?;
  }

  lemma FinalStarts()
    ensures StartNext(SYNCED, [DONE, DONE], "r", "r", None) == Ok(Started(CLOSING, OPEN))
  {
    assert SYNCED.plan[2].status.ItemPending?;
    assert First(SYNCED.plan, ItemPending) == Some(2);
    assert SYNCED.plan[2 := FINAL.(task := Some(2), status := ItemActive)] == CLOSING.plan;
  }

  lemma UpToFinal()
    ensures GuidedReachable(ANY, Project([DONE, DONE, OPEN], "r", [CLOSING]))
  {
    hide GuidedReachable, StartNext, OtherExecuting, Navigate;
    UpToPlan();
    FirstIsNamed();
    FirstStarts("r");
    FirstIsSynced();
    FinalStarts();
    NoOther(PLANNED);
    NoOther(SYNCED);
    Go(Project([DONE], "r", [PLANNED]), OnEpic(0, CallStartNext(None)), Project([DONE, OPEN], "r", [FIRST]));
    Go(Project([DONE, OPEN], "r", [FIRST]), WorkOnTask(DONE), Project([DONE, DONE], "r", [FIRST]));
    Go(Project([DONE, DONE], "r", [FIRST]), NextAction(Some(0)), Project([DONE, DONE], "r", [SYNCED]));
    Go(Project([DONE, DONE], "r", [SYNCED]), OnEpic(0, CallStartNext(None)),
        Project([DONE, DONE, OPEN], "r", [CLOSING]));
  }

  lemma UpToClosing()
    ensures GuidedReachable(ANY, Project([DONE, DONE, CLOSER], "r", [CLOSING]))
  {
    hide GuidedReachable;
    UpToFinal();
    var published := CHANGED.(knowledge := [1]);
    assert CHANGED.knowledge + [1] == [1] && published.maps + [1] == [1];
    Go(Project([DONE, DONE, OPEN], "r", [CLOSING]), WorkOnTask(CHANGED),
        Project([DONE, DONE, CHANGED], "r", [CLOSING]));
    Go(Project([DONE, DONE, CHANGED], "r", [CLOSING]), PublishKnowledge(2, 1),
        Project([DONE, DONE, published], "r", [CLOSING]));
    Go(Project([DONE, DONE, published], "r", [CLOSING]), CheckMap(2, 1),
        Project([DONE, DONE, CLOSER], "r", [CLOSING]));
  }

  lemma UpToClosingWithOthers()
    ensures GuidedReachable(ANY, Project([DONE, DONE, CLOSER], "r", [CLOSING, READY]))
    ensures GuidedReachable(ANY, Project([DONE, DONE, CLOSER], "r", [CLOSING, READY, CREATED]))
  {
    hide GuidedReachable;
    UpToClosing();
    Go(Project([DONE, DONE, CLOSER], "r", [CLOSING]), CreateEpic("t", "s"),
        Project([DONE, DONE, CLOSER], "r", [CLOSING, CREATED]));
    Go(Project([DONE, DONE, CLOSER], "r", [CLOSING, CREATED]), OnEpic(1, CallApprove),
        Project([DONE, DONE, CLOSER], "r", [CLOSING, READY]));
    Go(Project([DONE, DONE, CLOSER], "r", [CLOSING, READY]), CreateEpic("t", "s"),
        Project([DONE, DONE, CLOSER], "r", [CLOSING, READY, CREATED]));
  }

  lemma ClosingIsCompleted()
    ensures Navigate(CLOSING, [DONE, DONE, CLOSER], "r") == Navigated(CLOSED, ArchiveEpic)
  {
    assert CLOSING.plan[2].status.ItemActive?;
    assert First(CLOSING.plan, ItemActive) == Some(2);
    assert IsDoc(CLOSER.changed[0]);
    assert CLOSING.plan[2 := CLOSED.plan[2]] == CLOSED.plan;
  }

  /** The project when the closure's Task is completed with all evidence, and other Epics are there. */
  function Closing(others: seq<Epic>): Project { Project([DONE, DONE, CLOSER], "r", [CLOSING] + others) }

  function AskedWithoutKey(p: Project): Project { Next(ANY, p, NextAction(None)) }

  predicate Others(others: seq<Epic>) { others == [] || others == [READY] || others == [READY, CREATED] }

  lemma WhichIsFound(epics: seq<Epic>)
    requires 1 <= |epics| <= 3 && (epics[0].status.FinalReview? || epics[0].status.Completed?)
    requires (|epics| > 1 ==> epics[1].status.Approved?) && (|epics| > 2 ==> epics[2].status.Draft?)
    ensures ResolveEpicForNext(epics, None)
         == if epics[0].status.FinalReview? then Ok(Some(0))
            else if |epics| == 1 then Ok(None)
            else if |epics| == 2 then Ok(Some(1))
            else Err(SeveralOpen)
  {
    hide ResolveEpicForNext;
    EpicLaws.FoundIff(epics);
    assert epics[0].status.FinalReview? ==> EpicLaws.Sole(epics, EpicLaws.Begun, 0);
    assert epics[0].status.Completed? && |epics| == 2 ==> EpicLaws.Sole(epics, EpicLaws.Unended, 1);
  }

  /** A keyless call that completes the Epic names its archiving. The second finds nothing, another Epic, or
      several open ones. */
  lemma KeylessAnswerChanges(others: seq<Epic>)
    requires Others(others)
    ensures GuidedReachable(ANY, Closing(others)) && AnswerOf(Closing(others), None) == Named(0, CLOSED, ArchiveEpic)
    ensures AnswerOf(AskedWithoutKey(Closing(others)), None)
         == if others == [] then Idle
            else if others == [READY] then Named(1, READY, StartPhase0)
            else Refused(SeveralOpen)
  {
    hide GuidedReachable, ResolveEpicForNext, Navigate;
    UpToClosing();
    UpToClosingWithOthers();
    ClosingIsCompleted();
    assert |others| == 0 || others[0] == READY;
    WhichIsFound([CLOSING] + others);
    WhichIsFound([CLOSED] + others);
    assert [CLOSING] + [] == [CLOSING];
    assert [CLOSING] + others == if others == [] then [CLOSING]
        else if others == [READY] then [CLOSING, READY] else [CLOSING, READY, CREATED];
    assert ([CLOSING] + others)[0 := CLOSED] == [CLOSED] + others;
    ReadyIsNamed();
  }

  lemma ReadyIsNamed()
    ensures Navigate(READY, [DONE, DONE, CLOSER], "r") == Navigated(READY, StartPhase0)
  {
    assert OpenTask([DONE, DONE, CLOSER]).None?;
  }

  /** Following the navigator can begin as soon as there is a plan. */
  lemma PlannedIsAtBoundary()
    ensures AtBoundary(ANY, Project([DONE], "r", [PLANNED]), 0) && Pending(PLANNED.plan) == 2
  {
    hide GuidedReachable;
    UpToPlan();
    assert OpenTask([DONE]).None?;
    PendingAppended([ANALYSIS, WORK], FINAL);
    PendingAppended([ANALYSIS], WORK);
    PendingAppended([], ANALYSIS);
    assert [] + [ANALYSIS] == [ANALYSIS] && [ANALYSIS] + [WORK] == [ANALYSIS, WORK];
    assert [ANALYSIS, WORK] + [FINAL] == PLANNED.plan;
  }

  // A baseline off the boundary

  lemma FirstIsNamed()
    ensures Navigate(PLANNED, [DONE], "r") == Navigated(PLANNED, StartNextTask(1))
  {
    assert First(PLANNED.plan, ItemActive).None?;
    assert PLANNED.plan[1].status.ItemPending?;
    assert First(PLANNED.plan, ItemPending) == Some(1);
    assert OpenTask([DONE]).None?;
  }

  /** When the worktree changes between the boundary check and the recording of the baseline, a guided run has
      two consecutive items that no accepted Task links, with no drift reconciliation between them. */
  lemma MovedStartBreaksTheChain() returns (p: Project)
    ensures GuidedReachable(ANY, p) && |p.epics| == 1 && Adjacent(p.epics[0], 0) && p.epics[0].driftLog == {}
    ensures p.epics[0].plan[0].task == Some(0) && p.epics[0].plan[1].task == Some(1) && |p.tasks| == 2
    ensures forall ids :: !TrailTo(p.tasks, 0, ids, 1, p.tasks[1].baseline)
  {
    hide GuidedReachable, StartNext, OtherExecuting, Navigate;
    UpToPlan();
    FirstIsNamed();
    FirstStarts("x");
    NoOther(PLANNED);
    p := Project([DONE, NewTask("x")], "x", [FIRST]);
    Go(Project([DONE], "r", [PLANNED]), OnEpic(0, CallStartNext(Some("x"))), p);
    forall ids ensures !TrailTo(p.tasks, 0, ids, 1, "x") {
      assert ids != [] ==> !(0 < ids[0] < 1);
    }
  }

  // Refusals

  /** Phase 0 is named for an approved Epic and refused, because another Epic is executing. */
  lemma Phase0IsRefused() returns (p: Project)
    ensures GuidedReachable(ANY, p) && |p.epics| == 2 && OpenTask(p.tasks).None?
    ensures Navigate(p.epics[1], p.tasks, p.repo) == Navigated(p.epics[1], StartPhase0)
    ensures forall moved :: Perform(ANY, p, 1, CallStartNext(moved)) == Err(AnotherExecuting(0))
  {
    hide GuidedReachable;
    UpToAnalysis();
    Go(Project([DONE], "r", [ANALYSED]), CreateEpic("t", "s"), Project([DONE], "r", [ANALYSED, CREATED]));
    p := Project([DONE], "r", [ANALYSED, READY]);
    Go(Project([DONE], "r", [ANALYSED, CREATED]), OnEpic(1, CallApprove), p);
    assert OtherExecuting([ANALYSED, READY], 1) == Some(0);
  }

  const FOREIGN := Task(TaskCompleted, "r", [Stage(true, "s", "r", None)], ["a.py"], [], [])
  const REVIEWING := PLANNED.(status := Blocked, reason := InterveningReview)
  const DRIFTED := PLANNED.(status := Blocked, reason := RepositoryDrift)

  lemma ForeignIsStandalone()
    ensures !Linked(PLANNED, 1)
  {
  }

  lemma ForeignExplains()
    ensures Detect(PLANNED, [DONE, FOREIGN], "s") == Explained([1])
  {
    var tasks := [DONE, FOREIGN];
    ForeignIsStandalone();
    assert Accepted(DONE) == "r" && Accepted(FOREIGN) == "s";
    assert Continues(tasks, [1], 0, "r");
    assert FollowsAnchor(PLANNED, tasks, [1], 0);
    assert Explains(PLANNED, tasks, "s", [1], 0);
    DetectionIsComplete(PLANNED, tasks, "s", [1], 0);
  }

  /** A repository where no completed Task was accepted is never explained. */
  lemma NothingExplains(e: Epic, tasks: seq<Task>, repo: Digest)
    requires !IsAccepted(tasks, repo)
    ensures Detect(e, tasks, repo).Unexplained?
  {
    if Detect(e, tasks, repo).Explained? {
      var anchor := DetectionIsSound(e, tasks, repo, Detect(e, tasks, repo).tasks);
      ExplanationIsNotEmpty(e, tasks, repo, Detect(e, tasks, repo).tasks, anchor);
    }
  }

  lemma UpToReview()
    ensures GuidedReachable(ANY, Project([DONE, FOREIGN], "s", [REVIEWING]))
  {
    hide GuidedReachable, Detect, First, SyncActiveItem;
    UpToPlan();
    Go(Project([DONE], "r", [PLANNED]), OpenStandalone, Project([DONE, OPEN], "r", [PLANNED]));
    Go(Project([DONE, OPEN], "r", [PLANNED]), ChangeWorktree("s"), Project([DONE, OPEN], "s", [PLANNED]));
    Go(Project([DONE, OPEN], "s", [PLANNED]), WorkOnTask(FOREIGN), Project([DONE, FOREIGN], "s", [PLANNED]));
    ForeignExplains();
    NothingToSync([DONE, FOREIGN]);
    Go(Project([DONE, FOREIGN], "s", [PLANNED]), NextAction(Some(0)), Project([DONE, FOREIGN], "s", [REVIEWING]));
  }

  lemma NothingToSync(tasks: seq<Task>)
    ensures SyncActiveItem(PLANNED, tasks) == Synced(PLANNED, NothingActive)
  {
  }

  /** A review of intervening Tasks is named and refused whatever the caller says, because the worktree has
      changed since it was found. */
  lemma ReviewIsRefused() returns (p: Project)
    ensures GuidedReachable(ANY, p) && |p.epics| == 1 && AwaitsReview(p.epics[0])
    ensures Navigate(p.epics[0], p.tasks, p.repo) == Navigated(p.epics[0], ReviewInterveningTasks)
    ensures Detect(p.epics[0], p.tasks, p.repo).Unexplained?
    ensures forall keys, outcome, affected, texts ::
              Perform(ANY, p, 0, CallRecordReview(keys, outcome, affected, texts)) == Err(NotExplained)
  {
    hide GuidedReachable, Detect;
    UpToReview();
    p := Project([DONE, FOREIGN], "t", [REVIEWING]);
    Go(Project([DONE, FOREIGN], "s", [REVIEWING]), ChangeWorktree("t"), p);
    NothingExplains(REVIEWING, p.tasks, "t");
  }

  lemma UpToDrift()
    ensures GuidedReachable(ANY, Project([DONE], "x", [DRIFTED]))
  {
    hide GuidedReachable, Detect, First, SyncActiveItem;
    UpToPlan();
    Go(Project([DONE], "r", [PLANNED]), ChangeWorktree("x"), Project([DONE], "x", [PLANNED]));
    NothingExplains(PLANNED, [DONE], "x");
    NothingToSync([DONE]);
    Go(Project([DONE], "x", [PLANNED]), NextAction(Some(0)), Project([DONE], "x", [DRIFTED]));
  }

  /** A drift reconciliation is named and refused, because a standalone Task is open. */
  lemma DriftStartIsRefused() returns (p: Project)
    ensures GuidedReachable(ANY, p) && |p.epics| == 1
    ensures Navigate(p.epics[0], p.tasks, p.repo) == Navigated(p.epics[0], StartDriftReconciliation)
    ensures Perform(ANY, p, 0, CallStartDrift) == Err(TaskIsOpen(1))
  {
    hide GuidedReachable;
    UpToDrift();
    p := Project([DONE, NewTask("x")], "x", [DRIFTED]);
    Go(Project([DONE], "x", [DRIFTED]), OpenStandalone, p);
  }
}
