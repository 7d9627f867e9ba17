/** Following the navigator ends: round after round of starting what it names, having the Task completed and
    asking again, an Epic without drift is completed after as many rounds as it has pending items and retried
    closures. */
module EpicProgress {
  import opened Epics
  import opened Options
  import opened TaskBoundary
  import opened EpicPlanning
  import opened EpicExecution
  import opened EpicReview
  import opened EpicNavigation
  import opened EpicInvariants
  import opened EpicRuns
  import opened EpicTheorems
  import opened EpicGuidedRuns
  import opened EpicAdvice
  import opened EpicAnswers

  // Rounds

  /** A start of what the navigator named, whatever happens elsewhere until the Task is completed, and a call
      of `next_action` with the Epic's key or without one. */
  datatype Round = Round(moved: Option<Digest>, work: seq<Step>, key: Option<nat>)

  function AfterStart(q: Quality, p: Project, k: nat, r: Round): Project {
    Next(q, p, OnEpic(k, CallStartNext(r.moved)))
  }

  function AfterWork(q: Quality, p: Project, k: nat, r: Round): Project { Run(q, AfterStart(q, p, k, r), r.work) }

  function AfterRound(q: Quality, p: Project, k: nat, r: Round): Project {
    Next(q, AfterWork(q, p, k, r), NextAction(r.key))
  }

  function StepsOf(k: nat, r: Round): seq<Step> {
    [OnEpic(k, CallStartNext(r.moved))] + r.work + [NextAction(r.key)]
  }

  /** A step that neither calls the engine for Epic k nor asks for its next action. */
  predicate Elsewhere(step: Step, k: nat) {
    && (step.OnEpic? ==> step.k != k)
    && (step.NextAction? ==> step.key.Some? && step.key != Some(k))
  }

  predicate NamesFinal(e: Epic) { PendingNavigation(e).StartFinalReview? }

  predicate ClosureEvidence(t: Task) { DocsUpdated(t) && KnowledgePublished(t) && MapReconciled(t) }

  /** The Task opened in the round, when the round asks again. */
  function RoundTask(q: Quality, p: Project, k: nat, r: Round): Option<Task> {
    TaskRow(AfterWork(q, p, k, r).tasks, Some(|p.tasks|))
  }

  /** The work of the round ends with its Task completed, no Task open and the repository where the Task was
      accepted: no drift. A closure that lacks only the map waits for it. */
  ghost predicate Undrifted(q: Quality, p: Project, k: nat, r: Round) {
    && (r.key == None || r.key == Some(k))
    && (forall i | 0 <= i < |r.work| :: Elsewhere(r.work[i], k))
    && GuidedRun(q, AfterStart(q, p, k, r), r.work)
    && var t := RoundTask(q, p, k, r);
    && t.Some? && t.value.status.TaskCompleted?
    && OpenTask(AfterWork(q, p, k, r).tasks).None? && AfterWork(q, p, k, r).repo == Accepted(t.value)
    && (k < |p.epics| && NamesFinal(p.epics[k]) ==> !AwaitsMapOnly(t.value))
  }

  /** The round was a closure without the evidence. */
  predicate Retried(q: Quality, p: Project, k: nat, r: Round) {
    && k < |p.epics| && NamesFinal(p.epics[k])
    && RoundTask(q, p, k, r).Some? && !ClosureEvidence(RoundTask(q, p, k, r).value)
  }

  function Pending(plan: seq<PlanItem>): nat {
    if plan == [] then 0
    else Pending(plan[..|plan| - 1]) + if plan[|plan| - 1].status.ItemPending? then 1 else 0
  }

  lemma {:induction false} PendingReplaced(plan: seq<PlanItem>, i: nat, item: PlanItem)
    requires i < |plan| && plan[i].status.ItemPending? && !item.status.ItemPending?
    ensures Pending(plan[i := item]) == Pending(plan) - 1
    decreases |plan|
  {
    var last := |plan| - 1;
    if i == last {
      assert plan[i := item][..last] == plan[..last];
    } else {
      PendingReplaced(plan[..last], i, item);
      assert plan[i := item][..last] == plan[..last][i := item];
    }
  }

  lemma PendingAppended(plan: seq<PlanItem>, item: PlanItem)
    ensures Pending(plan + [item]) == Pending(plan) + if item.status.ItemPending? then 1 else 0
  {
    assert (plan + [item])[..|plan|] == plan;
  }

  lemma {:induction false} PendingIff(plan: seq<PlanItem>)
    ensures Pending(plan) == 0 <==> forall i | 0 <= i < |plan| :: !plan[i].status.ItemPending?
    decreases |plan|
  {
    if plan != [] {
      PendingIff(plan[..|plan| - 1]);
    }
  }

  // Between two items

  /** Epic k is executing between two items, and the repository is its accepted boundary. */
  ghost predicate AtBoundary(q: Quality, p: Project, k: nat) {
    && GuidedReachable(q, p) && k < |p.epics| && BetweenTwo(p.epics[k])
    && OpenTask(p.tasks).None? && p.repo == p.epics[k].digest
  }

  predicate BetweenTwo(e: Epic) { InRun(e) && e.driftTask == None && NoneActive(e.plan) }

  lemma NoneActiveIsFirst(plan: seq<PlanItem>)
    requires NoneActive(plan)
    ensures First(plan, ItemActive).None?
  {
  }

  lemma OnlyActiveIsFirst(plan: seq<PlanItem>, i: nat, item: PlanItem)
    requires NoneActive(plan) && i < |plan| && item.status.ItemActive?
    ensures First(plan[i := item], ItemActive) == Some(i)
  {
    assert plan[i := item][i].status.ItemActive?;
  }

  /** There the navigator changes nothing and names the first pending item. */
  lemma BoundaryIsNamed(e: Epic, tasks: seq<Task>, repo: Digest)
    requires BetweenTwo(e) && OpenTask(tasks).None? && repo == e.digest
    ensures Navigate(e, tasks, repo) == Navigated(e, PendingNavigation(e))
  {
    NoneActiveIsFirst(e.plan);
  }

  lemma SomethingIsNamed(q: Quality, p: Project, k: nat)
    requires AtBoundary(q, p, k)
    ensures var e := p.epics[k];
            && First(e.plan, ItemPending).Some? && e.plan[First(e.plan, ItemPending).value].status.ItemPending?
            && (PendingNavigation(e).StartNextTask? || PendingNavigation(e).StartFinalReview?)
            && AtMostOneExecuting(p.epics)
  {
    hide GuidedReachable, EpicOk, TasksOk, ReadyOk;
    EveryGuidedProjectIsReady(q, p);
    SomethingIsPending(p.tasks, p.epics[k]);
  }

  /** The row once its item i was started with Task t. */
  function Active(e: Epic, i: nat, t: nat): Epic
    requires i < |e.plan|
  {
    e.(plan := e.plan[i := e.plan[i].(task := Some(t), status := ItemActive)],
       status := if e.plan[i].kind.Final? then FinalReview else Running)
  }

  lemma NamedIsStarted(q: Quality, p: Project, k: nat, moved: Option<Digest>)
    requires AtBoundary(q, p, k)
    ensures var step := OnEpic(k, CallStartNext(moved));
            && Guided(p, step) && First(p.epics[k].plan, ItemPending).Some?
            && var i := First(p.epics[k].plan, ItemPending).value;
            && i < |p.epics[k].plan|
            && Next(q, p, step).epics == p.epics[k := Active(p.epics[k], i, |p.tasks|)]
  {
    hide GuidedReachable, First;
    SomethingIsNamed(q, p, k);
    BoundaryIsNamed(p.epics[k], p.tasks, p.repo);
  }

  // The work

  lemma {:induction false} ElsewhereLeavesEpic(q: Quality, p: Project, k: nat, steps: seq<Step>)
    requires k < |p.epics| && GuidedReachable(q, p) && GuidedRun(q, p, steps)
    requires forall i | 0 <= i < |steps| :: Elsewhere(steps[i], k)
    ensures GuidedReachable(q, Run(q, p, steps))
    ensures k < |Run(q, p, steps).epics| && Run(q, p, steps).epics[k] == p.epics[k]
    decreases |steps|
  {
    hide GuidedReachable, Next, Guided;
    if steps != [] {
      StaysGuided(q, p, steps[0]);
      OneStepElsewhere(q, p, k, steps[0]);
      ElsewhereLeavesEpic(q, Next(q, p, steps[0]), k, steps[1..]);
    }
  }

  lemma OneStepElsewhere(q: Quality, p: Project, k: nat, step: Step)
    requires k < |p.epics| && Elsewhere(step, k)
    ensures k < |Next(q, p, step).epics| && Next(q, p, step).epics[k] == p.epics[k]
  {
    hide Perform, Navigate;
  }

  // Asking again

  /** The row once item i is settled by its completed Task t. */
  function Closed(e: Epic, i: nat, t: Task): Epic
    requires i < |e.plan|
  {
    var done := WithItemStatus(e, i, ItemCompleted).(digest := Accepted(t));
    if !e.plan[i].kind.Final? then done
    else if ClosureEvidence(t) then done.(status := Completed, reason := NoReason)
    else RetryFinalItem(done).(status := FinalReview, reason := NoReason)
  }

  lemma ItemIsSettled(e: Epic, tasks: seq<Task>, i: nat)
    requires i < |e.plan| && IsCompletedTask(tasks, e.plan[i].task)
    requires e.plan[i].kind.Final? ==> !AwaitsMapOnly(tasks[e.plan[i].task.value])
    ensures Settle(e, tasks, i) == Synced(Closed(e, i, tasks[e.plan[i].task.value]), ItemDone)
  {
    hide Accepted, DocsUpdated, KnowledgePublished, MapReconciled, MaxOrdinal;
    StatusKeepsOrdinals(e.plan, i, ItemCompleted);
    var final := FinalItem(MaxOrdinal(e.plan) + 1, e.planVersion);
    var item := e.plan[i].(status := ItemCompleted);
    assert (e.plan + [final])[i := item] == e.plan[i := item] + [final];
  }

  lemma StatusKeepsOrdinals(plan: seq<PlanItem>, i: nat, status: ItemStatus)
    requires i < |plan|
    ensures MaxOrdinal(plan[i := plan[i].(status := status)]) == MaxOrdinal(plan)
  {
    hide MaxOrdinal;
    var plan' := plan[i := plan[i].(status := status)];
    assert forall j | 0 <= j < |plan| :: plan'[j].ordinal == plan[j].ordinal;
    var a :| 0 <= a < |plan| && plan[a].ordinal == MaxOrdinal(plan);
    var b :| 0 <= b < |plan'| && plan'[b].ordinal == MaxOrdinal(plan');
    assert plan'[a].ordinal <= MaxOrdinal(plan') && plan[b].ordinal <= MaxOrdinal(plan);
  }

  lemma ClosedIsBetween(e: Epic, i: nat, t: Task)
    requires i < |e.plan| && InRun(e) && e.driftTask == None
    requires forall j | 0 <= j < |e.plan| && j != i :: !e.plan[j].status.ItemActive?
    ensures var e' := Closed(e, i, t);
            if e.plan[i].kind.Final? && ClosureEvidence(t) then e'.status.Completed?
            else BetweenTwo(e') && e'.digest == Accepted(t)
  {
    hide Accepted, DocsUpdated, KnowledgePublished, MapReconciled, MaxOrdinal;
  }

  /** Navigating then settles the item, and goes on to the next or to the archive. */
  lemma SettlesAndGoesOn(e: Epic, tasks: seq<Task>, repo: Digest, i: nat)
    requires i < |e.plan| && InRun(e) && e.driftTask == None && First(e.plan, ItemActive) == Some(i)
    requires forall j | 0 <= j < |e.plan| && j != i :: !e.plan[j].status.ItemActive?
    requires IsCompletedTask(tasks, e.plan[i].task) && OpenTask(tasks).None?
    requires repo == Accepted(tasks[e.plan[i].task.value])
    requires e.plan[i].kind.Final? ==> !AwaitsMapOnly(tasks[e.plan[i].task.value])
    ensures var e' := Closed(e, i, tasks[e.plan[i].task.value]);
            Navigate(e, tasks, repo)
            == Navigated(e', if e'.status.Completed? then ArchiveEpic else PendingNavigation(e'))
  {
    hide Accepted, DocsUpdated, KnowledgePublished, MapReconciled, First, Closed, Settle, PendingNavigation;
    ItemIsSettled(e, tasks, i);
    ClosedIsBetween(e, i, tasks[e.plan[i].task.value]);
  }

  lemma ClosedCounts(e: Epic, i: nat, t: nat, task: Task)
    requires i < |e.plan| && e.plan[i].status.ItemPending?
    ensures var e' := Closed(Active(e, i, t), i, task);
            Pending(e'.plan) == Pending(e.plan) - 1 + if e.plan[i].kind.Final? && !ClosureEvidence(task) then 1 else 0
  {
    hide Accepted, DocsUpdated, KnowledgePublished, MapReconciled, MaxOrdinal, Pending;
    var active := Active(e, i, t);
    var done := e.plan[i].(task := Some(t), status := ItemCompleted);
    assert active.plan[i := done] == e.plan[i := done];
    PendingReplaced(e.plan, i, done);
    PendingAppended(e.plan[i := done], FinalItem(MaxOrdinal(e.plan[i := done]) + 1, e.planVersion));
  }

  /** While Epic k is executing, a call without a key finds it. */
  lemma ExecutingIsFound(epics: seq<Epic>, k: nat, key: Option<nat>)
    requires AtMostOneExecuting(epics) && k < |epics| && Executing(epics[k].status) && (key == None || key == Some(k))
    ensures ResolveEpicForNext(epics, key) == Ok(Some(k))
  {
    hide AtMostOneExecuting;
    var ids := ExecutingEpics(epics);
    AtMostOneIsFound(epics);
    assert IsExecuting(epics, k) && k in ids;
  }

  // A round

  lemma RoundsWork(q: Quality, p: Project, k: nat, r: Round)
    requires AtBoundary(q, p, k) && Undrifted(q, p, k, r)
    ensures var p2 := AfterWork(q, p, k, r);
            && GuidedReachable(q, p2) && k < |p2.epics| && First(p.epics[k].plan, ItemPending).Some?
            && var i := First(p.epics[k].plan, ItemPending).value;
            && i < |p.epics[k].plan|
            && p2.epics[k] == Active(p.epics[k], i, |p.tasks|) && AtMostOneExecuting(p2.epics)
  {
    hide GuidedReachable, Next, Guided, First, EpicOk, TasksOk, ReadyOk;
    NamedIsStarted(q, p, k, r.moved);
    StaysGuided(q, p, OnEpic(k, CallStartNext(r.moved)));
    ElsewhereLeavesEpic(q, AfterStart(q, p, k, r), k, r.work);
    EveryGuidedProjectIsReady(q, AfterWork(q, p, k, r));
  }

  /** One round with its item: the item's Task is completed, and the navigator names the next one or, for a
      closure with its evidence, the archiving of the completed Epic. */
  lemma RoundMakesProgress(q: Quality, p: Project, k: nat, r: Round)
    requires AtBoundary(q, p, k) && Undrifted(q, p, k, r)
    ensures var p' := AfterRound(q, p, k, r);
            && k < |p'.epics| && GuidedReachable(q, p')
            && Pending(p'.epics[k].plan) == Pending(p.epics[k].plan) - 1 + (if Retried(q, p, k, r) then 1 else 0)
            && var closes := NamesFinal(p.epics[k]) && !Retried(q, p, k, r);
            && (if closes then p'.epics[k].status.Completed? else AtBoundary(q, p', k))
            && AnswerOf(AfterWork(q, p, k, r), r.key)
               == Named(k, p'.epics[k], if closes then ArchiveEpic else PendingNavigation(p'.epics[k]))
  {
    hide GuidedReachable, First, Navigate, ResolveEpicForNext, Closed, ClosureEvidence, Pending, Accepted, Run;
    SomethingIsNamed(q, p, k);
    RoundsWork(q, p, k, r);
    var i := First(p.epics[k].plan, ItemPending).value;
    var p2 := AfterWork(q, p, k, r);
    var t := |p.tasks|;
    var e := p2.epics[k];
    OnlyActiveIsFirst(p.epics[k].plan, i, e.plan[i]);
    ExecutingIsFound(p2.epics, k, r.key);
    SettlesAndGoesOn(e, p2.tasks, p2.repo, i);
    ClosedIsBetween(e, i, p2.tasks[t]);
    ClosedCounts(p.epics[k], i, t, p2.tasks[t]);
    StaysGuided(q, p2, NextAction(r.key));
  }

  // Any number of rounds

  /** Rounds one after another, up to one that completes the Epic. */
  ghost predicate Followed(q: Quality, p: Project, k: nat, rounds: seq<Round>)
    decreases |rounds|
  {
    rounds == []
    || (&& k < |p.epics| && Undrifted(q, p, k, rounds[0])
        && (NamesFinal(p.epics[k]) && !Retried(q, p, k, rounds[0]) ==> |rounds| == 1)
        && Followed(q, AfterRound(q, p, k, rounds[0]), k, rounds[1..]))
  }

  function AfterRounds(q: Quality, p: Project, k: nat, rounds: seq<Round>): Project
    decreases |rounds|
  {
    if rounds == [] then p else AfterRounds(q, AfterRound(q, p, k, rounds[0]), k, rounds[1..])
  }

  function Retries(q: Quality, p: Project, k: nat, rounds: seq<Round>): nat
    decreases |rounds|
  {
    if rounds == [] then 0
    else
      (if Retried(q, p, k, rounds[0]) then 1 else 0)
      + Retries(q, AfterRound(q, p, k, rounds[0]), k, rounds[1..])
  }

  lemma {:induction false} RoundsAreCounted(q: Quality, p: Project, k: nat, rounds: seq<Round>)
    requires AtBoundary(q, p, k) && Followed(q, p, k, rounds)
    ensures var p' := AfterRounds(q, p, k, rounds);
            && k < |p'.epics| && GuidedReachable(q, p')
            && Pending(p'.epics[k].plan) + |rounds| == Pending(p.epics[k].plan) + Retries(q, p, k, rounds)
            && (p'.epics[k].status.Completed? || AtBoundary(q, p', k))
    decreases |rounds|
  {
    hide GuidedReachable, AtBoundary, Undrifted, AfterRound, Retried, Pending, NamesFinal;
    if rounds == [] {
      BoundaryIsReached(q, p, k);
    } else {
      RoundMakesProgress(q, p, k, rounds[0]);
      var p1 := AfterRound(q, p, k, rounds[0]);
      if NamesFinal(p.epics[k]) && !Retried(q, p, k, rounds[0]) {
        assert rounds[1..] == [];
      } else {
        RoundsAreCounted(q, p1, k, rounds[1..]);
      }
    }
  }

  lemma BoundaryIsReached(q: Quality, p: Project, k: nat)
    requires AtBoundary(q, p, k)
    ensures k < |p.epics| && GuidedReachable(q, p)
  {
  }

  /** The rounds as steps of the project. */
  function StepsOfAll(k: nat, rounds: seq<Round>): seq<Step> {
    if rounds == [] then [] else StepsOf(k, rounds[0]) + StepsOfAll(k, rounds[1..])
  }

  lemma {:induction false} GuidedRunsJoin(q: Quality, p: Project, a: seq<Step>, b: seq<Step>)
    requires GuidedRun(q, p, a) && GuidedRun(q, Run(q, p, a), b)
    ensures GuidedRun(q, p, a + b) && Run(q, p, a + b) == Run(q, Run(q, p, a), b)
    decreases |a|
  {
    hide Next, Guided;
    if a == [] {
      assert a + b == b;
    } else {
      assert (a + b)[1..] == a[1..] + b;
      GuidedRunsJoin(q, Next(q, p, a[0]), a[1..], b);
    }
  }

  lemma OneStepRun(q: Quality, p: Project, step: Step)
    requires Guided(p, step)
    ensures GuidedRun(q, p, [step]) && Run(q, p, [step]) == Next(q, p, step)
  {
    hide Next, Guided;
    assert [step][1..] == [];
    assert GuidedRun(q, Next(q, p, step), []) && Run(q, Next(q, p, step), []) == Next(q, p, step);
  }

  lemma RoundIsGuided(q: Quality, p: Project, k: nat, r: Round)
    requires AtBoundary(q, p, k) && Undrifted(q, p, k, r)
    ensures GuidedRun(q, p, StepsOf(k, r)) && Run(q, p, StepsOf(k, r)) == AfterRound(q, p, k, r)
  {
    hide GuidedReachable, Next, Run, GuidedRun, First;
    var start, ask := OnEpic(k, CallStartNext(r.moved)), NextAction(r.key);
    NamedIsStarted(q, p, k, r.moved);
    OneStepRun(q, p, start);
    GuidedRunsJoin(q, p, [start], r.work);
    OneStepRun(q, AfterWork(q, p, k, r), ask);
    GuidedRunsJoin(q, p, [start] + r.work, [ask]);
  }

  lemma {:induction false} RoundsAreGuided(q: Quality, p: Project, k: nat, rounds: seq<Round>)
    requires AtBoundary(q, p, k) && Followed(q, p, k, rounds)
    ensures GuidedRun(q, p, StepsOfAll(k, rounds)) && Run(q, p, StepsOfAll(k, rounds)) == AfterRounds(q, p, k, rounds)
    decreases |rounds|
  {
    hide GuidedReachable, AtBoundary, Undrifted, AfterRound, Retried, Pending, NamesFinal, StepsOf;
    if rounds != [] {
      var p1 := AfterRound(q, p, k, rounds[0]);
      RoundIsGuided(q, p, k, rounds[0]);
      RoundMakesProgress(q, p, k, rounds[0]);
      if NamesFinal(p.epics[k]) && !Retried(q, p, k, rounds[0]) {
        assert rounds[1..] == [];
      } else {
        RoundsAreGuided(q, p1, k, rounds[1..]);
      }
      assert GuidedRun(q, p1, StepsOfAll(k, rounds[1..]));
      GuidedRunsJoin(q, p, StepsOf(k, rounds[0]), StepsOfAll(k, rounds[1..]));
    }
  }

  /** The Epic is completed exactly when the rounds are as many as its pending items and retried closures;
      until then something is pending and the navigator goes on naming it. So rounds without a retry complete
      it when they are as many as the pending items. */
  lemma FollowingCompletesTheEpic(q: Quality, p: Project, k: nat, rounds: seq<Round>)
    requires AtBoundary(q, p, k) && Followed(q, p, k, rounds)
    ensures GuidedRun(q, p, StepsOfAll(k, rounds)) && Run(q, p, StepsOfAll(k, rounds)) == AfterRounds(q, p, k, rounds)
    ensures var p', all := AfterRounds(q, p, k, rounds), Pending(p.epics[k].plan) + Retries(q, p, k, rounds);
            && k < |p'.epics| && |rounds| <= all
            && (p'.epics[k].status.Completed? <==> |rounds| == all)
            && Navigate(p'.epics[k], p'.tasks, p'.repo)
               == Navigated(p'.epics[k],
                            if |rounds| == all then ArchiveEpic else PendingNavigation(p'.epics[k]))
  {
    hide GuidedReachable, Undrifted, AfterRound, Retried, Pending, NamesFinal, Followed, Retries, AfterRounds, First,
        PendingNavigation;
    RoundsAreGuided(q, p, k, rounds);
    RoundsAreCounted(q, p, k, rounds);
    var p' := AfterRounds(q, p, k, rounds);
    var e := p'.epics[k];
    PendingIff(e.plan);
    if e.status.Completed? {
      CompletedIsAllDone(q, p', k);
    } else {
      SomethingIsNamed(q, p', k);
      BoundaryIsNamed(e, p'.tasks, p'.repo);
    }
  }

  lemma CompletedIsAllDone(q: Quality, p: Project, k: nat)
    requires GuidedReachable(q, p) && k < |p.epics| && p.epics[k].status.Completed?
    ensures forall i | 0 <= i < |p.epics[k].plan| :: !p.epics[k].plan[i].status.ItemPending?
    ensures Navigate(p.epics[k], p.tasks, p.repo) == Navigated(p.epics[k], ArchiveEpic)
  {
    hide Evidenced, TasksOk, SpecsOk, PlanOk, LinksOk, DigestOk;
    EveryGuidedProjectIsReady(q, p);
  }
}
