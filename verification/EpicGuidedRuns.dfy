/** Runs in which every plan item is started because the navigator just named it. */
module EpicGuidedRuns {
  import opened Epics
  import opened Options
  import opened TaskBoundary
  import opened EpicLifecycle
  import opened EpicPlanning
  import opened EpicExecution
  import opened EpicReview
  import opened EpicNavigation
  import opened EpicInvariants
  import opened EpicPreservation
  import opened EpicRuns
  import opened EpicTheorems

  predicate AtMostOneActive(plan: seq<PlanItem>) {
    forall i, j | 0 <= i < j < |plan| :: !(plan[i].status.ItemActive? && plan[j].status.ItemActive?)
  }

  // The fixpoint

  predicate NoneActive(plan: seq<PlanItem>) {
    forall i | 0 <= i < |plan| :: !plan[i].status.ItemActive?
  }

  /** Settling the only active item leaves none, unless the item stays as it is. */
  lemma SettledOnce(e: Epic, tasks: seq<Task>, i: nat)
    requires AtMostOneActive(e.plan) && i < |e.plan| && e.plan[i].status.ItemActive?
    ensures var s := Settle(e, tasks, i);
            if s.state.ItemOpen? || s.state.AwaitsMap? then s.epic.plan == e.plan && Settle(s.epic, tasks, i) == s
            else NoneActive(s.epic.plan)
  {
    hide Accepted, DocsUpdated, KnowledgePublished, MapReconciled, MaxOrdinal;
  }

  lemma SyncIsStable(e: Epic, tasks: seq<Task>)
    requires AtMostOneActive(e.plan)
    ensures var s := SyncActiveItem(e, tasks);
            SyncActiveItem(s.epic, tasks)
            == if s.state.ItemOpen? || s.state.AwaitsMap? then s else Synced(s.epic, NothingActive)
  {
    hide Settle;
    var active := First(e.plan, ItemActive);
    if active.Some? {
      SettledOnce(e, tasks, active.value);
    }
  }

  lemma SyncOutcome(e: Epic, tasks: seq<Task>)
    requires InRun(e)
    ensures var s := SyncActiveItem(e, tasks);
            && s.epic.driftTask == e.driftTask
            && (s.epic.status.Blocked? ==> s.epic.reason.TaskMissing? || s.epic.reason.TaskEnded?)
            && (s.epic.status.Blocked? || s.epic.status.Completed? || InRun(s.epic))
            && (s.state.ItemOpen? || s.state.AwaitsMap? ==> InRun(s.epic))
  {
    hide Accepted, DocsUpdated, KnowledgePublished, MapReconciled, MaxOrdinal, First;
  }

  /** Navigating an Epic again changes nothing and names the same action, whether the first time synced an
      item, retried the closure, blocked the Epic or completed it. */
  lemma NavigateIsIdempotent(e: Epic, tasks: seq<Task>, repo: Digest)
    requires AtMostOneActive(e.plan)
    ensures Navigate(Navigate(e, tasks, repo).epic, tasks, repo) == Navigate(e, tasks, repo)
  {
    hide SyncActiveItem, StandaloneOpen, DriftAction, PendingNavigation, Phase0Navigation, ApprovedNavigation;
    if InRun(e) && e.driftTask == None {
      SyncOutcome(e, tasks);
      SyncIsStable(e, tasks);
      DriftActionKinds(SyncActiveItem(e, tasks).epic, tasks, repo);
    }
  }

  lemma DriftActionKinds(e: Epic, tasks: seq<Task>, repo: Digest)
    ensures var a := DriftAction(e, tasks, repo);
            a.Some? ==> a.value.ReviewInterveningTasks? || a.value.StartDriftReconciliation?
  {
    hide Detect;
  }

  // The chain

  /** Completed Tasks after Task a, in order, each starting where the one before was accepted. */
  predicate Trail(tasks: seq<Task>, a: nat, ids: seq<nat>) {
    && a < |tasks| && tasks[a].status.TaskCompleted?
    && AreTasks(tasks, ids)
    && (forall k | 0 <= k < |ids| :: a < ids[k] && tasks[ids[k]].status.TaskCompleted?)
    && (forall j, k | 0 <= j < k < |ids| :: ids[j] < ids[k])
    && Unbroken(tasks, ids, Accepted(tasks[a]))
  }

  predicate TrailTo(tasks: seq<Task>, a: nat, ids: seq<nat>, bound: nat, digest: Digest) {
    && Trail(tasks, a, ids)
    && (forall k | 0 <= k < |ids| :: ids[k] < bound)
    && Arrives(tasks, ids, Accepted(tasks[a])) == digest
  }

  /** Between Task a and Task `bound` the Epic was reconciled for drift, or accepted Tasks lead from where
      a was accepted to `digest`. */
  ghost predicate Chained(tasks: seq<Task>, e: Epic, a: nat, bound: nat, digest: Digest) {
    || (exists d :: d in e.driftLog && a < d < bound)
    || (exists ids :: TrailTo(tasks, a, ids, bound, digest))
  }

  predicate HasTask(item: PlanItem) { item.task.Some? }

  predicate Adjacent(e: Epic, i: nat) { i + 1 < |e.plan| && HasTask(e.plan[i]) && HasTask(e.plan[i + 1]) }

  /** `seen` tells for each Task the repository before the step that opened it. */
  ghost predicate PairChained(tasks: seq<Task>, seen: seq<Digest>, e: Epic, i: nat)
    requires Adjacent(e, i)
  {
    && e.plan[i + 1].task.value < |seen|
    && Chained(tasks, e, e.plan[i].task.value, e.plan[i + 1].task.value, seen[e.plan[i + 1].task.value])
  }

  /** Item i is the last one started, and is completed. */
  predicate AtFrontier(e: Epic, i: nat) {
    && i < |e.plan| && HasTask(e.plan[i]) && e.plan[i].status.ItemCompleted?
    && (i + 1 < |e.plan| ==> !HasTask(e.plan[i + 1]))
  }

  ghost predicate GuidedOk(tasks: seq<Task>, seen: seq<Digest>, e: Epic) {
    && |seen| == |tasks| && AtMostOneActive(e.plan)
    && (forall i: nat | Adjacent(e, i) :: PairChained(tasks, seen, e, i))
    && (forall i: nat | AtFrontier(e, i) :: Chained(tasks, e, e.plan[i].task.value, |tasks|, e.digest))
    && (e.plan == [] && e.digest != "" ==>
          IsCompletedTask(tasks, e.phase0Task) && Accepted(tasks[e.phase0Task.value]) == e.digest)
    && (e.driftTask.Some? ==>
          forall i: nat | i < |e.plan| && HasTask(e.plan[i]) :: e.plan[i].task.value < e.driftTask.value)
  }

  /** A plan item is started only when the navigator, called now, changes nothing and names it. */
  predicate Guided(p: Project, step: Step) {
    step.OnEpic? && step.call.CallStartNext? && step.k < |p.epics| && InRun(p.epics[step.k]) ==>
      var n := Navigate(p.epics[step.k], p.tasks, p.repo);
      n.epic == p.epics[step.k] && (n.action.StartNextTask? || n.action.StartFinalReview?)
  }

  predicate GuidedRun(q: Quality, p: Project, steps: seq<Step>)
    decreases |steps|
  {
    steps == [] || (Guided(p, steps[0]) && GuidedRun(q, Next(q, p, steps[0]), steps[1..]))
  }

  ghost predicate GuidedReachable(q: Quality, p: Project) {
    exists p0, steps :: Initial(p0) && GuidedRun(q, p0, steps) && p == Run(q, p0, steps)
  }

  lemma {:induction false} GuidedRunAppends(q: Quality, p: Project, steps: seq<Step>, step: Step)
    requires GuidedRun(q, p, steps) && Guided(Run(q, p, steps), step)
    ensures GuidedRun(q, p, steps + [step])
    decreases |steps|
  {
    hide Next, Guided;
    if steps != [] {
      assert (steps + [step])[1..] == steps[1..] + [step];
      GuidedRunAppends(q, Next(q, p, steps[0]), steps[1..], step);
    } else {
      assert steps + [step] == [step];
      assert GuidedRun(q, Next(q, p, step), []);
    }
  }

  lemma StaysGuided(q: Quality, p: Project, step: Step)
    requires GuidedReachable(q, p) && Guided(p, step)
    ensures GuidedReachable(q, Next(q, p, step))
  {
    hide Guided, Next;
    var p0, steps :| Initial(p0) && GuidedRun(q, p0, steps) && p == Run(q, p0, steps);
    GuidedRunAppends(q, p0, steps, step);
    RunAppends(q, p0, steps, step);
    assert Next(q, p, step) == Run(q, p0, steps + [step]);
  }

  /** Starting an item without regard to the navigator keeps at most one active exactly when none was. */
  lemma StartKeepsOneActiveIff(q: Quality, p: Project, k: nat, moved: Option<Digest>)
    requires k < |p.epics| && InRun(p.epics[k]) && Perform(q, p, k, CallStartNext(moved)).Ok?
    ensures AtMostOneActive(Perform(q, p, k, CallStartNext(moved)).value.epic.plan) <==> NoneActive(p.epics[k].plan)
  {
    var plan := p.epics[k].plan;
    var i := First(plan, ItemPending).value;
    var plan' := Perform(q, p, k, CallStartNext(moved)).value.epic.plan;
    assert forall j | 0 <= j < |plan| && j != i :: plan'[j] == plan[j];
    assert plan'[i].status.ItemActive?;
  }

  /** A start that the navigator has just named is one that a guided run allows. */
  lemma NamedStartIsGuided(q: Quality, p: Project, k: nat)
    requires k < |p.epics| && AtMostOneActive(p.epics[k].plan)
    requires var n := Navigate(p.epics[k], p.tasks, p.repo).action; n.StartNextTask? || n.StartFinalReview?
    ensures forall moved :: Guided(Next(q, p, NextAction(Some(k))), OnEpic(k, CallStartNext(moved)))
  {
    hide Navigate;
    NavigateIsIdempotent(p.epics[k], p.tasks, p.repo);
  }

  // Tasks move on

  lemma TrailIsKept(a: seq<Task>, b: seq<Task>, t: nat, ids: seq<nat>, bound: nat, digest: Digest)
    requires Evolves(a, b) && TrailTo(a, t, ids, bound, digest)
    ensures TrailTo(b, t, ids, bound, digest)
  {
    assert TaskEvolves(a[t], b[t]);
    forall k | 0 <= k < |ids|
      ensures Accepted(b[ids[k]]) == Accepted(a[ids[k]])
      ensures b[ids[k]].baseline == a[ids[k]].baseline && b[ids[k]].status == a[ids[k]].status
    {
      assert TaskEvolves(a[ids[k]], b[ids[k]]);
    }
    forall k: nat | k < |ids| ensures Continues(b, ids, k, Accepted(b[t])) {
      assert Continues(a, ids, k, Accepted(a[t]));
    }
  }

  lemma ChainIsKept(a: seq<Task>, b: seq<Task>, e: Epic, e': Epic, t: nat, bound: nat, bound': nat, digest: Digest)
    requires Evolves(a, b) && Chained(a, e, t, bound, digest) && e.driftLog <= e'.driftLog && bound <= bound'
    ensures Chained(b, e', t, bound', digest)
  {
    hide TrailTo, Evolves;
    if ids :| TrailTo(a, t, ids, bound, digest) {
      TrailIsKept(a, b, t, ids, bound, digest);
      WiderTrail(b, t, ids, bound, bound', digest);
    }
  }

  lemma WiderTrail(tasks: seq<Task>, t: nat, ids: seq<nat>, bound: nat, bound': nat, digest: Digest)
    requires TrailTo(tasks, t, ids, bound, digest) && bound <= bound'
    ensures TrailTo(tasks, t, ids, bound', digest)
  {
  }

  /** The plan and the digest stay, the Tasks move on, the log may grow. */
  lemma GuidedIsKept(a: seq<Task>, b: seq<Task>, seen: seq<Digest>, seen': seq<Digest>, e: Epic, e': Epic)
    requires Evolves(a, b) && GuidedOk(a, seen, e) && seen <= seen' && |seen'| == |b|
    requires e'.plan == e.plan && e'.digest == e.digest && e'.phase0Task == e.phase0Task && e.driftLog <= e'.driftLog
    requires e'.driftTask.Some? ==>
               forall i: nat | i < |e.plan| && HasTask(e.plan[i]) :: e.plan[i].task.value < e'.driftTask.value
    ensures GuidedOk(b, seen', e')
  {
    hide Chained, Accepted;
    forall i: nat | Adjacent(e', i) ensures PairChained(b, seen', e', i) {
      assert Adjacent(e, i) && PairChained(a, seen, e, i);
      var t := e.plan[i + 1].task.value;
      ChainIsKept(a, b, e, e', e.plan[i].task.value, t, t, seen[t]);
    }
    forall i: nat | AtFrontier(e', i) ensures Chained(b, e', e.plan[i].task.value, |b|, e.digest) {
      assert AtFrontier(e, i);
      ChainIsKept(a, b, e, e', e.plan[i].task.value, |a|, |b|, e.digest);
    }
    if e.plan == [] && e.digest != "" {
      AcceptedIsKept(a, b, e.phase0Task.value);
    }
  }

  lemma AcceptedIsKept(a: seq<Task>, b: seq<Task>, t: nat)
    requires Evolves(a, b) && t < |a| && a[t].status.TaskCompleted?
    ensures b[t].status.TaskCompleted? && Accepted(b[t]) == Accepted(a[t])
  {
    assert TaskEvolves(a[t], b[t]);
  }

  // What the operations do to the chain

  /** The started items stay; whatever is at the frontier now is chained to the new digest. */
  lemma Rechained(tasks: seq<Task>, seen: seq<Digest>, e: Epic, e': Epic)
    requires GuidedOk(tasks, seen, e) && AtMostOneActive(e'.plan) && e.driftLog <= e'.driftLog
    requires forall i: nat | Adjacent(e', i) ::
               && Adjacent(e, i) && e'.plan[i].task == e.plan[i].task
               && e'.plan[i + 1].task == e.plan[i + 1].task
    requires forall i: nat | AtFrontier(e', i) :: Chained(tasks, e', e'.plan[i].task.value, |tasks|, e'.digest)
    requires e'.plan != []
    requires e'.driftTask.Some? ==>
               forall i: nat | i < |e'.plan| && HasTask(e'.plan[i]) :: e'.plan[i].task.value < e'.driftTask.value
    ensures GuidedOk(tasks, seen, e')
  {
    hide Chained, AtFrontier;
    forall i: nat | Adjacent(e', i) ensures PairChained(tasks, seen, e', i) {
      assert Adjacent(e, i) && PairChained(tasks, seen, e, i);
      var t := e.plan[i + 1].task.value;
      EvolvesReflexively(tasks);
      ChainIsKept(tasks, tasks, e, e', e.plan[i].task.value, t, t, seen[t]);
    }
  }

  lemma NothingStarted(tasks: seq<Task>, seen: seq<Digest>, e: Epic)
    requires |seen| == |tasks| && e.plan == [] && e.driftTask == None
    requires e.digest != "" ==> IsCompletedTask(tasks, e.phase0Task) && Accepted(tasks[e.phase0Task.value]) == e.digest
    ensures GuidedOk(tasks, seen, e)
  {
  }

  lemma TrailOfNone(tasks: seq<Task>, e: Epic, a: nat)
    requires a < |tasks| && tasks[a].status.TaskCompleted?
    ensures Chained(tasks, e, a, |tasks|, Accepted(tasks[a]))
  {
    assert TrailTo(tasks, a, [], |tasks|, Accepted(tasks[a]));
  }

  lemma PlanSet(tasks: seq<Task>, seen: seq<Digest>, e: Epic, items: seq<WorkText>)
    requires EpicOk(tasks, e) && GuidedOk(tasks, seen, e) && SetPlan(e, items).Ok?
    ensures GuidedOk(tasks, seen, SetPlan(e, items).value)
  {
    hide SpecsOk, PlanOk, DigestOk, DoneOk, NormalizedWork, Chained, Accepted;
    var e' := SetPlan(e, items).value;
    forall i: nat | i < |e'.plan| ensures (i > 0 ==> !HasTask(e'.plan[i])) && !e'.plan[i].status.ItemActive? {
    }
    TrailOfNone(tasks, e', e.phase0Task.value);
    forall i: nat | AtFrontier(e', i) ensures Chained(tasks, e', e'.plan[i].task.value, |tasks|, e'.digest) {
      assert i == 0;
    }
    Rechained(tasks, seen, e, e');
  }

  /** The drift Task is newer than every started item, so it covers the frontier. */
  lemma DriftCovers(tasks: seq<Task>, seen: seq<Digest>, e: Epic, e': Epic)
    requires GuidedOk(tasks, seen, e) && LinksOk(tasks, e) && e.driftTask.Some? && e.plan != [] && e'.plan != []
    requires e'.driftLog == e.driftLog && (e'.driftTask == None || e'.driftTask == e.driftTask)
    requires forall i: nat | i < |e'.plan| && HasTask(e'.plan[i]) :: i < |e.plan| && e'.plan[i] == e.plan[i]
    requires AtMostOneActive(e'.plan)
    ensures GuidedOk(tasks, seen, e')
  {
    hide TrailTo, ItemLinked, PairChained;
    forall i: nat | AtFrontier(e', i) ensures Chained(tasks, e', e'.plan[i].task.value, |tasks|, e'.digest) {
      assert e.plan[i].task.value < e.driftTask.value < |tasks|;
    }
    assert forall i: nat | Adjacent(e', i) :: HasTask(e'.plan[i + 1]) && Adjacent(e, i);
    Rechained(tasks, seen, e, e');
  }

  lemma TailIsUnstarted(e: Epic, c: nat, work: seq<WorkText>, version: nat)
    requires c <= |e.plan| && forall k: nat | k < c :: e.plan[k].status.ItemCompleted?
    ensures var plan := WithTail(e.plan[..c], work, version);
            && (forall i: nat | i < |plan| && HasTask(plan[i]) :: i < c && plan[i] == e.plan[i])
            && AtMostOneActive(plan) && plan != []
  {
    hide WithTail;
    var plan := WithTail(e.plan[..c], work, version);
    TailLength(e.plan[..c], work, version);
    forall i: nat | i < |plan|
      ensures (HasTask(plan[i]) ==> i < c && plan[i] == e.plan[i]) && !plan[i].status.ItemActive?
    {
      TailItem(e.plan[..c], work, version, i);
    }
  }

  lemma Reconciled(tasks: seq<Task>, seen: seq<Digest>, e: Epic, f: Findings)
    requires EpicOk(tasks, e) && TasksOk(tasks) && GuidedOk(tasks, seen, e) && Reconcile(e, tasks, f).Ok?
    ensures GuidedOk(tasks, seen, Reconcile(e, tasks, f).value)
  {
    hide SpecsOk, PlanOk, LinksOk, DigestOk, DoneOk, GuidedOk, Recorded, ReplacePendingWork, Accepted;
    var t := AnalysisTask(e).value;
    RecordedKeeps(tasks, e, t, f);
    var r := Recorded(e, tasks[t], f).value;
    var e' := Reconcile(e, tasks, f).value;
    OneActiveOf(tasks, seen, e);
    if e.driftTask == None {
      NothingStarted(tasks, seen, e');
    } else if !f.decisions && f.remaining.Some? {
      NothingBlockedInDrift(tasks, e);
      var c, work := ReplacedIsTail(r, f.remaining.value);
      TailIsUnstarted(e, c, work, e.planVersion + 1);
      DriftCovers(tasks, seen, e, e');
    } else {
      DriftCovers(tasks, seen, e, e');
    }
  }

  lemma NothingBlockedInDrift(tasks: seq<Task>, e: Epic)
    requires EpicOk(tasks, e) && IsCompletedTask(tasks, e.driftTask)
    ensures NoBlockedItem(e.plan) && e.plan != []
  {
    hide SpecsOk, PlanOk, DigestOk, DoneOk, ItemLinked;
  }

  lemma OneActiveOf(tasks: seq<Task>, seen: seq<Digest>, e: Epic)
    requires GuidedOk(tasks, seen, e)
    ensures |seen| == |tasks| && AtMostOneActive(e.plan)
  {
  }

  // Starting an item

  lemma NamedMeansNoneActive(e: Epic, tasks: seq<Task>, repo: Digest)
    requires InRun(e) && e.driftTask == None
    requires Navigate(e, tasks, repo).epic == e
    requires Navigate(e, tasks, repo).action.StartNextTask? || Navigate(e, tasks, repo).action.StartFinalReview?
    ensures First(e.plan, ItemActive).None?
  {
    hide StandaloneOpen, DriftAction, Accepted, DocsUpdated, KnowledgePublished, MapReconciled, First, MaxOrdinal;
    var active := First(e.plan, ItemActive);
    if active.Some? {
      assert e.plan[active.value].status.ItemActive? by { ActiveIsActive(e.plan); }
      DriftActionKinds(SyncActiveItem(e, tasks).epic, tasks, repo);
    }
  }

  lemma ActiveIsActive(plan: seq<PlanItem>)
    ensures First(plan, ItemActive).Some? ==> plan[First(plan, ItemActive).value].status.ItemActive?
  {
  }

  /** The item before the first pending one is completed when nothing is active or blocked. */
  lemma ReadyToStart(tasks: seq<Task>, e: Epic, i: nat)
    requires PlanOk(e.plan) && NoBlockedItem(e.plan) && LinksOk(tasks, e)
    requires First(e.plan, ItemActive).None? && First(e.plan, ItemPending) == Some(i)
    ensures i >= 1 && AtFrontier(e, i - 1)
    ensures forall k: nat | k < |e.plan| :: HasTask(e.plan[k]) <==> k < i
    ensures NoneActive(e.plan)
  {
    EarlierAreNot(e.plan, ItemPending, i);
    assert ItemPlaced(e.plan, 0) && ItemPlaced(e.plan, i - 1);
    forall k: nat | k < |e.plan| ensures HasTask(e.plan[k]) <==> k < i {
      assert ItemLinked(tasks, e.plan[k]) && ItemPlaced(e.plan, k);
      if k > i { assert Rank(e.plan[i].status) <= Rank(e.plan[k].status); }
    }
  }

  /** Whatever the worktree is when the baseline is recorded. */
  lemma ItemStarted(tasks: seq<Task>, seen: seq<Digest>, e: Epic, repo: Digest, i: nat, e': Epic)
    requires EpicOk(tasks, e) && GuidedOk(tasks, seen, e) && InRun(e) && e.driftTask == None
    requires First(e.plan, ItemActive).None? && First(e.plan, ItemPending) == Some(i)
    requires e' == e.(plan := e.plan[i := e.plan[i].(task := Some(|tasks|), status := ItemActive)], status := e'.status)
    ensures GuidedOk(tasks + [NewTask(repo)], seen + [e.digest], e')
  {
    hide SpecsOk, PlanOk, DigestOk, DoneOk, Chained, First, Accepted, ItemLinked;
    var tasks' := tasks + [NewTask(repo)];
    ReadyToStart(tasks, e, i);
    assert Evolves(tasks, tasks');
    forall k: nat | Adjacent(e', k) ensures PairChained(tasks', seen + [e.digest], e', k) {
      if k == i - 1 {
        ChainIsKept(tasks, tasks', e, e', e.plan[k].task.value, |tasks|, |tasks|, e.digest);
      } else {
        assert HasTask(e'.plan[k + 1]) && Adjacent(e, k) && PairChained(tasks, seen, e, k);
        var t := e.plan[k + 1].task.value;
        ChainIsKept(tasks, tasks', e, e', e.plan[k].task.value, t, t, seen[t]);
      }
    }
    forall k: nat ensures !AtFrontier(e', k) {
      assert k < |e.plan| && HasTask(e'.plan[k]) ==> k <= i;
    }
  }

  // Reviewing standalone Tasks

  lemma UnbrokenGoesOn(tasks: seq<Task>, ids: seq<nat>, more: seq<nat>, from: Digest)
    requires AreTasks(tasks, ids) && AreTasks(tasks, more) && Unbroken(tasks, ids, from)
    requires Unbroken(tasks, more, Arrives(tasks, ids, from)) && more != []
    ensures AreTasks(tasks, ids + more) && Unbroken(tasks, ids + more, from)
    ensures Arrives(tasks, ids + more, from) == Arrives(tasks, more, Arrives(tasks, ids, from))
  {
    hide Accepted;
    var all := ids + more;
    forall k: nat | k < |all| ensures Continues(tasks, all, k, from) {
      if k < |ids| {
        assert Continues(tasks, ids, k, from);
      } else {
        assert Continues(tasks, more, k - |ids|, Arrives(tasks, ids, from));
      }
    }
  }

  /** An explanation found by the review carries the trail on to the repository as it is now. */
  lemma TrailGoesOn(tasks: seq<Task>, e: Epic, a: nat, ids: seq<nat>, more: seq<nat>, anchor: nat, repo: Digest)
    requires TrailTo(tasks, a, ids, |tasks|, e.digest)
    requires Explains(e, tasks, repo, more, anchor) && LastAnchorOf(e, tasks, anchor) && more != []
    ensures TrailTo(tasks, a, ids + more, |tasks|, repo)
  {
    hide Accepted, AnyLinked, Unbroken;
    UnbrokenGoesOn(tasks, ids, more, Accepted(tasks[a]));
    assert (if ids == [] then a else ids[|ids| - 1]) <= anchor;
    forall k | 0 <= k < |more| ensures anchor < more[k] && tasks[more[k]].status.TaskCompleted? {
      assert more[k] in more;
    }
  }

  lemma ChainGoesOn(tasks: seq<Task>, e: Epic, e': Epic, a: nat, repo: Digest)
    requires Chained(tasks, e, a, |tasks|, e.digest) && Detect(e, tasks, repo).Explained? && e'.driftLog == e.driftLog
    ensures Chained(tasks, e', a, |tasks|, repo)
  {
    hide TrailTo, Detect, Explains, LastAnchorOf;
    var more := Detect(e, tasks, repo).tasks;
    var anchor := DetectionIsSound(e, tasks, repo, more);
    ExplanationIsNotEmpty(e, tasks, repo, more, anchor);
    if ids :| TrailTo(tasks, a, ids, |tasks|, e.digest) {
      TrailGoesOn(tasks, e, a, ids, more, anchor, repo);
    }
  }

  lemma ExplanationIsNotEmpty(e: Epic, tasks: seq<Task>, repo: Digest, ids: seq<nat>, anchor: nat)
    requires Explains(e, tasks, repo, ids, anchor) && repo != e.digest
    ensures ids != []
  {
  }

  lemma Reviewed(tasks: seq<Task>, seen: seq<Digest>, e: Epic, repo: Digest, keys: seq<nat>, outcome: Outcome,
                 affected: bool, texts: ReviewTexts)
    requires EpicOk(tasks, e) && GuidedOk(tasks, seen, e)
    requires RecordReview(e, tasks, repo, keys, outcome, affected, texts).Ok?
    ensures GuidedOk(tasks, seen, RecordReview(e, tasks, repo, keys, outcome, affected, texts).value)
  {
    hide SpecsOk, PlanOk, LinksOk, DigestOk, DoneOk, Chained, Detect, CheckedReview;
    var e' := RecordReview(e, tasks, repo, keys, outcome, affected, texts).value;
    EvolvesReflexively(tasks);
    if outcome.Unaffected? {
      forall i: nat | AtFrontier(e', i) ensures Chained(tasks, e', e'.plan[i].task.value, |tasks|, repo) {
        assert AtFrontier(e, i);
        ChainGoesOn(tasks, e, e', e.plan[i].task.value, repo);
      }
      Rechained(tasks, seen, e, e');
    } else {
      GuidedIsKept(tasks, tasks, seen, seen, e, e');
    }
  }

  // Navigation

  /** Only item i changes, not its Task, and a row appended is pending. */
  predicate Touches(plan: seq<PlanItem>, plan': seq<PlanItem>, i: nat)
    requires i < |plan|
  {
    && |plan| <= |plan'|
    && (forall k: nat | k < |plan| && k != i :: plan'[k] == plan[k])
    && plan'[i].task == plan[i].task
    && (forall k: nat | |plan| <= k < |plan'| :: plan'[k].status.ItemPending? && !HasTask(plan'[k]))
  }

  /** What settling an item whose Task is closed does. */
  predicate SettledItem(e: Epic, tasks: seq<Task>, i: nat, e': Epic)
    requires i < |e.plan| && IsTask(tasks, e.plan[i].task)
  {
    && Touches(e.plan, e'.plan, i) && e'.driftLog == e.driftLog && e'.driftTask == e.driftTask
    && (e'.plan[i].status.ItemCompleted? ==>
          tasks[e.plan[i].task.value].status.TaskCompleted? && e'.digest == Accepted(tasks[e.plan[i].task.value]))
  }

  lemma SettleTouches(e: Epic, tasks: seq<Task>, i: nat)
    requires i < |e.plan| && e.plan[i].status.ItemActive? && IsTask(tasks, e.plan[i].task)
    requires !IsOpen(tasks[e.plan[i].task.value])
    ensures SettledItem(e, tasks, i, Settle(e, tasks, i).epic)
  {
    hide Accepted, DocsUpdated, KnowledgePublished, MapReconciled, MaxOrdinal;
  }

  lemma AroundActive(tasks: seq<Task>, e: Epic, i: nat)
    requires PlanOk(e.plan) && NoBlockedItem(e.plan) && LinksOk(tasks, e) && AtMostOneActive(e.plan)
    requires First(e.plan, ItemActive) == Some(i)
    ensures forall k: nat | k < |e.plan| :: HasTask(e.plan[k]) <==> k <= i
    ensures forall k: nat | k < |e.plan| && k != i :: !e.plan[k].status.ItemActive?
  {
    forall k: nat | k < |e.plan| ensures HasTask(e.plan[k]) <==> k <= i {
      assert ItemLinked(tasks, e.plan[k]) && ItemPlaced(e.plan, k);
      if k > i { assert Rank(e.plan[i].status) <= Rank(e.plan[k].status); }
      if k < i { assert Rank(e.plan[k].status) <= Rank(e.plan[i].status); }
    }
  }

  lemma ItemSettled(tasks: seq<Task>, seen: seq<Digest>, e: Epic, i: nat)
    requires EpicOk(tasks, e) && GuidedOk(tasks, seen, e) && InRun(e) && e.driftTask == None
    requires First(e.plan, ItemActive) == Some(i)
    ensures GuidedOk(tasks, seen, Settle(e, tasks, i).epic)
  {
    hide SpecsOk, PlanOk, DigestOk, DoneOk, Chained, First, Settle, SettledItem, Touches, Accepted, ItemLinked,
        PairChained;
    var e' := Settle(e, tasks, i).epic;
    ActiveIsActive(e.plan);
    ActiveHasTask(tasks, e, i);
    if IsOpen(tasks[e.plan[i].task.value]) {
      OpenIsLeft(e, tasks, i);
    } else {
      SettleTouches(e, tasks, i);
      AroundActive(tasks, e, i);
      SettledIsRechained(tasks, seen, e, i, e');
    }
  }

  lemma ActiveHasTask(tasks: seq<Task>, e: Epic, i: nat)
    requires LinksOk(tasks, e) && i < |e.plan| && e.plan[i].status.ItemActive?
    ensures IsTask(tasks, e.plan[i].task)
  {
    assert ItemLinked(tasks, e.plan[i]);
  }

  lemma OpenIsLeft(e: Epic, tasks: seq<Task>, i: nat)
    requires i < |e.plan| && IsTask(tasks, e.plan[i].task) && IsOpen(tasks[e.plan[i].task.value])
    ensures Settle(e, tasks, i).epic == e
  {
  }

  /** Only item i can be at the frontier now, and then its Task's acceptance is the digest. */
  lemma SettledIsRechained(tasks: seq<Task>, seen: seq<Digest>, e: Epic, i: nat, e': Epic)
    requires GuidedOk(tasks, seen, e) && e.driftTask == None && i < |e.plan| && IsTask(tasks, e.plan[i].task)
    requires SettledItem(e, tasks, i, e')
    requires forall k: nat | k < |e.plan| :: HasTask(e.plan[k]) <==> k <= i
    requires forall k: nat | k < |e.plan| && k != i :: !e.plan[k].status.ItemActive?
    ensures GuidedOk(tasks, seen, e')
  {
    hide Chained, Accepted, PairChained;
    forall k: nat | AtFrontier(e', k) ensures Chained(tasks, e', e'.plan[k].task.value, |tasks|, e'.digest) {
      assert k == i;
      TrailOfNone(tasks, e', e.plan[i].task.value);
    }
    forall k: nat | Adjacent(e', k)
      ensures Adjacent(e, k) && e'.plan[k].task == e.plan[k].task && e'.plan[k + 1].task == e.plan[k + 1].task
    {
      assert HasTask(e'.plan[k + 1]);
    }
    OnlyOneActive(e.plan, e'.plan, i);
    Rechained(tasks, seen, e, e');
  }

  lemma OnlyOneActive(plan: seq<PlanItem>, plan': seq<PlanItem>, i: nat)
    requires i < |plan| && Touches(plan, plan', i)
    requires forall k: nat | k < |plan| && k != i :: !plan[k].status.ItemActive?
    ensures AtMostOneActive(plan')
  {
    forall k: nat | k < |plan'| && k != i ensures !plan'[k].status.ItemActive? {
      if k < |plan| { assert plan'[k] == plan[k]; }
    }
  }

  lemma StatusOnly(tasks: seq<Task>, seen: seq<Digest>, e: Epic, e': Epic)
    requires GuidedOk(tasks, seen, e) && e' == e.(status := e'.status, reason := e'.reason)
    ensures GuidedOk(tasks, seen, e')
  {
    EvolvesReflexively(tasks);
    GuidedIsKept(tasks, tasks, seen, seen, e, e');
  }

  lemma RunNavigated(tasks: seq<Task>, seen: seq<Digest>, e: Epic, repo: Digest)
    requires EpicOk(tasks, e) && GuidedOk(tasks, seen, e) && InRun(e) && e.driftTask == None
    ensures GuidedOk(tasks, seen, RunningNavigation(e, tasks, repo).epic)
  {
    hide EpicOk, GuidedOk, Settle, First, StandaloneOpen, DriftAction, PendingNavigation;
    var active := First(e.plan, ItemActive);
    if active.Some? { ItemSettled(tasks, seen, e, active.value); }
    StatusOnly(tasks, seen, SyncActiveItem(e, tasks).epic, RunningNavigation(e, tasks, repo).epic);
  }

  lemma GuidedNavigation(tasks: seq<Task>, seen: seq<Digest>, e: Epic, repo: Digest)
    requires EpicOk(tasks, e) && GuidedOk(tasks, seen, e)
    ensures GuidedOk(tasks, seen, Navigate(e, tasks, repo).epic)
  {
    hide EpicOk, GuidedOk, RunningNavigation, Phase0Navigation, ApprovedNavigation;
    if InRun(e) && e.driftTask == None {
      RunNavigated(tasks, seen, e, repo);
    } else if e.driftTask.Some? {
      StatusOnly(tasks, seen, e, DriftTaskNavigation(e, tasks).epic);
    }
  }
}
