/** What every operation of the engine keeps true of an Epic. */
module EpicInvariants {
  import opened Epics
  import opened Options
  import opened TaskBoundary
  import opened EpicLifecycle
  import opened EpicPlanning
  import opened EpicExecution
  import opened EpicReview
  import opened EpicNavigation
  import SpecEditor

  // The specification

  predicate BeforeExecution(s: Status) { s.Draft? || s.Approved? || s.Phase0? }

  /** The stored versions are 1 to current. A draft has neither an approved nor an execution version; from
      the first reconciliation on the execution version is the current one. */
  ghost predicate SpecsOk(e: Epic) {
    && 1 <= e.current
    && (forall v: nat :: v in e.specs <==> 1 <= v <= e.current)
    && (if e.status.Draft? then e.approved == None else e.approved.Some? && 1 <= e.approved.value <= e.current)
    && (e.status.Approved? || e.status.Phase0? ==> e.approved == Some(e.current))
    && e.execution == if BeforeExecution(e.status) then None else Some(e.current)
  }

  // The plan

  function Rank(s: ItemStatus): nat {
    match s
    case ItemCompleted => 0
    case ItemActive => 1
    case ItemBlocked => 1
    case ItemPending => 2
    case ItemCancelled => 3
  }

  predicate ItemPlaced(plan: seq<PlanItem>, i: nat)
    requires i < |plan|
  {
    && plan[i].ordinal == i
    && (if i == 0 then plan[i].kind.Analysis? && plan[i].status.ItemCompleted? else !plan[i].kind.Analysis?)
    && (plan[i].kind.Final? && i < |plan| - 1 ==> plan[i].status.ItemCompleted?)
    && (i == |plan| - 1 ==> plan[i].kind.Final?)
    && !plan[i].status.ItemCancelled?
  }

  /** Dense ordinals from 0, the completed analysis first and only there, a final item last, every earlier
      final completed, and statuses in the order completed, active or blocked, pending. */
  predicate PlanOk(plan: seq<PlanItem>) {
    && (forall i: nat | i < |plan| :: ItemPlaced(plan, i))
    && (forall i: nat, j: nat | i < j < |plan| :: Rank(plan[i].status) <= Rank(plan[j].status))
  }

  predicate NoBlockedItem(plan: seq<PlanItem>) {
    forall i | 0 <= i < |plan| :: !plan[i].status.ItemBlocked?
  }

  predicate AllCompleted(plan: seq<PlanItem>) {
    forall i | 0 <= i < |plan| :: plan[i].status.ItemCompleted?
  }

  // The phase

  predicate BlockedOk(e: Epic) {
    match e.reason
    case NoReason => false
    case HumanDecision => NoBlockedItem(e.plan) && (e.driftTask.None? <==> e.plan == [])
    case InterveningReview => NoBlockedItem(e.plan) && e.driftTask.None? && e.plan != []
    case RepositoryDrift => NoBlockedItem(e.plan) && e.driftTask.None? && e.plan != []
    case TaskMissing => false
    case TaskEnded => e.plan != []
  }

  predicate PhaseOk(e: Epic) {
    && (e.digest == "" <==> BeforeExecution(e.status))
    && (e.phase0Task == None <==> e.status.Draft? || e.status.Approved?)
    && match e.status {
         case Draft => e.plan == [] && e.driftTask == None && e.reason.NoReason?
         case Approved => e.plan == [] && e.driftTask == None && e.reason.NoReason?
         case Phase0 => e.plan == [] && e.driftTask == None && e.reason.NoReason?
         case Planning => e.plan == [] && e.driftTask == None && e.reason.NoReason?
         case Running => e.plan != [] && NoBlockedItem(e.plan) && e.reason.NoReason?
         case FinalReview => e.plan != [] && NoBlockedItem(e.plan) && e.driftTask == None && e.reason.NoReason?
         case Blocked => BlockedOk(e)
         case Completed => e.plan != [] && AllCompleted(e.plan) && e.driftTask == None
         case Archived => e.plan != [] && AllCompleted(e.plan) && e.driftTask == None
         case Cancelled => false
       }
  }

  // The Tasks

  predicate IsTask(tasks: seq<Task>, t: Option<nat>) { t.Some? && t.value < |tasks| }

  predicate IsCompletedTask(tasks: seq<Task>, t: Option<nat>) {
    IsTask(tasks, t) && tasks[t.value].status.TaskCompleted?
  }

  predicate ItemLinked(tasks: seq<Task>, item: PlanItem) {
    && (if item.status.ItemPending? then item.task == None else IsTask(tasks, item.task))
    && (item.status.ItemCompleted? ==> IsCompletedTask(tasks, item.task))
  }

  predicate LinksOk(tasks: seq<Task>, e: Epic) {
    && (e.phase0Task.Some? ==> IsTask(tasks, e.phase0Task))
    && (!BeforeExecution(e.status) ==> IsCompletedTask(tasks, e.phase0Task))
    && (e.driftTask.Some? ==> IsTask(tasks, e.driftTask) && e.driftTask.value in e.driftLog)
    && (forall d | d in e.driftLog :: d < |tasks|)
    && (e.status.Blocked? && e.reason.TaskEnded? && e.driftTask.Some? ==>
        tasks[e.driftTask.value].status.TaskCancelled?)
    && (e.status.Blocked? && e.reason.HumanDecision? && e.driftTask.Some? ==>
        tasks[e.driftTask.value].status.TaskCompleted?)
    && (e.plan != [] ==> e.plan[0].task == e.phase0Task)
    && (forall i | 0 <= i < |e.plan| :: ItemLinked(tasks, e.plan[i]))
    && (forall i, j | 0 <= i < j < |e.plan| && e.plan[i].task.Some? && e.plan[j].task.Some? ::
        e.plan[i].task.value < e.plan[j].task.value)
  }

  predicate IsAccepted(tasks: seq<Task>, d: Digest) {
    exists t | 0 <= t < |tasks| :: tasks[t].status.TaskCompleted? && Accepted(tasks[t]) == d
  }

  /** Provenance: the execution digest is empty or is where some completed Task was accepted. */
  predicate DigestOk(tasks: seq<Task>, e: Epic) {
    e.digest != "" ==> IsAccepted(tasks, e.digest)
  }

  /** The Task changed documentation, and published knowledge and reconciled the map at some time. */
  predicate Evidenced(t: Task) {
    && DocsUpdated(t)
    && (exists k | 0 <= k < |t.knowledge| :: t.knowledge[k] > 0)
    && (exists k | 0 <= k < |t.maps| :: t.maps[k] > 0)
  }

  predicate DoneOk(tasks: seq<Task>, e: Epic) {
    (e.status.Completed? || e.status.Archived?) && e.plan != [] && IsTask(tasks, e.plan[|e.plan| - 1].task)
    ==> Evidenced(tasks[e.plan[|e.plan| - 1].task.value])
  }

  ghost predicate EpicOk(tasks: seq<Task>, e: Epic) {
    SpecsOk(e) && PlanOk(e.plan) && PhaseOk(e) && LinksOk(tasks, e) && DigestOk(tasks, e) && DoneOk(tasks, e)
  }

  /** Every baseline is a real digest, and only the newest Task may be open. */
  predicate TasksOk(tasks: seq<Task>) {
    && (forall i | 0 <= i < |tasks| :: tasks[i].baseline != "")
    && (forall i | 0 <= i < |tasks| - 1 :: !IsOpen(tasks[i]))
  }

  // Tasks move on

  predicate TaskEvolves(s: Task, t: Task) {
    && t.baseline == s.baseline && s.knowledge <= t.knowledge && s.maps <= t.maps
    && (!IsOpen(s) ==> t.status == s.status && t.stages == s.stages && t.changed == s.changed)
  }

  predicate Evolves(a: seq<Task>, b: seq<Task>) {
    |a| <= |b| && forall i | 0 <= i < |a| :: TaskEvolves(a[i], b[i])
  }

  lemma EvidenceIsKept(s: Task, t: Task)
    requires TaskEvolves(s, t) && !IsOpen(s) && Evidenced(s)
    ensures Evidenced(t)
  {
    var k :| 0 <= k < |s.knowledge| && s.knowledge[k] > 0;
    assert t.knowledge[k] > 0;
    var m :| 0 <= m < |s.maps| && s.maps[m] > 0;
    assert t.maps[m] > 0;
  }

  lemma DigestIsKept(a: seq<Task>, b: seq<Task>, d: Digest)
    requires Evolves(a, b) && IsAccepted(a, d)
    ensures IsAccepted(b, d)
  {
    var t :| 0 <= t < |a| && a[t].status.TaskCompleted? && Accepted(a[t]) == d;
    assert TaskEvolves(a[t], b[t]);
  }

  lemma LinksAreKept(a: seq<Task>, b: seq<Task>, e: Epic)
    requires Evolves(a, b) && LinksOk(a, e)
    ensures LinksOk(b, e)
  {
    forall t | 0 <= t < |a| && a[t].status.TaskCompleted? ensures b[t].status.TaskCompleted? {
      assert TaskEvolves(a[t], b[t]);
    }
    forall i | 0 <= i < |e.plan| ensures ItemLinked(b, e.plan[i]) {
      assert ItemLinked(a, e.plan[i]);
    }
    if e.driftTask.Some? {
      assert TaskEvolves(a[e.driftTask.value], b[e.driftTask.value]);
    }
  }

  lemma EpicIsKept(a: seq<Task>, b: seq<Task>, e: Epic)
    requires Evolves(a, b) && EpicOk(a, e)
    ensures EpicOk(b, e)
  {
    hide SpecsOk, PlanOk, Evidenced, Evolves, Accepted;
    LinksAreKept(a, b, e);
    if e.digest != "" { DigestIsKept(a, b, e.digest); }
    if e.status.Completed? || e.status.Archived? {
      var t := e.plan[|e.plan| - 1].task.value;
      assert ItemLinked(a, e.plan[|e.plan| - 1]);
      LastEvidenceIsKept(a, b, t);
    }
  }

  lemma LastEvidenceIsKept(a: seq<Task>, b: seq<Task>, t: nat)
    requires Evolves(a, b) && t < |a| && a[t].status.TaskCompleted? && Evidenced(a[t])
    ensures Evidenced(b[t])
  {
    assert TaskEvolves(a[t], b[t]);
    EvidenceIsKept(a[t], b[t]);
  }

  // What the operations do to a plan

  function WithTail(head: seq<PlanItem>, work: seq<WorkText>, version: nat): seq<PlanItem> {
    head + WorkItems(work, |head|, version) + [FinalItem(|head| + |work|, version)]
  }

  predicate CompletedHead(head: seq<PlanItem>) {
    && head != [] && head[0].kind.Analysis?
    && forall k: nat | k < |head| :: head[k].ordinal == k && head[k].status.ItemCompleted?
        && (k > 0 ==> !head[k].kind.Analysis?)
  }

  lemma TailItem(head: seq<PlanItem>, work: seq<WorkText>, version: nat, k: nat)
    requires k < |WithTail(head, work, version)|
    ensures var item := WithTail(head, work, version)[k];
            if k < |head| then item == head[k]
            else item.ordinal == k && item.status.ItemPending? && item.task == None
                 && item.kind == if k == |head| + |work| then Final else Work
  {
    if |head| <= k < |head| + |work| {
      assert WithTail(head, work, version)[k] == WorkItems(work, |head|, version)[k - |head|];
    }
  }

  /** A completed head with new work and a final item behind it is a plan. */
  lemma TailPlanOk(head: seq<PlanItem>, work: seq<WorkText>, version: nat)
    requires CompletedHead(head) && |work| >= 1
    ensures PlanOk(WithTail(head, work, version)) && NoBlockedItem(WithTail(head, work, version))
  {
    hide WithTail;
    var next := WithTail(head, work, version);
    assert |next| == |head| + |work| + 1 by { TailLength(head, work, version); }
    forall k: nat | k < |next| ensures ItemPlaced(next, k) && Rank(next[k].status) == if k < |head| then 0 else 2 {
      TailItem(head, work, version, k);
    }
  }

  lemma TailLength(head: seq<PlanItem>, work: seq<WorkText>, version: nat)
    ensures |WithTail(head, work, version)| == |head| + |work| + 1
  {
  }

  lemma StartedPlanOk(plan: seq<PlanItem>, i: nat, t: nat)
    requires PlanOk(plan) && First(plan, ItemPending) == Some(i)
    ensures PlanOk(plan[i := plan[i].(task := Some(t), status := ItemActive)])
    ensures NoBlockedItem(plan) ==> NoBlockedItem(plan[i := plan[i].(task := Some(t), status := ItemActive)])
  {
    EarlierAreNot(plan, ItemPending, i);
    var next := plan[i := plan[i].(task := Some(t), status := ItemActive)];
    assert ItemPlaced(plan, i);
    forall k: nat | k < |next| ensures ItemPlaced(next, k) {
      assert ItemPlaced(plan, k);
    }
  }

  lemma EarlierAreNot(plan: seq<PlanItem>, status: ItemStatus, i: nat)
    requires PlanOk(plan) && First(plan, status) == Some(i)
    ensures forall k: nat | k < i :: plan[k].status != status
  {
    forall k: nat | k < i ensures plan[k].status != status {
      assert ItemPlaced(plan, k) && ItemPlaced(plan, i);
    }
  }

  /** Before the first active item of a plan without a blocked one, all is completed. */
  lemma CompletedBeforeActive(plan: seq<PlanItem>, i: nat)
    requires PlanOk(plan) && NoBlockedItem(plan) && First(plan, ItemActive) == Some(i)
    ensures forall k: nat | k < i :: plan[k].status.ItemCompleted?
  {
    EarlierAreNot(plan, ItemActive, i);
    forall k: nat | k < i ensures plan[k].status.ItemCompleted? {
      assert Rank(plan[k].status) <= Rank(plan[i].status);
    }
  }

  lemma CompletedPlanOk(plan: seq<PlanItem>, i: nat)
    requires PlanOk(plan) && NoBlockedItem(plan) && First(plan, ItemActive) == Some(i)
    ensures PlanOk(plan[i := plan[i].(status := ItemCompleted)])
    ensures NoBlockedItem(plan[i := plan[i].(status := ItemCompleted)])
  {
    CompletedBeforeActive(plan, i);
    var next := plan[i := plan[i].(status := ItemCompleted)];
    forall k: nat | k < |next| ensures ItemPlaced(next, k) {
      assert ItemPlaced(plan, k);
    }
  }

  lemma BlockedPlanOk(plan: seq<PlanItem>, i: nat)
    requires PlanOk(plan) && First(plan, ItemActive) == Some(i)
    ensures PlanOk(plan[i := plan[i].(status := ItemBlocked)])
  {
    var next := plan[i := plan[i].(status := ItemBlocked)];
    forall k: nat | k < |next| ensures ItemPlaced(next, k) {
      assert ItemPlaced(plan, k);
    }
  }

  lemma {:induction false} MaxOrdinalOfDense(plan: seq<PlanItem>)
    requires plan != [] && forall i: nat | i < |plan| :: plan[i].ordinal == i
    ensures MaxOrdinal(plan) == |plan| - 1
  {
    assert plan[|plan| - 1].ordinal == |plan| - 1;
  }

  /** An active final item is the last one, and all before it is completed. */
  lemma ActiveFinalIsLast(plan: seq<PlanItem>, i: nat)
    requires PlanOk(plan) && NoBlockedItem(plan) && First(plan, ItemActive) == Some(i) && plan[i].kind.Final?
    ensures i == |plan| - 1 && AllCompleted(plan[i := plan[i].(status := ItemCompleted)])
  {
    assert ItemPlaced(plan, i);
    CompletedBeforeActive(plan, i);
  }

  lemma RetriedPlanOk(plan: seq<PlanItem>, i: nat, version: nat)
    requires PlanOk(plan) && NoBlockedItem(plan) && First(plan, ItemActive) == Some(i) && plan[i].kind.Final?
    ensures var next := (plan + [FinalItem(MaxOrdinal(plan) + 1, version)])[i := plan[i].(status := ItemCompleted)];
            PlanOk(next) && NoBlockedItem(next)
  {
    hide MaxOrdinal;
    ActiveFinalIsLast(plan, i);
    CompletedBeforeActive(plan, i);
    forall k: nat | k < |plan| ensures plan[k].ordinal == k {
      assert ItemPlaced(plan, k);
    }
    MaxOrdinalOfDense(plan);
    var next := (plan + [FinalItem(|plan|, version)])[i := plan[i].(status := ItemCompleted)];
    forall k: nat | k < |next| ensures ItemPlaced(next, k) && Rank(next[k].status) == if k < |plan| then 0 else 2 {
      assert k < |plan| ==> ItemPlaced(plan, k);
    }
  }

  /** A plan with nothing active or blocked is a completed prefix followed by pending items. */
  lemma CompletedPrefix(plan: seq<PlanItem>) returns (c: nat)
    requires PlanOk(plan) && NoBlockedItem(plan) && First(plan, ItemActive).None? && plan != []
    ensures 1 <= c <= |plan|
    ensures forall k: nat | k < c :: plan[k].status.ItemCompleted?
    ensures forall k: nat | c <= k < |plan| :: plan[k].status.ItemPending?
  {
    c := 1;
    assert ItemPlaced(plan, 0);
    while c < |plan| && plan[c].status.ItemCompleted?
      invariant 1 <= c <= |plan|
      invariant forall k: nat | k < c :: plan[k].status.ItemCompleted?
    {
      c := c + 1;
    }
    forall k: nat | c <= k < |plan| ensures plan[k].status.ItemPending? {
      assert Rank(plan[c].status) <= Rank(plan[k].status);
      assert ItemPlaced(plan, k);
    }
  }

  lemma {:induction false} KeptItems(plan: seq<PlanItem>, c: nat)
    requires c <= |plan|
    requires forall k: nat | k < c :: plan[k].status.ItemCompleted?
    requires forall k: nat | c <= k < |plan| :: plan[k].status.ItemPending?
    ensures WithoutPending(plan) == plan[..c] && WithStatus(plan, ItemCompleted) == plan[..c]
    decreases |plan|
  {
    if plan != [] {
      var init := plan[..|plan| - 1];
      if c == |plan| {
        KeptItems(init, c - 1);
        assert plan == init + [plan[|plan| - 1]] && init[..c - 1] == init;
      } else {
        KeptItems(init, c);
        assert init[..c] == plan[..c];
      }
    }
  }

  /** Replanning keeps the completed head and puts a new tail behind it. */
  lemma ReplacedPlanOk(plan: seq<PlanItem>, work: seq<WorkText>, version: nat) returns (c: nat)
    requires PlanOk(plan) && NoBlockedItem(plan) && First(plan, ItemActive).None? && plan != [] && |work| >= 1
    ensures 1 <= c <= |plan| && MaxOrdinal(WithStatus(plan, ItemCompleted)) + 1 == c
    ensures WithoutPending(plan) == plan[..c]
    ensures forall k: nat | k < c :: plan[k].status.ItemCompleted?
    ensures forall k: nat | c <= k < |plan| :: plan[k].status.ItemPending?
    ensures PlanOk(WithTail(plan[..c], work, version)) && NoBlockedItem(WithTail(plan[..c], work, version))
  {
    c := CompletedPrefix(plan);
    KeptItems(plan, c);
    HeadOfPlan(plan, c);
    MaxOrdinalOfDense(plan[..c]);
    TailPlanOk(plan[..c], work, version);
  }

  lemma HeadOfPlan(plan: seq<PlanItem>, c: nat)
    requires PlanOk(plan) && 1 <= c <= |plan| && forall k: nat | k < c :: plan[k].status.ItemCompleted?
    ensures CompletedHead(plan[..c])
  {
    var head := plan[..c];
    assert ItemPlaced(plan, 0);
    forall k: nat | k < |head|
      ensures head[k].ordinal == k && head[k].status.ItemCompleted? && (k > 0 ==> !head[k].kind.Analysis?)
    {
      assert ItemPlaced(plan, k);
    }
  }
}
