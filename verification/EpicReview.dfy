/** Drift that accepted standalone Tasks explain (src/ai_layer/application/epic_review.py:109-202, 275-366). */
module EpicReview {
  import opened Epics
  import opened Options
  import opened TaskBoundary

  /** The result of `detect_intervening_tasks`, with the return statement that gave up. */
  datatype Detection = Explained(tasks: seq<nat>) | Unexplained(why: Cause)

  datatype Cause =
    | NoDigest | NoDrift | NothingCompleted | NoAnchor | EndsElsewhere | NothingAfterAnchor
    | TouchesEpic | ChainBroken | ChainEndsElsewhere | NoChangedPaths

  /** `_completed_project_tasks`. At most one Task is open at a time, so completion follows the sequence. */
  function CompletedTasks(tasks: seq<Task>): (ids: seq<nat>)
    ensures AreTasks(tasks, ids) && AreCompleted(tasks, ids)
  {
    if tasks == [] then []
    else
      var last := |tasks| - 1;
      var ids := CompletedTasks(tasks[..last]);
      if tasks[last].status.TaskCompleted? then ids + [last] else ids
  }

  predicate AreTasks(tasks: seq<Task>, ids: seq<nat>) {
    forall k | 0 <= k < |ids| :: ids[k] < |tasks|
  }

  predicate AreCompleted(tasks: seq<Task>, ids: seq<nat>)
    requires AreTasks(tasks, ids)
  {
    && Ascending(ids)
    && (forall k | 0 <= k < |ids| :: tasks[ids[k]].status.TaskCompleted?)
    && (forall i: nat | i < |tasks| && tasks[i].status.TaskCompleted? :: i in ids)
  }

  predicate Ascending(ids: seq<nat>) {
    forall j, k | 0 <= j < k < |ids| :: ids[j] < ids[k]
  }

  /** The last position whose Task was accepted at `digest`. */
  function LastAnchor(tasks: seq<Task>, ids: seq<nat>, digest: Digest): (r: Option<nat>)
    requires AreTasks(tasks, ids)
    ensures r.Some? ==> r.value < |ids| && Accepted(tasks[ids[r.value]]) == digest
    ensures forall k | (if r.Some? then r.value + 1 else 0) <= k < |ids| :: Accepted(tasks[ids[k]]) != digest
  {
    if ids == [] then None
    else if Accepted(tasks[ids[|ids| - 1]]) == digest then Some(|ids| - 1)
    else LastAnchor(tasks, ids[..|ids| - 1], digest)
  }

  /** Each Task starts where the one before was accepted; the first starts at `from`. */
  predicate Unbroken(tasks: seq<Task>, ids: seq<nat>, from: Digest)
    requires AreTasks(tasks, ids)
  {
    forall k: nat | k < |ids| :: Continues(tasks, ids, k, from)
  }

  predicate Continues(tasks: seq<Task>, ids: seq<nat>, k: nat, from: Digest)
    requires AreTasks(tasks, ids) && k < |ids|
  {
    tasks[ids[k]].baseline == if k == 0 then from else Accepted(tasks[ids[k - 1]])
  }

  /** Where the chain ends. */
  function Arrives(tasks: seq<Task>, ids: seq<nat>, from: Digest): Digest
    requires AreTasks(tasks, ids)
  {
    if ids == [] then from else Accepted(tasks[ids[|ids| - 1]])
  }

  predicate AnyLinked(e: Epic, ids: seq<nat>) {
    exists k | 0 <= k < |ids| :: Linked(e, ids[k])
  }

  predicate AnyChanged(tasks: seq<Task>, ids: seq<nat>)
    requires AreTasks(tasks, ids)
  {
    exists k | 0 <= k < |ids| :: tasks[ids[k]].changed != []
  }

  /** `detect_intervening_tasks`, return statement by return statement. */
  function Detect(e: Epic, tasks: seq<Task>, repo: Digest): Detection {
    if e.digest == "" then Unexplained(NoDigest)
    else if repo == e.digest then Unexplained(NoDrift)
    else
      var ids := CompletedTasks(tasks);
      if ids == [] then Unexplained(NothingCompleted)
      else
        var anchor := LastAnchor(tasks, ids, e.digest);
        if anchor.None? then Unexplained(NoAnchor)
        else if Accepted(tasks[ids[|ids| - 1]]) != repo then Unexplained(EndsElsewhere)
        else
          var after := ids[anchor.value + 1..];
          if after == [] then Unexplained(NothingAfterAnchor)
          else if AnyLinked(e, after) then Unexplained(TouchesEpic)
          else if !Unbroken(tasks, after, e.digest) then Unexplained(ChainBroken)
          else if Arrives(tasks, after, e.digest) != repo then Unexplained(ChainEndsElsewhere)
          else if !AnyChanged(tasks, after) then Unexplained(NoChangedPaths)
          else Explained(after)
  }

  /** `ids` are all the Tasks completed after one that was accepted at the Epic's digest. */
  predicate FollowsAnchor(e: Epic, tasks: seq<Task>, ids: seq<nat>, anchor: nat) {
    && anchor < |tasks| && tasks[anchor].status.TaskCompleted? && Accepted(tasks[anchor]) == e.digest
    && AreTasks(tasks, ids)
    && (forall i | 0 <= i < |tasks| :: i in ids <==> anchor < i && tasks[i].status.TaskCompleted?)
    && (forall j, k | 0 <= j < k < |ids| :: ids[j] < ids[k])
  }

  /** An explanation of the drift: an unbroken chain of standalone Tasks from the anchor to the repository. */
  predicate Explains(e: Epic, tasks: seq<Task>, repo: Digest, ids: seq<nat>, anchor: nat) {
    && FollowsAnchor(e, tasks, ids, anchor)
    && !AnyLinked(e, ids) && Unbroken(tasks, ids, e.digest) && Arrives(tasks, ids, e.digest) == repo
  }

  predicate LastAnchorOf(e: Epic, tasks: seq<Task>, anchor: nat) {
    forall i | anchor < i < |tasks| && tasks[i].status.TaskCompleted? :: Accepted(tasks[i]) != e.digest
  }

  lemma LastIsGreatest(ids: seq<nat>)
    requires Ascending(ids) && ids != []
    ensures forall i :: i in ids ==> i <= ids[|ids| - 1]
    ensures forall i :: i in ids[..|ids| - 1] <==> i in ids && i != ids[|ids| - 1]
  {
    var init, last := ids[..|ids| - 1], ids[|ids| - 1];
    assert ids == init + [last];
  }

  lemma {:induction false} SortedIdsAreUnique(a: seq<nat>, b: seq<nat>)
    requires Ascending(a) && Ascending(b)
    requires forall i :: i in a <==> i in b
    ensures a == b
    decreases |a|
  {
    if a != [] { assert a[0] in b; }
    if b != [] { assert b[0] in a; }
    if a != [] && b != [] {
      LastIsGreatest(a);
      LastIsGreatest(b);
      assert a[|a| - 1] in b && b[|b| - 1] in a;
      var a', b' := a[..|a| - 1], b[..|b| - 1];
      forall i ensures i in a' <==> i in b' {
        assert i in a <==> i in b;
      }
      SortedIdsAreUnique(a', b');
      assert a == a[..|a| - 1] + [a[|a| - 1]] && b == b[..|b| - 1] + [b[|b| - 1]];
    }
  }

  /** The tail after position k is what follows the Task at position k. */
  lemma TailFollows(e: Epic, tasks: seq<Task>, k: nat)
    requires k < |CompletedTasks(tasks)| && Accepted(tasks[CompletedTasks(tasks)[k]]) == e.digest
    ensures FollowsAnchor(e, tasks, CompletedTasks(tasks)[k + 1..], CompletedTasks(tasks)[k])
  {
    var ids := CompletedTasks(tasks);
    forall i | 0 <= i < |tasks| ensures i in ids[k + 1..] <==> ids[k] < i && tasks[i].status.TaskCompleted? {
      if i in ids[k + 1..] {
        var j :| k + 1 <= j < |ids| && ids[j] == i;
      }
      if ids[k] < i && tasks[i].status.TaskCompleted? {
        var j :| 0 <= j < |ids| && ids[j] == i;
        assert j > k;
      }
    }
  }

  lemma FollowersAreTail(e: Epic, tasks: seq<Task>, ids: seq<nat>, anchor: nat) returns (k: nat)
    requires FollowsAnchor(e, tasks, ids, anchor)
    ensures k < |CompletedTasks(tasks)| && CompletedTasks(tasks)[k] == anchor && ids == CompletedTasks(tasks)[k + 1..]
    ensures Accepted(tasks[anchor]) == e.digest
  {
    var all := CompletedTasks(tasks);
    assert anchor in all;
    k :| 0 <= k < |all| && all[k] == anchor;
    TailFollows(e, tasks, k);
    SortedIdsAreUnique(ids, all[k + 1..]);
  }

  /** When the last completed Task was accepted away from the Epic's digest, Tasks follow every anchor
      and they end where the last one did. */
  lemma TailArrives(tasks: seq<Task>, ids: seq<nat>, k: nat, digest: Digest)
    requires AreTasks(tasks, ids) && k < |ids|
    requires Accepted(tasks[ids[k]]) == digest != Accepted(tasks[ids[|ids| - 1]])
    ensures ids[k + 1..] != [] && Arrives(tasks, ids[k + 1..], digest) == Accepted(tasks[ids[|ids| - 1]])
  {
    assert k != |ids| - 1;
    assert ids[k + 1..][|ids| - k - 2] == ids[|ids| - 1];
  }

  /** The checks at lines 168 and 178 can never fire. */
  lemma TwoChecksNeverFire(e: Epic, tasks: seq<Task>, repo: Digest)
    ensures Detect(e, tasks, repo) != Unexplained(NothingAfterAnchor)
    ensures Detect(e, tasks, repo) != Unexplained(ChainEndsElsewhere)
  {
    hide Arrives, AnyLinked, Unbroken, AnyChanged, Accepted;
    var all := CompletedTasks(tasks);
    if e.digest != "" && repo != e.digest && all != [] && Accepted(tasks[all[|all| - 1]]) == repo {
      var anchor := LastAnchor(tasks, all, e.digest);
      if anchor.Some? {
        TailArrives(tasks, all, anchor.value, e.digest);
      }
    }
  }

  /** Sound: a result is exactly all Tasks completed after the last anchor, standalone, in an unbroken
      chain from the Epic's digest to the repository, at least one of them with changed paths. */
  lemma DetectionIsSound(e: Epic, tasks: seq<Task>, repo: Digest, ids: seq<nat>) returns (anchor: nat)
    requires Detect(e, tasks, repo) == Explained(ids)
    ensures e.digest != "" && repo != e.digest
    ensures Explains(e, tasks, repo, ids, anchor) && LastAnchorOf(e, tasks, anchor) && AnyChanged(tasks, ids)
  {
    hide CompletedTasks, FollowsAnchor, AnyLinked, Unbroken, AnyChanged, Accepted, Arrives, LastAnchorOf;
    var all := CompletedTasks(tasks);
    var k := LastAnchor(tasks, all, e.digest).value;
    TailFollows(e, tasks, k);
    LastAnchorIsLast(e, tasks, k);
    anchor := all[k];
  }

  lemma LastAnchorIsLast(e: Epic, tasks: seq<Task>, k: nat)
    requires LastAnchor(tasks, CompletedTasks(tasks), e.digest) == Some(k)
    ensures LastAnchorOf(e, tasks, CompletedTasks(tasks)[k])
  {
    hide Accepted;
    var all := CompletedTasks(tasks);
    forall i | all[k] < i < |tasks| && tasks[i].status.TaskCompleted? ensures Accepted(tasks[i]) != e.digest {
      assert i in all;
      var j :| 0 <= j < |all| && all[j] == i;
      assert j > k;
    }
  }

  lemma LastAnchorIsAt(e: Epic, tasks: seq<Task>, anchor: nat, k: nat)
    requires k < |CompletedTasks(tasks)| && CompletedTasks(tasks)[k] == anchor
    requires Accepted(tasks[anchor]) == e.digest && LastAnchorOf(e, tasks, anchor)
    ensures LastAnchor(tasks, CompletedTasks(tasks), e.digest) == Some(k)
  {
    hide Accepted, CompletedTasks, LastAnchor;
    var all := CompletedTasks(tasks);
    var last := LastAnchor(tasks, all, e.digest);
    assert last.Some? && last.value >= k;
    forall j | k < j < |all| ensures Accepted(tasks[all[j]]) != e.digest {
      assert anchor < all[j];
    }
  }

  /** Complete: such a chain after the last anchor is always found. */
  lemma DetectionIsComplete(e: Epic, tasks: seq<Task>, repo: Digest, ids: seq<nat>, anchor: nat)
    requires e.digest != "" && repo != e.digest
    requires Explains(e, tasks, repo, ids, anchor) && LastAnchorOf(e, tasks, anchor) && AnyChanged(tasks, ids)
    ensures Detect(e, tasks, repo) == Explained(ids)
  {
    hide CompletedTasks, LastAnchor, AnyLinked, Unbroken, AnyChanged, Accepted, LastAnchorOf;
    var all := CompletedTasks(tasks);
    var k := FollowersAreTail(e, tasks, ids, anchor);
    assert all[|all| - 1] == ids[|ids| - 1];
    LastAnchorIsAt(e, tasks, anchor, k);
  }

  lemma TailIsUnbroken(tasks: seq<Task>, ids: seq<nat>, from: Digest, n: nat)
    requires AreTasks(tasks, ids) && Unbroken(tasks, ids, from) && n < |ids| && Accepted(tasks[ids[n]]) == from
    ensures Unbroken(tasks, ids[n + 1..], from)
  {
    var rest := ids[n + 1..];
    forall k: nat | k < |rest| ensures Continues(tasks, rest, k, from) {
      assert Continues(tasks, ids, n + 1 + k, from);
    }
  }

  lemma TailIsStandalone(e: Epic, ids: seq<nat>, n: nat)
    requires !AnyLinked(e, ids) && n <= |ids|
    ensures !AnyLinked(e, ids[n..])
  {
    forall k | 0 <= k < |ids[n..]| ensures !Linked(e, ids[n..][k]) {
      assert ids[n..][k] == ids[n + k];
    }
  }

  /** If any anchor explains the drift, the last one does, with the fewest Tasks. */
  lemma LastAnchorExplainsToo(e: Epic, tasks: seq<Task>, repo: Digest, ids: seq<nat>, anchor: nat)
    returns (n: nat, anchor': nat)
    requires repo != e.digest && Explains(e, tasks, repo, ids, anchor)
    ensures n < |ids| && Explains(e, tasks, repo, ids[n..], anchor') && LastAnchorOf(e, tasks, anchor')
  {
    hide CompletedTasks, LastAnchor, FollowsAnchor, AnyLinked, Unbroken, Accepted, LastAnchorOf, Arrives;
    var all := CompletedTasks(tasks);
    var k := FollowersAreTail(e, tasks, ids, anchor);
    ArrivesAtLast(tasks, all, k, e.digest, repo);
    var last := LastAnchor(tasks, all, e.digest).value;
    LastAnchorIsLast(e, tasks, last);
    n, anchor' := last - k, all[last];
    TailArrives(tasks, all, last, e.digest);
    TailFollows(e, tasks, last);
    assert ids[n..] == all[last + 1..];
    TailIsStandalone(e, ids, n);
    if n > 0 {
      assert ids[n - 1] == all[last];
      TailIsUnbroken(tasks, ids, e.digest, n - 1);
    } else {
      assert ids[0..] == ids;
    }
  }

  lemma ArrivesAtLast(tasks: seq<Task>, ids: seq<nat>, k: nat, digest: Digest, repo: Digest)
    requires AreTasks(tasks, ids) && k < |ids| && Accepted(tasks[ids[k]]) == digest
    requires Arrives(tasks, ids[k + 1..], digest) == repo != digest
    ensures k + 1 < |ids| && Accepted(tasks[ids[|ids| - 1]]) == repo
  {
    assert ids[k + 1..] != [] ==> ids[k + 1..][|ids| - k - 2] == ids[|ids| - 1];
  }

  // The loop

  lemma ChainGrows(tasks: seq<Task>, ids: seq<nat>, n: nat, from: Digest)
    requires AreTasks(tasks, ids) && n < |ids| && Unbroken(tasks, ids[..n], from) && Continues(tasks, ids, n, from)
    ensures Unbroken(tasks, ids[..n + 1], from)
  {
    var grown := ids[..n + 1];
    forall k: nat | k < |grown| ensures Continues(tasks, grown, k, from) {
      assert k < n ==> Continues(tasks, ids[..n], k, from);
    }
  }

  method WalkChain(tasks: seq<Task>, after: seq<nat>, digest: Digest) returns (expected: Option<Digest>)
    requires AreTasks(tasks, after)
    ensures expected == if Unbroken(tasks, after, digest) then Some(Arrives(tasks, after, digest)) else None
  {
    var current := digest;
    for k := 0 to |after|
      invariant Unbroken(tasks, after[..k], digest) && current == Arrives(tasks, after[..k], digest)
    {
      assert Continues(tasks, after, k, digest) <==> tasks[after[k]].baseline == current;
      if tasks[after[k]].baseline != current {
        return None;
      }
      current := Accepted(tasks[after[k]]);
      ChainGrows(tasks, after, k, digest);
    }
    assert after[..|after|] == after;
    return Some(current);
  }

  method DetectInterveningTasks(e: Epic, tasks: seq<Task>, repo: Digest) returns (d: Detection)
    ensures d == Detect(e, tasks, repo)
  {
    hide AnyLinked, Unbroken, AnyChanged, Accepted, Arrives;
    if e.digest == "" { return Unexplained(NoDigest); }
    if repo == e.digest { return Unexplained(NoDrift); }
    var completed := CompletedTasks(tasks);
    if completed == [] { return Unexplained(NothingCompleted); }
    var anchor := LastAnchor(tasks, completed, e.digest);
    if anchor.None? { return Unexplained(NoAnchor); }
    if Accepted(tasks[completed[|completed| - 1]]) != repo { return Unexplained(EndsElsewhere); }
    var after := completed[anchor.value + 1..];
    if after == [] { return Unexplained(NothingAfterAnchor); }
    if AnyLinked(e, after) { return Unexplained(TouchesEpic); }
    var expected := WalkChain(tasks, after, e.digest);
    if expected.None? { return Unexplained(ChainBroken); }
    if expected.value != repo { return Unexplained(ChainEndsElsewhere); }
    if !AnyChanged(tasks, after) { return Unexplained(NoChangedPaths); }
    return Explained(after);
  }

  // Recording a review

  /** `_resume_status` */
  function ResumeStatus(e: Epic): Status {
    var pending := First(e.plan, ItemPending);
    if pending.Some? && e.plan[pending.value].kind.Final? then FinalReview else Running
  }

  datatype Outcome = Unaffected | ReconciliationRequired | UnknownOutcome

  datatype ReviewTexts = ReviewTexts(summary: string, rationale: string, auditor: string)

  predicate AwaitsReview(e: Epic) { e.status.Blocked? && e.reason.InterveningReview? }

  function CheckedReview(t: ReviewTexts): Result<string> {
    var summary :- BoundedText(t.summary, 12_000, true);
    var rationale :- BoundedText(t.rationale, 8_000, false);
    BoundedText(t.auditor, 128, false)
  }

  /** `record_intervening_review`; `keys` are the Tasks the caller reviewed. */
  function RecordReview(e: Epic, tasks: seq<Task>, repo: Digest, keys: seq<nat>, outcome: Outcome, affected: bool,
                        texts: ReviewTexts): Result<Epic> {
    if !AwaitsReview(e) then Err(NotAwaitingReview)
    else
      var d := Detect(e, tasks, repo);
      if d.Unexplained? then Err(NotExplained)
      else if keys != d.tasks then Err(TaskSetConflict)
      else if outcome.UnknownOutcome? then Err(BadOutcome)
      else if outcome.Unaffected? && affected then Err(UnaffectedWithItems)
      else
        var _ :- CheckedReview(texts);
        Ok(if outcome.Unaffected? then e.(digest := repo, status := ResumeStatus(e), reason := NoReason)
           else e.(status := Blocked, reason := RepositoryDrift))
  }
}
