/** `accepted_task_identity` (src/ai_layer/application/epic_task_boundary.py:16-46): the repository
    digest a Task was accepted at. */
module TaskBoundary {
  import opened Epics
  import opened Options

  /** The completed stage of highest ordinal. */
  function LastCompletedStage(stages: seq<Stage>): Option<Stage> {
    if stages == [] then None
    else if stages[|stages| - 1].completed then Some(stages[|stages| - 1])
    else LastCompletedStage(stages[..|stages| - 1])
  }

  function OrElse(a: Digest, b: Digest): Digest { if a != "" then a else b }

  function Accepted(t: Task): Digest {
    var stage := LastCompletedStage(t.stages);
    if stage.None? then t.baseline
    else
      var observed := OrElse(stage.value.after, stage.value.before);
      var digest := if stage.value.snapshot.Some? then OrElse(observed, stage.value.snapshot.value) else observed;
      OrElse(digest, t.baseline)
  }

  predicate Records(s: Stage, d: Digest) { d == s.after || d == s.before || s.snapshot == Some(d) }

  /** The digest is never empty when the Task's baseline is not, and is one that the last completed stage
      recorded or the baseline; stages after that one have no say. */
  lemma {:induction false} AcceptedIsRecorded(t: Task, n: nat)
    requires t.baseline != "" && n <= |t.stages|
    requires forall i | n <= i < |t.stages| :: !t.stages[i].completed
    requires n == 0 || t.stages[n - 1].completed
    ensures Accepted(t) != ""
    ensures Accepted(t) == t.baseline || (n > 0 && Records(t.stages[n - 1], Accepted(t)))
    ensures n > 0 && t.stages[n - 1].after != "" ==> Accepted(t) == t.stages[n - 1].after
    ensures n > 0 && t.stages[n - 1].after == "" && t.stages[n - 1].before != "" ==>
              Accepted(t) == t.stages[n - 1].before
    ensures n > 0 && t.stages[n - 1].after == t.stages[n - 1].before == "" && t.stages[n - 1].snapshot.Some?
            && t.stages[n - 1].snapshot.value != "" ==>
              Accepted(t) == t.stages[n - 1].snapshot.value
    ensures n == 0 || (t.stages[n - 1].after == t.stages[n - 1].before == ""
                       && (t.stages[n - 1].snapshot == None || t.stages[n - 1].snapshot.value == "")) ==>
              Accepted(t) == t.baseline
    decreases |t.stages| - n
  {
    if n < |t.stages| {
      AcceptedIsRecorded(t.(stages := t.stages[..|t.stages| - 1]), n);
    }
  }
}
