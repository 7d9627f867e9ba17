# Verification model of AI Layer's engines

This project models the parts of AI Layer that schedule work, guard shared state and decide about
graphs, and proves their properties for all inputs, all interleavings and all runs. Modules follow the
source files.

**Graphs.** `Tarjan` is the recursive component search of the architecture gate with its shared counter,
low-links and stack; `ArchitectureGate` builds its two graphs. `MigrationGate` is the graph part of the
migration gate. `OverlapGroups` reduces registered roots to the outermost ones.

**The Epic engine.** `Epics` holds the rows; `TaskBoundary`, `EpicLifecycle`, `EpicPlanning`,
`EpicExecution`, `EpicReview` and `EpicNavigation` specify each operation as a function from a row to a
row or an error; `EpicRows` is the row as the code updates it, field by field, each method proved to do
what the function says. `EpicInvariants` and `EpicPreservation` carry the invariant through every
operation. `EpicRuns` is a project as one transition system: any number of Epics, the project's Tasks and
a worktree that changes at any time, also inside a start. `EpicTheorems` states what follows for every
run. The next five are about guided runs, where a plan item is started only when the navigator, asked at
that moment, changes nothing and names it: `EpicGuidedRuns` and `EpicChains` link consecutive items by
accepted Tasks, `EpicAdvice` says when what is named can be done, `EpicAnswers` what `next_action` answers
when it is asked twice, and `EpicProgress` that following it completes an Epic. `EpicStartRace` takes the two
commits of a start apart and carries the theorems about the projects that runs, or guided runs, reach over
to that machine; `StartRaceHypotheses` shows that its two hypotheses are needed. `EpicLaws` tells what each
operation does by columns, Tasks and texts alone. `EpicExamples` holds concrete runs.

**Protocols.** `DirectoryLock`, `Idempotency` and `StableScan` are interleaved statement by statement or
instant by instant. Their timing and atomicity hypotheses are named predicates of a step, a read or the
repository's history, and those of the lock (`LockHypotheses`), of idempotent commands and of a scan's reads
and writes are shown to be needed. `IdempotencyLaws` tells which requests a receipt answers, and
`LockProgress` what one call does to the lock and the guard when nobody interferes.

**Refinements and editing.** `ChangeDetection` relates the hint-based scan to a comparison of all hashes.
`SpecEditor`, `SpecEditorLaws` and `SpecEditorMeaning` treat the specification editor; `Text`, `Ordering` and `Options` are
shared.

## What the proofs found

- `create_task` commits inside `start_next` and `start_drift_reconciliation`
  (src/ai_layer/tasks/lifecycle.py:190), and the Epic's own columns follow in a second commit. With the new
  Task open and the Epic's row untouched in between, every committed project is one that the one-step
  machine reaches, starts that die included. If the Task is cancelled in between, two Epics can be in
  execution; if the specification is revised in between, an Epic is in Phase 0 without an approved version.
- `start_next` captures the repository for its boundary check and again for the Task's baseline. The
  baseline is the boundary if and only if the worktree stood still. Accepted Tasks always lead from one plan
  item to the boundary that the next one's own check saw (`ConsecutiveItemsAreChained`), but not always to its
  baseline (`MovedStartBreaksTheChain`).
- `next_action` without a key, called again right after it completed an Epic, answers something else: it
  finds nothing, another Epic, or several open ones (`KeylessAnswerChanges`). In every other case, and with a
  key always, the second answer is the first, and the second call never changes anything
  (`SecondCallAnswers`).
- An Epic that waits for a review of intervening Tasks is stuck while completed Tasks do not explain the
  repository: the navigator goes on naming the review, every call is refused, and no other Epic can start
  (`UnexplainedReviewFreezes`).
- An Epic whose Task ended uncompleted, in Phase 0 or later, is never changed again and shuts every other
  Epic out of Phase 0 for good (`FrozenForever`).
- Three actions that the navigator names can be refused: Phase 0 while another Epic is executing, a review
  that no Tasks explain any more, a drift reconciliation while a standalone Task is open. `EpicAdvice` gives
  the exact condition of each and `EpicExamples` a run to each refusal.
- `read_stable_source` (src/ai_layer/memory/source.py:275-300) does not compare the change time. A rewrite
  inside a read that comes back to the same size and modification time is committed with the old content
  under the new hint, and verification accepts it (`UnquietReadIsCommitted`).
- `update_source_identity` (src/ai_layer/memory/persistence.py:73-77) writes only the columns that differ from
  the row as it was loaded. If a navigation read of an intermediate content is committed between the loading
  and the update, its content is left under the new hint, and verification accepts that too
  (`MixedRowIsCommitted`).
- Specifications are stored stripped (src/ai_layer/epics/contracts.py:80), so a heading can be an
  unterminated last line. `replace_section` then glues the new text to the heading; `ReadAfterWrite` gives
  the exact condition.
- `_unique_index` counts occurrences that do not overlap. `DeleteUndoesInsert` says exactly when deleting
  inserted text restores the document; `OverlapExample` is an input where it does not.
- `directory_lock` needs six hypotheses. One is not in its comments: the reclaim guard is aged and
  removed in two steps, so it must not change between them. A pid whose status cannot be found out
  protects a lock record without incarnation data and does not protect one with it (`OwnerIsSafeIff`),
  so the lock of a live process can be taken away (`UnknownPid`).
- The checks at lines 168 and 178 of src/ai_layer/application/epic_review.py can never fire.
- Without the navigator two plan items can be active at once, and asking the navigator twice then gives
  two different answers (`TwoItemsCanBeActive`).

## Model

| member | source | states |
|---|---|---|
| Tarjan.StronglyConnectedComponents | scripts/architecture_gate.py:185-222 | for every graph the result is the sorted list of the sorted maximal mutually reachable node sets of two or more nodes, each once; targets outside the graph are ignored; the recursion ends |
| Tarjan.ReportIsUnique | scripts/architecture_gate.py:222 | that report is determined by the graph, whatever order edge sets are iterated in |
| Tarjan.Search.Visit | scripts/architecture_gate.py:193-217 | one visit keeps the stack, low-link and components-found invariant and ends either with its component reported or above the old stack with a low-link no edge undercuts |
| Tarjan.Search.PopComponent | scripts/architecture_gate.py:209-215 | the inner loop pops exactly the segment of the stack from the node up |
| Tarjan.SegmentIsComponent | scripts/architecture_gate.py:207-217 | a low-link equal to the node's number closes a maximal strongly connected set |
| Graphs.AcyclicIffNoLargeComponent | scripts/architecture_gate.py:256-288 | without self-edges, all components are single nodes iff a topological order exists |
| ArchitectureGate.NoCycleReportedIffAcyclic | scripts/architecture_gate.py:512-515 | no cycle error iff the graph has a topological order |
| ArchitectureGate.ModuleGraphIsImports | scripts/architecture_gate.py:113-140 | the edges of that graph are exactly the imports, without self-edges |
| ArchitectureGate.ModuleCycles | scripts/architecture_gate.py:139-140 | the report of all import cycles: the sorted components of two or more modules of the import graph; empty iff the imports can be layered |
| ArchitectureGate.Owners | scripts/architecture_gate.py:246-252 | exactly the modules some rule names are owned, each by its capability |
| ArchitectureGate.CapabilityGraph | scripts/architecture_gate.py:254-267 | the result is the dependency graph: all owning capabilities, two of them joined iff a module of one imports a module of the other, never a capability with itself |
| ArchitectureGate.CapabilityCycles | scripts/architecture_gate.py:286-288 | ownership, and the report of all cycles of the dependency graph; empty iff the capabilities can be layered |
| MigrationGate.MigrationGraph | scripts/migration_gate.py:25-41 | a graph is returned iff every revision is a non-empty string, every parent a string or none, and no revision repeats; then it records exactly the files' parents |
| MigrationGate.NoSharedParent | scripts/migration_gate.py:50-59 | with one root, one head and no missing parent no two revisions share a parent, by counting |
| MigrationGate.WalkEndsAtTheRoot | scripts/migration_gate.py:60-67 | then the walk from the head never revisits a revision, so the cycle branch cannot fire |
| MigrationGate.OnlyCyclesAreMissed | scripts/migration_gate.py:68-69 | every revision the walk misses lies on a cycle: a sequence of distinct missed revisions from it, each the parent of the one before, that returns to it |
| MigrationGate.WalkBack | scripts/migration_gate.py:61-65 | the loop's visited revisions are the walk from the head up to its end or first repetition |
| MigrationGate.GraphErrors | scripts/migration_gate.py:50-69 | no error iff the revisions form one linear chain; each kind of error is reported exactly when it is due, with exactly the revisions concerned, and the head is the only revision that is no parent |
| OverlapGroups.RegisteredOverlapGroups | src/ai_layer/core/repair.py:102-129 | each group is an outermost root with all registered roots inside it, the groups and the roots inside each ordered by number of parts and then by path text; every nested root is in a group |
| OverlapGroups.GroupingIsUnique | src/ai_layer/core/repair.py:102-129 | for resolved paths that determines the whole result, order included |
| OverlapGroups.SiblingsInTextOrder | src/ai_layer/core/repair.py:110 | /p/x sorts before /p/x-y |
| OverlapGroups.DetachedOnce | src/ai_layer/core/repair.py:112-128 | a detached root is in one group only, under its topmost registered ancestor, which is kept |
| OverlapGroups.KeptRoots | src/ai_layer/core/repair.py:112-128 | the roots kept are exactly the outermost ones, an antichain |
| TaskBoundary.AcceptedIsRecorded | src/ai_layer/application/epic_task_boundary.py:16-46 | the accepted digest is one the last completed stage recorded, or the baseline, and is never empty when the baseline is not |
| EpicReview.DetectInterveningTasks | src/ai_layer/application/epic_review.py:132-202 | the loop form computes the specified detection, return statement by return statement |
| EpicReview.DetectionIsSound | src/ai_layer/application/epic_review.py:147-178 | a result is all Tasks completed after the last anchor, none linked to the Epic, an unbroken baseline-to-accepted chain from the execution digest to the repository |
| EpicReview.DetectionIsComplete | src/ai_layer/application/epic_review.py:151-194 | such a chain with a changed path is always found |
| EpicReview.LastAnchorExplainsToo | src/ai_layer/application/epic_review.py:160 | if any anchor explains the drift the last one does, with a tail of the same Tasks |
| EpicReview.TwoChecksNeverFire | src/ai_layer/application/epic_review.py:166-179 | the emptiness check and the final digest check can never return |
| EpicRows.EpicRow.Create | src/ai_layer/application/epic_lifecycle.py:30-55 | a new draft with version 1 of the trimmed text, or the text error |
| EpicRows.EpicRow.PersistManualRevision | src/ai_layer/application/epic_lifecycle.py:152-223 | a changed text becomes the next version and the Epic a draft again; an equal one changes nothing |
| EpicRows.EpicRow.ReviseSpec | src/ai_layer/application/epic_lifecycle.py:226-252 | full replacement before Phase 0 only |
| EpicRows.EpicRow.EditSpec | src/ai_layer/application/epic_lifecycle.py:255-293 | edits the version the caller named or raises, errors in the code's order |
| EpicRows.EpicRow.Approve | src/ai_layer/application/epic_lifecycle.py:339-364 | a draft of sufficient quality is approved at its current version |
| EpicRows.EpicRow.Archive | src/ai_layer/application/epic_lifecycle.py:367-384 | only a completed Epic is archived |
| EpicRows.EpicRow.WriteExecutionSpec | src/ai_layer/application/epic_planning.py:29-54 | an unchanged text keeps its version; a changed one becomes the next, and either is the execution version |
| EpicRows.EpicRow.AddWorkItems | src/ai_layer/application/epic_planning.py:90-120 | appends one pending item per text, ordinals counting up from the first, and returns the next ordinal |
| EpicRows.EpicRow.RetryFinalItem | src/ai_layer/application/epic_planning.py:150-159 | appends a pending final item behind the highest ordinal |
| EpicRows.EpicRow.SetPlan | src/ai_layer/application/epic_planning.py:162-207 | creates the plan or raises, with the whole row unchanged on error |
| EpicRows.EpicRow.DeletePending | src/ai_layer/application/epic_planning.py:220-222 | removes exactly the pending rows, in order |
| EpicRows.EpicRow.ReplacePendingWork | src/ai_layer/application/epic_planning.py:210-226 | replaces the pending tail behind the highest completed ordinal, refused while an item is active |
| EpicRows.EpicRow.ReconcileComplete | src/ai_layer/application/epic_planning.py:229-308 | records the analysis, then blocks, replans or goes on to planning; rolled back as a whole when replanning raises |
| EpicRows.EpicRow.BeginStart | src/ai_layer/application/epic_execution.py:107-167 | the checks of a start, with all refusals in the code's order, and the columns it will assign |
| EpicRows.EpicRow.BeginDrift | src/ai_layer/application/epic_execution.py:184-213 | the checks of a drift reconciliation and the columns it will assign |
| EpicRows.EpicRow.Land | src/ai_layer/application/epic_execution.py:131-220 | the second commit: only the assigned columns are written, into the row as it is by then; an unchanged status is not written |
| EpicRows.EpicRow.StartNext | src/ai_layer/application/epic_execution.py:107-181 | checks, new Task and second commit, with nothing happening to the row in between: starts Phase 0 or the first pending item, or raises with the row unchanged |
| EpicRows.EpicRow.StartDriftReconciliation | src/ai_layer/application/epic_execution.py:184-227 | likewise for the drift Task of a drift-blocked Epic |
| EpicRows.EpicRow.RecordInterveningReview | src/ai_layer/application/epic_review.py:280-367 | accepts the repository as the new boundary or blocks on drift, against the Task set found now |
| EpicRows.EpicRow.CompleteFinalItem | src/ai_layer/application/epic_navigation.py:90-119 | completes, waits for the map, or retries the closure |
| EpicRows.EpicRow.SyncActiveItem | src/ai_layer/application/epic_navigation.py:122-166 | settles the first active item by its Task's status |
| EpicRows.EpicRow.RunningNavigation | src/ai_layer/application/epic_navigation.py:313-362 | syncs, then standalone Task, drift, pending item, in this order |
| EpicRows.EpicRow.DriftTaskNavigation | src/ai_layer/application/epic_navigation.py:248-271 | follows the drift Task and blocks when it ended uncompleted |
| EpicRows.EpicRow.NextAction | src/ai_layer/application/epic_navigation.py:423-467 | the navigator with its effect on the row |
| EpicInvariants.EpicIsKept | src/ai_layer/db/models.py:131-155 | the whole Epic invariant survives everything Tasks can do |
| EpicPreservation.ReplacedIsTail | src/ai_layer/application/epic_planning.py:210-226 | replanning keeps exactly the completed head and puts a well-formed tail behind it |
| EpicPreservation.StartNextKeeps | src/ai_layer/application/epic_execution.py:107-181 | starting keeps specification history, plan shape, links, provenance and completion evidence |
| EpicPreservation.ReconcileKeeps | src/ai_layer/application/epic_planning.py:229-308 | so does reconciling, for Phase 0 and for drift, with and without a new plan |
| EpicPreservation.NavigateKeeps | src/ai_layer/application/epic_navigation.py:423-467 | so does the navigator |
| EpicPreservation.RecordReviewKeeps | src/ai_layer/application/epic_review.py:280-367 | so does recording a review: the repository it accepts is some completed Task's accepted digest |
| EpicRuns.EveryReachableProjectIsOk | src/ai_layer/application/epic_navigation.py:521-541 | every reachable project satisfies the invariant |
| EpicTheorems.PlanShape | src/ai_layer/application/epic_planning.py:150-226 | dense ordinals from 0, the completed analysis only at 0, a final item last, earlier finals completed, statuses ordered; a blocked item means a blocked Epic |
| EpicTheorems.EndedTaskFreezesEpic | src/ai_layer/application/epic_navigation.py:140-144 | an Epic whose Task ended uncompleted, as its Phase 0 Task or later, is changed by no step |
| EpicTheorems.FrozenForever | src/ai_layer/application/epic_navigation.py:140-144 | nor by any run, and after every run no other Epic is executing and none can start its Phase 0 |
| EpicTheorems.UnexplainedReviewFreezes | src/ai_layer/application/epic_navigation.py:437-445 | while completed Tasks do not explain the repository, no sequence of engine calls moves an Epic that waits for the review, the navigator included, and no other Epic can start |
| EpicTheorems.ReviewMovesIffExplained | src/ai_layer/application/epic_review.py:280-311 | an Epic that waits for the review takes some call iff completed Tasks explain the repository |
| EpicLaws.ReviewedIff | src/ai_layer/application/epic_review.py:295-328 | a review is accepted iff the Epic waits for it, its Tasks are those that explain the repository now, the outcome fits and the texts are admissible |
| EpicLaws.UnaffectedAcceptsTheRepository | src/ai_layer/application/epic_review.py:330-336 | an accepted `unaffected` review makes the repository the boundary and lets the Epic run, in final review iff the closure is next, with nothing else changed |
| EpicLaws.ReconciliationRequiredBlocks | src/ai_layer/application/epic_review.py:336-342 | an accepted `reconciliation_required` review blocks for drift and changes nothing else |
| EpicLaws.RequiredReconciliationComesFirst | src/ai_layer/application/epic_review.py:336-342 | after it, whatever happens, no plan item of the Epic starts before a reconciliation is recorded |
| EpicTheorems.PlanAsGiven | src/ai_layer/application/epic_planning.py:57-87 | the stored work items are the given ones, trimmed, in order, between analysis and closure, at most 60 rows |
| EpicLaws.PlannedIff | src/ai_layer/application/epic_planning.py:162-207 | when a plan is accepted, and that titles and goals are stored trimmed, each as given, in order between analysis and closure |
| EpicLaws.ReplannedBehind | src/ai_layer/application/epic_planning.py:210-226 | replanning keeps the completed items and puts the given texts and a closure behind them |
| EpicLaws.ReconciledIff | src/ai_layer/application/epic_planning.py:229-275 | an analysis is recorded iff its Task is completed, the Epic waits for it and the texts are admissible |
| EpicLaws.ReconciledStores | src/ai_layer/application/epic_planning.py:229-308 | the updated text is stored, trimmed, as current and execution version, the boundary is where the Task was accepted, decisions block the Epic, and it plans, runs on or is replanned otherwise |
| EpicLaws.StartedIff | src/ai_layer/application/epic_execution.py:107-181 | a start is accepted iff no Task is open and the Epic is approved alone, or at its boundary with a pending item; which item begins and with which status |
| EpicLaws.DriftStartedIff | src/ai_layer/application/epic_execution.py:184-227 | a drift reconciliation starts iff the Epic is blocked for drift and no Task is open, and what it changes |
| EpicTheorems.SpecHistory | src/ai_layer/application/epic_planning.py:29-54 | versions are exactly 1 to current; a draft has no approved or execution version; from the first reconciliation on execution is current and approved at most that |
| EpicTheorems.StepKeepsHistory | src/ai_layer/application/epic_lifecycle.py:152-223 | no step alters a stored version, nor the approved version once execution began |
| EpicTheorems.ContentsAreNeverAltered | src/ai_layer/application/epic_lifecycle.py:152-223 | no run alters a stored version |
| EpicTheorems.EditTurnsNamedVersion | src/ai_layer/application/epic_lifecycle.py:255-293 | a successful edit turns exactly the named version into its successor or changes nothing |
| EpicLaws.CreatedIff | src/ai_layer/application/epic_lifecycle.py:30-55 | creation is accepted iff title and specification are 1 to 240 and 1 to 120 000 characters when trimmed, and stores the trimmed specification as version 1 |
| EpicLaws.RevisedIff | src/ai_layer/application/epic_lifecycle.py:152-252 | when a full replacement is accepted and what it stores |
| EpicLaws.EditedIff | src/ai_layer/application/epic_lifecycle.py:255-293 | when an edit is accepted, with which error a wrong version is refused, and that it is a revision by the edited text |
| EpicLaws.ApprovedIff | src/ai_layer/application/epic_lifecycle.py:339-364 | a draft is approved iff its current text passes the quality gate |
| EpicLaws.ArchivedIff | src/ai_layer/application/epic_lifecycle.py:367-384 | an Epic is archived iff it is completed, with nothing else changed |
| EpicTheorems.CompletedEpicsAreDone | src/ai_layer/application/epic_navigation.py:90-119 | a completed or archived Epic has every item completed by a completed Task, the last a final with documentation, knowledge and map evidence |
| EpicTheorems.HowEpicsEnd | src/ai_layer/application/epic_lifecycle.py:367-384 | completion only by the navigator on all evidence at once; archiving only from completed; archived is final; cancelled is never reached |
| EpicLaws.ClosedIff | src/ai_layer/application/epic_navigation.py:47-119 | asked about a closure whose Task is completed, the navigator completes the Epic iff the Task changed one of five named documents or a path under docs/, last published something and last mapped something; lacking the map it waits, lacking more it appends a further closure |
| EpicLaws.WorkIsSettled | src/ai_layer/application/epic_navigation.py:122-166 | an active item is left, blocked or completed as its Task is open, cancelled or completed |
| EpicLaws.MissingTaskBlocks | src/ai_layer/application/epic_navigation.py:122-143 | an active item whose Task is gone blocks the Epic |
| EpicLaws.NamedBetweenItems | src/ai_layer/application/epic_navigation.py:313-362 | between items exactly which action is named: foreign Task, then review or reconciliation of drift, then the next pending item |
| EpicLaws.NamedByStatus | src/ai_layer/application/epic_navigation.py:423-467 | and which in every other status |
| EpicLaws.NamedInDrift | src/ai_layer/application/epic_navigation.py:248-271 | and which while it is being reconciled |
| EpicLaws.FoundIff | src/ai_layer/application/epic_navigation.py:500-518 | which Epic a call finds: the one named, else the only one begun, else the only one not ended; several are refused and none is idle |
| EpicTheorems.NavigatorNeverFindsSeveral | src/ai_layer/application/epic_navigation.py:500-518 | at most one Epic is executing, so the branch for several never raises |
| EpicTheorems.DigestProvenance | src/ai_layer/application/epic_execution.py:57-66 | the execution digest is empty exactly before the first reconciliation and else the accepted digest of a completed Task; no linked Task is missing |
| EpicTheorems.ItemsStartAtTheBoundary | src/ai_layer/application/epic_execution.py:141-167 | a plan item starts only when the repository checked is the accepted execution digest; the baseline is that digest iff the worktree did not change between check and baseline |
| EpicGuidedRuns.NavigateIsIdempotent | src/ai_layer/application/epic_navigation.py:313-362 | with at most one active item a second call changes nothing and names the same action, even after a sync, a retried closure or a block |
| EpicGuidedRuns.StartKeepsOneActiveIff | src/ai_layer/application/epic_execution.py:144-164 | a plan item's start leaves at most one item active iff none was active before it |
| EpicAdvice.NavigatorFixpoint | src/ai_layer/application/epic_navigation.py:423-467 | in guided runs at most one item is active, and navigating any given Epic a second time changes nothing and names the same action |
| EpicAnswers.SecondCallAnswers | src/ai_layer/application/epic_navigation.py:500-541 | in guided runs a second `next_action` right after the first never changes the project; its answer (idle, an error, or an Epic with its row and action) is the same iff a key was given or the first call did not complete the Epic it found; otherwise it finds nothing, several open Epics, or a draft or approved one |
| EpicAnswers.ClassesDetermineLists | src/ai_layer/application/epic_navigation.py:500-518 | the executing and the open Epics are determined by the statuses, in order |
| EpicGuidedRuns.NamedStartIsGuided | src/ai_layer/application/epic_navigation.py:294-310 | a start that the navigator has just named is always one a guided run allows |
| EpicChains.ConsecutiveItemsAreChained | src/ai_layer/application/epic_execution.py:57-70 | in every guided run, for consecutive items without a drift reconciliation between them: a step of the run started the second one, accepted Tasks chain the first one's accepted digest to the repository its boundary check saw, and the second one's baseline is that repository iff the worktree did not move inside that very start |
| EpicChains.ItemWasStarted | src/ai_layer/application/epic_execution.py:141-167 | every started item behind the analysis got its Task from exactly such a start of its own Epic in a running status, with the worktree after it as baseline |
| EpicAdvice.NavigatorNamesWhatCanBeDone | src/ai_layer/application/epic_navigation.py:423-467 | in guided runs: a named item start succeeds and starts the item named; a named plan or reconciliation (the resolution of a human decision included) is refused for the caller's texts only; a Task to continue is open; an Epic to archive is completed; Phase 0 starts iff no other Epic is executing; a review is accepted iff completed Tasks explain the repository; a drift reconciliation starts iff no Task is open; the last two hold when this call found the drift |
| EpicAdvice.SomethingIsPending | src/ai_layer/application/epic_navigation.py:294-305 | a running Epic with nothing active always has a pending item, so the branch without one is not reached |
| EpicProgress.RoundMakesProgress | src/ai_layer/application/epic_navigation.py:313-362 | a named start, whatever happens elsewhere until its Task is completed without drift, and a call with the key or without: one item fewer is pending and the next is named, or the Epic is completed and its archiving named; a closure without evidence is retried |
| EpicProgress.FollowingCompletesTheEpic | src/ai_layer/application/epic_navigation.py:423-467 | such rounds are a guided run, and complete the Epic exactly when they are as many as its pending items and the retried closures; until then something is pending and named |
| EpicExamples.TwoItemsCanBeActive | src/ai_layer/application/epic_execution.py:144-164 | a concrete unguided run with two active items, where the fixpoint fails |
| EpicExamples.KeylessAnswerChanges | src/ai_layer/application/epic_navigation.py:500-541 | guided runs whose last keyless call completes an Epic and names its archiving, and the next answers idle, names another Epic or refuses for several |
| EpicExamples.PlannedIsAtBoundary | src/ai_layer/application/epic_planning.py:162-207 | a guided run to a planned Epic from which the rounds can begin |
| EpicExamples.MovedStartBreaksTheChain | src/ai_layer/application/epic_execution.py:57-66 | a guided run whose worktree moves inside a start: two consecutive items that no accepted Task chains |
| EpicExamples.Phase0IsRefused | src/ai_layer/application/epic_execution.py:29-42 | a guided run to a named Phase 0 that is refused for another executing Epic |
| EpicExamples.ReviewIsRefused | src/ai_layer/application/epic_review.py:280-311 | a guided run to a named review that is refused whatever the caller says |
| EpicExamples.DriftStartIsRefused | src/ai_layer/application/epic_execution.py:184-213 | a guided run to a named drift reconciliation that is refused for an open standalone Task |
| EpicStartRace.UndisturbedProjectsAreReachable | src/ai_layer/tasks/lifecycle.py:190 | under two hypotheses every committed project of the two-commit machine, dying starts included, is one the one-step machine reaches, and so is what a start under way will commit; at most one is under way |
| EpicStartRace.NamedProjectsAreGuided | src/ai_layer/tasks/lifecycle.py:190 | the same for guided runs, when plan items are started only on the navigator's word |
| EpicStartRace.CommitsMakeTheStart | src/ai_layer/application/epic_execution.py:117-167 | the two commits together are the one-step start |
| EpicStartRace.DeadStartLeavesStandaloneTask | src/ai_layer/tasks/lifecycle.py:190 | a start that dies between its commits leaves its Task open as a standalone one and the Epic unchanged |
| StartRaceHypotheses.CancelledTaskLetsTwoStart | src/ai_layer/application/epic_execution.py:29-42 | a run from an empty project that ends with two Epics in execution, the Task of one start being cancelled between its commits |
| StartRaceHypotheses.RevisedRowIsStarted | src/ai_layer/application/epic_execution.py:117-137 | a run from an empty project that ends with an Epic in Phase 0 without an approved version, its specification being revised between the commits |
| StartRaceHypotheses.HypothesesAreExact | src/ai_layer/application/epic_execution.py:107-227 | the engine's invariant holds of every committed project under both hypotheses and fails without either |
| DirectoryLock.MutualExclusion | src/ai_layer/core/filelock.py:142-181 | over all interleavings and crashes at most one live process is in the body, with reclaims decided by the owner checks, under six named hypotheses |
| DirectoryLock.OnlyDeadOrOwnLockIsRemoved | src/ai_layer/core/filelock.py:122-139 | a reclaim removes only a dead incarnation's lock, a release only its own |
| DirectoryLock.OwnerIsSafeIff | src/ai_layer/core/filelock.py:66-119 | exactly which readable owners protect their lock |
| DirectoryLock.LiveOwnersAreKept | src/ai_layer/core/filelock.py:66-119 | when a live pid is reported alive and boot id and process start are stable, the code's decision never takes a live owner's lock |
| DirectoryLock.CondemnedIsDead | src/ai_layer/core/filelock.py:108-139 | so every lock found reclaimable was made by a dead process |
| LockProgress.FreeLockIsTaken | src/ai_layer/core/filelock.py:142-181 | undisturbed, a call takes a free lock and records its own process |
| LockProgress.OwnLockIsGivenBack | src/ai_layer/core/filelock.py:142-181 | and gives its own back when it leaves |
| LockProgress.ReclaimOrNothing | src/ai_layer/core/filelock.py:122-139 | undisturbed, a contending call removes the lock if its decision allows it and leaves it as it is if not, and gives the reclaim guard back in either case |
| LockProgress.StaleGuardIsRemoved | src/ai_layer/core/filelock.py:122-139 | a guard older than the limit is removed, a younger one waited for |
| LockHypotheses.HypothesesAreExact | src/ai_layer/core/filelock.py:66-181 | exclusion holds under all six hypotheses and fails without any one of them |
| LockHypotheses.UnknownPid | src/ai_layer/core/filelock.py:66-119 | a run where a live owner whose pid's status cannot be found out loses its lock |
| LockHypotheses.GuardChangesBeforeRemoval | src/ai_layer/core/filelock.py:122-139 | a run where the guard changes between its age check and its removal |
| Idempotency.Transaction.ExecuteIdempotent | src/ai_layer/application/commands.py:63-125 | one call on the committed rows: refused names, reused keys, replay, incomplete receipt, or the receipt started, the handler run and the receipt completed |
| Idempotency.CallIsItsScript | src/ai_layer/application/commands.py:84-125 | that call is exactly the machine's run of its statements, and nothing is answered before the commit except a replay |
| Idempotency.EveryRunIsExactlyOnce | src/ai_layer/application/commands.py:63-125 | over all interleavings, rollbacks and retries: at most one committed effect per command, one iff a completed receipt is committed, every answer its result, line 95 unreachable; no hash need be injective |
| Idempotency.AnswersAgree | src/ai_layer/application/commands.py:89-95 | all answers ever given for one command are equal and went to one command name |
| Idempotency.CommittedCommandIsNotRerun | src/ai_layer/application/commands.py:88-95 | after the receipt is committed a retry of the same name and request can only replay it, and one of another name or with neither hash can only be refused |
| Idempotency.HistoryIsKept | src/ai_layer/application/commands.py:97-110 | committed receipts, effects and answers are never altered |
| IdempotencyLaws.NamesAreBounded | src/ai_layer/application/commands.py:77-82 | a call is refused for its names iff one is empty or longer than 128 characters when trimmed |
| IdempotencyLaws.ReplayedIffSameRequest | src/ai_layer/application/commands.py:88-95 | with a receipt for its command a call writes nothing; it is refused as another command iff the name differs or the hash is neither of the two of its own request, and else replayed, or incomplete |
| IdempotencyLaws.NewCommandIsRecorded | src/ai_layer/application/commands.py:97-125 | without one the handler runs once and the receipt holds the trimmed names, the hash of the request in its project and the handler's result |
| IdempotencyLaws.AnswerIsBacked | src/ai_layer/application/commands.py:63-125 | over all runs: behind every answer are the one receipt and the one effect of its command, with its result, name and request hash |
| IdempotencyLaws.AnswersWentToOneRequest | src/ai_layer/application/commands.py:89-93 | over all runs, if hashes do not collide: all answers for one command went to one request |
| IdempotencyLaws.OtherRequestIsRefused | src/ai_layer/application/commands.py:90-92 | and once it was answered, a call under its id with another request or name is refused |
| IdempotencyLaws.RolledBackLeavesNothing | src/ai_layer/application/commands.py:63-76 | any open transaction can be rolled back, leaving tables and answers as they were and its lock free |
| Idempotency.HypothesesAreExact | src/ai_layer/application/commands.py:45-51 | the advisory lock, rollback on error and reads that see every committed receipt suffice, and none can be dropped |
| StableScan.ScanUntilStable | src/ai_layer/memory/freshness.py:147-198 | at most max(1, max_attempts) attempts, every one but a successful last rolled back, at most one commit, metadata only after it; the successful attempt has equal paths and hints, hashes for all, and probes that do not differ, and every earlier one lacks one of these |
| StableScan.CommitsIff | src/ai_layer/memory/freshness.py:181-194 | an attempt of a run commits iff all reads were stable, the re-read rows have hashes and the observed paths and hints, and the probes do not differ |
| StableScan.VerifiedRowsAreExact | src/ai_layer/memory/identity.py:189-206 | double collect: with quiet reads and matching hints, from the last read to the first stat every file had exactly its stored content |
| StableScan.VerifiedRowsAreExactIff | src/ai_layer/memory/identity.py:189-206 | with nothing assumed of the reads, that holds iff every read returned what its file held at the second lstat |
| StableScan.QuietIsExact | src/ai_layer/memory/source.py:275-304 | between two lstats of equal device, inode, size and modification time, whatever a read can return is true at some instant iff the content did not change between them |
| StableScan.UnquietReadIsCommitted | src/ai_layer/memory/source.py:275-304 | a rewrite inside a read that comes back to the same key is accepted, verified and committed, and the row is true at no instant |
| StableScan.ScanRowsAreTrue | src/ai_layer/memory/source.py:285-304 | with quiet reads every row a scan leaves, read or trusted, was true at some instant of the scan |
| StableScan.HintsAreSound | src/ai_layer/memory/identity.py:310-354 | in a changing repository whose hints show changes and do not recur, a matching hint means that the stored hash was current when the file was glanced at |
| StableScan.GlancedScanRefinesFull | src/ai_layer/memory/identity.py:310-354 | so the fast path lists what hashing every file at its glance would have listed |
| StableScan.EveryCommitIsExact | src/ai_layer/memory/indexer.py:425-509 | over any number of refreshes with navigation reads committed at any time, beside a running scan too: with quiet reads, and none of them committed to a row between its loading and its update in place, every commit verified exact contents and every row ever stored was once true |
| StableScan.RowReadIsScannedOrNavigated | src/ai_layer/memory/indexer.py:187-235 | with nothing underneath, every row an attempt re-reads is the one its scan leaves or that of a navigation read, never a mixture |
| StableScan.MixedRowIsCommitted | src/ai_layer/memory/persistence.py:73-77 | a navigation read underneath an update in place: all reads quiet, hints verified, the attempt committed, and the row true at no instant |
| ChangeDetection.ClassifyChanges | src/ai_layer/memory/identity.py:310-354 | the lists, snapshots and count of the classification, or the first file in path order that cannot be read stably (see `ListsMean` for what they hold) |
| ChangeDetection.ListsMean | src/ai_layer/memory/identity.py:310-354 | which paths are read (new, without a hash, another size or time, named by Git, or all), and for each list exactly which paths it holds |
| ChangeDetection.RenamesMean | src/ai_layer/memory/identity.py:288-307 | a rename is reported iff its two paths are deleted and added with one content that no other deleted path had and no other added path has |
| ChangeDetection.DetectRenames | src/ai_layer/memory/identity.py:288-307 | exactly the equal-hash pairs unique on both sides, in digest order |
| ChangeDetection.FastRefinesFull | src/ai_layer/memory/identity.py:310-354 | if matching hints imply current hashes the five lists equal those of hashing everything, for every Git candidate set |
| ChangeDetection.FastSucceedsWithFull | src/ai_layer/memory/identity.py:330-345 | and the fast path fails exactly when the full comparison does |
| ChangeDetection.ListsPartitionThePaths | src/ai_layer/memory/identity.py:310-354 | added, modified and unchanged partition the current paths; deleted, modified and unchanged the old ones |
| ChangeDetection.RenamesAreUnique | src/ai_layer/memory/identity.py:288-307 | the rename list is determined by the scan |
| Text.CountIsOne | src/ai_layer/application/epic_spec_editor.py:21-25 | a count of one means one occurrence, any other overlapping it |
| SpecEditor.FindSectionStart | src/ai_layer/application/epic_spec_editor.py:42-50 | the loop finds all lines that are the heading |
| SpecEditor.ReplaceSectionText | src/ai_layer/application/epic_spec_editor.py:33-65 | replaces the body of the one matching section, or the code's error |
| SpecEditor.ApplySpecEdits | src/ai_layer/application/epic_spec_editor.py:68-133 | the loop over a batch computes the specified edit, told without it in `EditedIff` |
| SpecEditorMeaning.EditedIff | src/ai_layer/application/epic_spec_editor.py:68-133 | a call is accepted iff it has 1 to 32 edits that make one document of at most 120 000 characters after another, the last different from the first |
| SpecEditorMeaning.ReplacePutsTextInPlace | src/ai_layer/application/epic_spec_editor.py:87-101 | replacing by something else is accepted iff the anchor is counted once, and puts the text in the place of its first occurrence and nothing else; replacing by itself is refused |
| SpecEditorMeaning.DeleteIsReplaceByNothing | src/ai_layer/application/epic_spec_editor.py:28-30 | a deletion is a replacement by the empty text, refusals included |
| SpecEditorMeaning.ReplaceUndoesReplace | src/ai_layer/application/epic_spec_editor.py:21-30 | an accepted replacement back restores the document iff the occurrence found first is the one put in or overlaps it leaving the same text |
| SpecEditorMeaning.SectionIff | src/ai_layer/application/epic_spec_editor.py:33-65 | a section is located iff its heading is the text of exactly one line, and its body goes from there to the next heading of the same or a smaller level |
| SpecEditorMeaning.SectionReplacedIff | src/ai_layer/application/epic_spec_editor.py:59-65 | its replacement keeps what is around it and ends the body with a newline unless it is empty |
| SpecEditorMeaning.HeadingLevelIff | src/ai_layer/application/epic_spec_editor.py:33-58 | a heading is one to six number signs, whitespace and something else |
| SpecEditorLaws.SectionSplitsDocument | src/ai_layer/application/epic_spec_editor.py:33-65 | the text before, the body and the text after make up the document |
| SpecEditorLaws.ReplacedSectionIsLocated | src/ai_layer/application/epic_spec_editor.py:33-65 | after a replacement the same section is found, with the new body and the old surroundings |
| SpecEditorLaws.ReadAfterWrite | src/ai_layer/application/epic_spec_editor.py:33-65 | reading back gives the new body iff the heading is terminated or the body empty |
| SpecEditorLaws.WriteAfterRead | src/ai_layer/application/epic_spec_editor.py:33-65 | writing back the old body restores the document iff it is empty or ends its last line |
| SpecEditorLaws.LastWriteWins | src/ai_layer/application/epic_spec_editor.py:33-65 | the last of two writes wins and the surroundings never change |
| SpecEditorLaws.GluedHeadingExample | src/ai_layer/application/epic_spec_editor.py:59-65 | the failing case: a document that ends in its heading |
| SpecEditorLaws.InsertionsSplice | src/ai_layer/application/epic_spec_editor.py:90-110 | both insertions put the text next to the anchor and change nothing else |
| SpecEditorLaws.DeleteUndoesInsert | src/ai_layer/application/epic_spec_editor.py:21-30 | deleting inserted text restores the document exactly if the occurrence removed leaves the same text, in particular if it occurs once counting overlaps |
| SpecEditorLaws.OverlapExample | src/ai_layer/application/epic_spec_editor.py:21-30 | an overlap that the count does not see removes the wrong text |
| SpecEditorLaws.BatchComposes | src/ai_layer/application/epic_spec_editor.py:68-133 | a batch is the composition of its parts |
| SpecEditorLaws.OneCallOrTwo | src/ai_layer/application/epic_spec_editor.py:68-133 | one call or two do the same apart from the size and net-change checks |

## Left out

- Database mechanics: tables are sequences and maps, a transaction commits or rolls back as a whole, and a
  failing operation leaves the row as it was. Pools, timeouts, flush order and the circuit breaker are absent.
- EpicRows.EpicRow.StartNext: the composition of the two commits with nothing happening to the row in
  between; what may happen in between is the subject of `EpicStartRace`, and `EpicRuns` takes both as one step.
- EpicRows.EpicRow.StartDriftReconciliation: likewise.
- StableScan.EveryCommitIsExact: refreshes of one project come one after another, as their lock has it; of the
  rows written only the file identities are modelled, not knowledge and navigation, so which rows an attempt
  updates in place is arbitrary.
- EpicStartRace.UndisturbedProjectsAreReachable: the row of a starting Epic must not change at all, although
  some changes (revising and approving again, say) would do no harm; `TaskStaysOpen` likewise forbids a
  completion. Each is shown to be needed as a whole, not change by change.
- EpicProgress.FollowingCompletesTheEpic: about Epics without drift whose Tasks are completed; a drift or a
  review in between is the subject of `EpicAdvice`, a cancelled Task that of `FrozenForever`.
- DirectoryLock.MutualExclusion: writing owner.json is one step, and so are the existence check and the read
  of it, although the code opens before it writes; an owner file not yet written, or half of it, is read as no
  owner, which the model has as well.
- EpicAdvice.NavigatorNamesWhatCanBeDone: the code returns `human_attention_required` both for an open human
  decision and for a Task that ended uncompleted; the model names the first `ResolveDecision`.
- Task Engine internals: an open Task may change its stages and changes in any way, be completed or be
  cancelled; a closed one keeps them; its events only grow. Completion follows the Task sequence, because at
  most one Task is open at a time.
- Task deletion: the foreign keys that set links to null are not modelled; the branches for a missing Task
  are, and are proved unreachable.
- Goal, criteria and constraint texts of the automatic plan items, `spec_version` of plan items, file
  counts, summaries, corrections, timestamps, payloads, message texts and events other than the drift and
  closure evidence.
- Audits (`prepare_spec_audit`, `record_audit`) and the read-only views: they change nothing the engine reads.
- `spec_quality`: an arbitrary predicate.
- Idempotent commands inside commands, and databases without the advisory lock except as the counterexample.
- The waiting, sleeping and deadline arithmetic of `directory_lock`: a call may give up at any time.
- Real files, `/proc`, signals and Git: only the abstract steps (mkdir, unlink, rmdir, probe, stat) remain.
- Hashing, JSON and the heading regular expression: digests are values whose equality is content equality;
  headings are recognised by an explicit scan for `#` characters and whitespace.
- Line separators other than newline in specifications, and Python's recursion limit.
- `_capability_for`, relative import resolution and forbidden capability dependencies of the architecture
  gate; the manifest part of the migration gate; parsing of edit objects beyond their fields.
- Agent tiers, release and skill gates, dashboards, transports, installers: finite tables or plumbing.
