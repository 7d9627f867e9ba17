/** What `next_action` answers when it is asked twice, with a key and without. */
module EpicAnswers {
  import opened Epics
  import opened Options
  import opened TaskBoundary
  import opened EpicLifecycle
  import opened EpicExecution
  import opened EpicNavigation
  import opened EpicInvariants
  import opened EpicRuns
  import opened EpicTheorems
  import opened EpicGuidedRuns
  import opened EpicAdvice

  // Which Epic a keyless call finds

  predicate SameClass(a: Epic, b: Epic) {
    Executing(a.status) == Executing(b.status) && OpenStatus(a.status) == OpenStatus(b.status)
  }

  /** The executing and the open Epics are determined by the statuses. */
  lemma {:induction false} ClassesDetermineLists(a: seq<Epic>, b: seq<Epic>)
    requires |a| == |b| && forall i | 0 <= i < |a| :: SameClass(a[i], b[i])
    ensures ExecutingEpics(a) == ExecutingEpics(b) && OpenEpics(a) == OpenEpics(b)
    decreases |a|
  {
    if a != [] {
      ClassesDetermineLists(a[..|a| - 1], b[..|b| - 1]);
    }
  }

  lemma SameClassResolves(epics: seq<Epic>, k: nat, e: Epic, key: Option<nat>)
    requires k < |epics| && SameClass(epics[k], e)
    ensures ResolveEpicForNext(epics[k := e], key) == ResolveEpicForNext(epics, key)
  {
    ClassesDetermineLists(epics, epics[k := e]);
  }

  predicate Completing(before: Epic, after: Epic) { after.status.Completed? && !before.status.Completed? }

  /** The navigator leaves an Epic executing or open as it is, unless it completes it. */
  lemma NavigateKeepsClass(e: Epic, tasks: seq<Task>, repo: Digest)
    requires e.driftTask.Some? ==> Executing(e.status)
    ensures var e' := Navigate(e, tasks, repo).epic;
            if Completing(e, e') then InRun(e) else SameClass(e, e')
  {
    hide Accepted, DocsUpdated, KnowledgePublished, MapReconciled, First, StandaloneOpen, DriftAction,
        PendingNavigation, Phase0Navigation, ApprovedNavigation, MaxOrdinal;
  }

  /** A keyless call finds the only executing Epic, or else a draft or approved one. */
  lemma KeylessFindsOpen(epics: seq<Epic>)
    ensures var r := ResolveEpicForNext(epics, None);
            && (r.Ok? && r.value.Some? ==> OpenStatus(epics[r.value.value].status))
            && ((forall i | 0 <= i < |epics| :: !Executing(epics[i].status)) ==>
                  && (r.Ok? && r.value.Some? ==> Revisable(epics[r.value.value]))
                  && (r.Err? ==> r.error.SeveralOpen?))
  {
    var executing := ExecutingEpics(epics);
    if |executing| > 0 { assert IsExecuting(epics, executing[0]); }
  }

  /** When the only executing Epic is completed, none is executing. */
  lemma NoneExecutesThen(epics: seq<Epic>, k: nat, epics': seq<Epic>)
    requires AtMostOneExecuting(epics) && k < |epics| == |epics'| && Executing(epics[k].status)
    requires epics' == epics[k := epics'[k]] && epics'[k].status.Completed?
    ensures forall i | 0 <= i < |epics'| :: !Executing(epics'[i].status)
  {
  }

  lemma RevisableIsLeft(e: Epic, tasks: seq<Task>, repo: Digest)
    requires Revisable(e)
    ensures Navigate(e, tasks, repo).epic == e
  {
  }

  // Asking twice

  /** The call completes the Epic it finds. */
  predicate Completes(p: Project, key: Option<nat>) {
    var a := AnswerOf(p, key);
    a.Named? && a.epic < |p.epics| && Completing(p.epics[a.epic], a.row)
  }

  predicate Repeats(q: Quality, p: Project, key: Option<nat>) {
    var p' := Next(q, p, NextAction(key));
    Next(q, p', NextAction(key)) == p' && AnswerOf(p', key) == AnswerOf(p, key)
  }

  /** What a keyless call finds after one that completed Epic k. */
  predicate FindsOther(q: Quality, p: Project, k: nat) {
    var p' := Next(q, p, NextAction(None));
    var a := AnswerOf(p', None);
    && Next(q, p', NextAction(None)) == p'
    && (a.Idle? || a == Refused(SeveralOpen)
        || (a.Named? && a.epic != k && a.epic < |p.epics| && Revisable(p.epics[a.epic]) && a.row == p.epics[a.epic]))
  }

  lemma CompletionIsFinal(q: Quality, p: Project, k: nat)
    requires ProjectOk(p) && ResolveEpicForNext(p.epics, None) == Ok(Some(k)) && Completes(p, None)
    ensures FindsOther(q, p, k)
  {
    hide EpicOk, TasksOk, Navigate, ResolveEpicForNext;
    var e := p.epics[k];
    var p' := Next(q, p, NextAction(None));
    DriftTaskMeansExecuting(p.tasks, e);
    NavigateKeepsClass(e, p.tasks, p.repo);
    NoneExecutesThen(p.epics, k, p'.epics);
    KeylessFindsOpen(p'.epics);
    var r := ResolveEpicForNext(p'.epics, None);
    if r.Ok? && r.value.Some? {
      RevisableIsLeft(p'.epics[r.value.value], p'.tasks, p'.repo);
      assert p'.epics[r.value.value := p'.epics[r.value.value]] == p'.epics;
    }
  }

  lemma SameEpicRepeats(q: Quality, p: Project, key: Option<nat>, k: nat)
    requires ResolveEpicForNext(p.epics, key) == Ok(Some(k)) && k < |p.epics| && AtMostOneActive(p.epics[k].plan)
    requires var e' := Navigate(p.epics[k], p.tasks, p.repo).epic;
             key.Some? || SameClass(p.epics[k], e')
    ensures Repeats(q, p, key)
  {
    hide Navigate;
    var e' := Navigate(p.epics[k], p.tasks, p.repo).epic;
    if key == None { SameClassResolves(p.epics, k, e', key); }
    NavigateIsIdempotent(p.epics[k], p.tasks, p.repo);
    assert p.epics[k := e'][k := e'] == p.epics[k := e'];
  }

  /** In guided runs a second `next_action` never changes the project. With a key it answers the same. Without
      one it answers the same if and only if the first call did not complete the Epic it found; if it did, the
      second finds nothing, several open Epics, or another one, which is a draft or approved. */
  lemma SecondCallAnswers(q: Quality, p: Project, key: Option<nat>)
    requires GuidedReachable(q, p)
    ensures var p' := Next(q, p, NextAction(key)); Next(q, p', NextAction(key)) == p'
    ensures var p' := Next(q, p, NextAction(key));
            AnswerOf(p', key) == AnswerOf(p, key) <==> !(key == None && Completes(p, key))
    ensures key == None && Completes(p, key) ==> FindsOther(q, p, AnswerOf(p, key).epic)
  {
    hide GuidedReachable, ReadyOk, EpicOk, TasksOk, Navigate, ResolveEpicForNext;
    EveryGuidedProjectIsReady(q, p);
    var r := ResolveEpicForNext(p.epics, key);
    if r.Ok? && r.value.Some? {
      var k := r.value.value;
      ReadyHasOneActive(p.epics[k]);
      if key == None && Completes(p, key) {
        CompletionIsFinal(q, p, k);
      } else {
        DriftTaskMeansExecuting(p.tasks, p.epics[k]);
        NavigateKeepsClass(p.epics[k], p.tasks, p.repo);
        SameEpicRepeats(q, p, key, k);
      }
    }
  }
}
