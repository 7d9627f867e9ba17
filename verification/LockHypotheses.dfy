/** Each hypothesis of `DirectoryLock` is needed: without it there is a run with two live processes inside. */
module LockHypotheses {
  import opened Options
  import opened DirectoryLock

  const W := World((a: Agent) => a, (i: Incarnation) => i, (i: Incarnation) => "boot", (i: Incarnation) => "start",
      600.0)

  const ALIVE := Probe(PidAlive, None, None, PidAlive)
  const GONE := Probe(PidDead, None, None, PidDead)
  const OLD := Some(601.0)

  lemma {:induction false} RunExtends(w: World, hyps: set<Hypothesis>, s: State, acts: seq<Action>, t: State,
                                      act: Action)
    requires Runs(w, hyps, s, acts, t) && Allowed(w, t, act, hyps)
    ensures Runs(w, hyps, s, acts + [act], Next(w, t, act))
    decreases |acts|
  {
    hide Next, Allowed;
    if acts != [] {
      assert (acts + [act])[1..] == acts[1..] + [act];
      RunExtends(w, hyps, Next(w, s, acts[0]), acts[1..], t, act);
    } else {
      assert acts + [act] == [act];
      assert Runs(w, hyps, Next(w, s, act), [], Next(w, s, act));
    }
  }

  lemma Go(hyps: set<Hypothesis>, s: State, act: Action) returns (t: State)
    requires Reachable(W, hyps, s) && Allowed(W, s, act, hyps)
    ensures t == Next(W, s, act) && Reachable(W, hyps, t)
  {
    var acts :| Runs(W, hyps, INITIAL, acts, s);
    RunExtends(W, hyps, INITIAL, acts, s, act);
    t := Next(W, s, act);
  }

  lemma Start(hyps: set<Hypothesis>) returns (s: State)
    ensures s == INITIAL && Reachable(W, hyps, s)
  {
    s := INITIAL;
    assert Runs(W, hyps, INITIAL, [], s);
  }

  /** The owner file of a process that found its boot id and start time. */
  function File(a: Agent): Owner { Owner(a, OwnerRecord(Some(a), Some("boot"), Some("start"))) }

  lemma Acquire(hyps: set<Hypothesis>, s: State, a: Agent) returns (t: State)
    requires Reachable(W, hyps, s) && Alive(W, s, a) && s.Pc(a) == Trying && s.dir == Absent
    ensures Reachable(W, hyps, t) && t == s.(dir := Present(a, Some(File(a)))).At(a, Inside)
  {
    hide Reachable;
    t := Go(hyps, s, Mkdir(a));
    t := Go(hyps, t, WriteOwner(a, Some("boot"), Some("start")));
    assert s.pcs[a := Made][a := Inside] == s.pcs[a := Inside];
  }

  lemma Release(hyps: set<Hypothesis>, s: State, a: Agent) returns (t: State)
    requires Reachable(W, hyps, s) && Alive(W, s, a) && s.Pc(a) == Inside && s.dir == Present(a, Some(File(a)))
    ensures Reachable(W, hyps, t) && t == s.(dir := Absent).At(a, Done)
  {
    hide Reachable;
    t := Go(hyps, s, Leave(a));
    t := Go(hyps, t, Unlink(a));
    t := Go(hyps, t, Rmdir(a));
    assert s.pcs[a := Leaving][a := Emptied][a := Done] == s.pcs[a := Done];
  }

  lemma LookAtOwner(hyps: set<Hypothesis>, s: State, a: Agent) returns (t: State)
    requires Reachable(W, hyps, s) && Alive(W, s, a) && s.Pc(a) == Trying && s.dir.Present? && s.guard == None
    ensures Reachable(W, hyps, t) && t == s.(guard := Some(a)).At(a, Looked(Seen(s.dir)))
  {
    hide Reachable;
    t := Go(hyps, s, Mkdir(a));
    t := Go(hyps, t, GrabGuard(a));
    t := Go(hyps, t, Look(a));
    assert s.pcs[a := Contending][a := Guarding][a := Looked(Seen(s.dir))] == s.pcs[a := Looked(Seen(s.dir))];
  }

  /** From the decision to reclaim to the body. */
  lemma ReclaimAndAcquire(hyps: set<Hypothesis>, s: State, a: Agent) returns (t: State)
    requires Reachable(W, hyps, s) && Alive(W, s, a) && s.Pc(a) == Condemned && s.dir.Present?
    ensures Reachable(W, hyps, t) && t == s.(dir := Present(a, Some(File(a))), guard := None).At(a, Inside)
  {
    hide Reachable;
    t := Go(hyps, s, Unlink(a));
    t := Go(hyps, t, Rmdir(a));
    t := Go(hyps, t, Unguard(a));
    t := Acquire(hyps, t, a);
    assert s.pcs[a := CondemnedEmptied][a := Unguarding][a := Trying][a := Inside] == s.pcs[a := Inside];
  }

  /** Look at the lock, probe its owner, and decide. */
  lemma LookAndDecide(hyps: set<Hypothesis>, s: State, a: Agent, probe: Probe, age: Option<real>) returns (t: State)
    requires Reachable(W, hyps, s) && Alive(W, s, a) && s.Pc(a) == Trying && s.dir.Present? && s.guard == None
    requires Reclaims(W, Seen(s.dir), probe, age)
    requires s.dir.owner.Some? && Alive(W, s, s.dir.owner.value.token) ==>
               && (LivePidsAreAlive in hyps ==> probe.first == PidAlive && probe.second == PidAlive)
               && (IdentityIsStable in hyps ==>
                     IsIdentityOf(W, W.home(s.dir.owner.value.token), probe.bootId, probe.processStart))
    requires s.dir.owner.None? && Alive(W, s, s.dir.creator) && OwnerlessDirIsDead in hyps ==>
        !TooOld(age, W.staleAfter)
    ensures Reachable(W, hyps, t) && t == s.(guard := Some(a)).At(a, Condemned)
  {
    hide Reachable, Reclaims, IsIdentityOf;
    t := LookAtOwner(hyps, s, a);
    t := Go(hyps, t, Decide(a, probe, age));
    assert s.pcs[a := Looked(Seen(s.dir))][a := Condemned] == s.pcs[a := Condemned];
  }

  /** The lock of a dead process is condemned under every hypothesis. */
  lemma CondemnDead(hyps: set<Hypothesis>, s: State, a: Agent) returns (t: State)
    requires Reachable(W, hyps, s) && Alive(W, s, a) && s.Pc(a) == Trying && s.dir.Present? && s.guard == None
    requires s.dir.owner.Some? && !Alive(W, s, s.dir.owner.value.token)
    ensures Reachable(W, hyps, t) && t == s.(guard := Some(a)).At(a, Condemned)
  {
    t := LookAndDecide(hyps, s, a, GONE, None);
  }

  lemma DropStaleGuard(hyps: set<Hypothesis>, s: State, a: Agent) returns (t: State)
    requires Reachable(W, hyps, s) && Alive(W, s, a) && s.Pc(a) == Trying && s.dir.Present? && s.guard.Some?
    requires StaleGuardIsDead in hyps ==> !Alive(W, s, s.guard.value)
    ensures Reachable(W, hyps, t) && t == s.(guard := None).At(a, Trying)
  {
    hide Reachable;
    t := Go(hyps, s, Mkdir(a));
    t := Go(hyps, t, SeeStaleGuard(a, OLD));
    t := Go(hyps, t, RemoveStaleGuard(a));
    assert s.pcs[a := Contending][a := SawStale(s.guard.value)][a := Trying] == s.pcs[a := Trying];
  }

  /** A call that cannot write its owner removes the directory at the path, whoever made it. */
  lemma FailToWriteOwner(hyps: set<Hypothesis>, s: State, a: Agent) returns (t: State)
    requires Reachable(W, hyps, s) && Alive(W, s, a) && s.Pc(a) == Made && s.dir.Present? && s.dir.owner.Some?
    ensures Reachable(W, hyps, t) && t == s.(dir := Absent).At(a, Done)
  {
    hide Reachable;
    t := Go(hyps, s, WriteOwner(a, None, None));
    t := Go(hyps, t, Unlink(a));
    t := Go(hyps, t, Rmdir(a));
    assert s.pcs[a := Leaving][a := Emptied][a := Done] == s.pcs[a := Done];
  }

  ghost predicate ExclusionFails(hyps: set<Hypothesis>) {
    exists s, a, b :: Reachable(W, hyps, s) && a != b && IsInside(W, s, a) && IsInside(W, s, b)
  }

  /** A live owner is stolen from by a probe that the code takes for a dead or another process. */
  lemma StolenFromTheLiving(hyps: set<Hypothesis>, probe: Probe)
    requires Reclaims(W, OwnedBy(File(0)), probe, None)
    requires LivePidsAreAlive in hyps ==> probe.first == PidAlive && probe.second == PidAlive
    requires IdentityIsStable in hyps ==> IsIdentityOf(W, 0, probe.bootId, probe.processStart)
    ensures ExclusionFails(hyps)
  {
    hide Reachable, Reclaims, IsIdentityOf;
    var s := Start(hyps);
    s := Acquire(hyps, s, 0);
    s := LookAndDecide(hyps, s, 1, probe, None);
    s := ReclaimAndAcquire(hyps, s, 1);
    assert IsInside(W, s, 0) && IsInside(W, s, 1);
  }

  /** The status of the pid cannot be found out. */
  lemma UnknownPid()
    ensures ExclusionFails(ALL - {LivePidsAreAlive})
  {
    StolenFromTheLiving(ALL - {LivePidsAreAlive}, Probe(PidUnknown, None, None, PidUnknown));
  }

  /** The boot id reported is not the one recorded. */
  lemma ChangedIdentity()
    ensures ExclusionFails(ALL - {IdentityIsStable})
  {
    StolenFromTheLiving(ALL - {IdentityIsStable}, Probe(PidAlive, Some("other"), None, PidAlive));
  }

  /** The owner releases and exits between being read and being probed, and another call takes the lock. */
  lemma OwnerChangesBeforeProbe()
    ensures ExclusionFails(ALL - {OwnerProbeIsOneStep})
  {
    hide Reachable;
    var hyps := ALL - {OwnerProbeIsOneStep};
    var s := Start(hyps);
    s := Acquire(hyps, s, 0);
    s := LookAtOwner(hyps, s, 1);
    s := Release(hyps, s, 0);
    s := SuccessorTakesOver(hyps, s);
    s := ReclaimAndAcquire(hyps, s, 1);
    assert IsInside(W, s, 1) && IsInside(W, s, 2);
  }

  lemma SuccessorTakesOver(hyps: set<Hypothesis>, s: State) returns (t: State)
    requires Reachable(W, hyps, s) && OwnerProbeIsOneStep !in hyps && s.dir == Absent && s.dead == {}
    requires s.Pc(1) == Looked(OwnedBy(File(0))) && s.Pc(2) == Trying
    ensures Reachable(W, hyps, t) && t.dir == Present(2, Some(File(2))) && t.Pc(1) == Condemned && t.Pc(2) == Inside
    ensures t.dead == {0}
  {
    hide Reachable;
    t := Go(hyps, s, Crash(0));
    t := Acquire(hyps, t, 2);
    t := Go(hyps, t, Decide(1, GONE, None));
  }

  /** A call is so slow to write its owner that its directory is reclaimed; failing, it removes its successor's. */
  lemma SlowOwnerIsReclaimed()
    ensures ExclusionFails(ALL - {OwnerlessDirIsDead})
  {
    hide Reachable;
    var hyps := ALL - {OwnerlessDirIsDead};
    var s := Start(hyps);
    s := Go(hyps, s, Mkdir(0));
    s := LookAndDecide(hyps, s, 1, ALIVE, OLD);
    s := ReclaimAndAcquire(hyps, s, 1);
    s := FailToWriteOwner(hyps, s, 0);
    s := Acquire(hyps, s, 2);
    assert IsInside(W, s, 1) && IsInside(W, s, 2);
  }

  /** Two reclaimers at once, because the guard of the first, live one was taken for stale. */
  lemma LiveGuardIsRemoved()
    ensures ExclusionFails(ALL - {StaleGuardIsDead})
  {
    hide Reachable;
    var hyps := ALL - {StaleGuardIsDead};
    var s := DeadOwner(hyps);
    assert s.Pc(1) == Trying && s.Pc(2) == Trying;
    s := CondemnDead(hyps, s, 1);
    s := DropStaleGuard(hyps, s, 2);
    s := CondemnDead(hyps, s, 2);
    s := ReclaimAndAcquire(hyps, s, 2);
    s := ReclaimAndAcquire(hyps, s, 1);
    assert IsInside(W, s, 1) && IsInside(W, s, 2);
  }

  lemma DeadOwner(hyps: set<Hypothesis>) returns (s: State)
    ensures Reachable(W, hyps, s) && s.dir == Present(0, Some(File(0))) && s.guard == None && s.dead == {0}
    ensures forall a: Agent | a != 0 :: s.Pc(a) == Trying
  {
    hide Reachable;
    s := Start(hyps);
    s := Acquire(hyps, s, 0);
    s := Go(hyps, s, Crash(0));
  }

  /** Two calls see the same dead guard; the second removal hits the guard that was made after the first. */
  lemma GuardChangesBeforeRemoval()
    ensures ExclusionFails(ALL - {GuardRemovalIsOneStep})
  {
    hide Reachable;
    var hyps := ALL - {GuardRemovalIsOneStep};
    var s := SeenStaleByTwo(hyps);
    s := CondemnDead(hyps, s, 3);
    s := Go(hyps, s, RemoveStaleGuard(2));
    s := CondemnDead(hyps, s, 2);
    s := ReclaimAndAcquire(hyps, s, 2);
    s := ReclaimAndAcquire(hyps, s, 3);
    assert IsInside(W, s, 2) && IsInside(W, s, 3);
  }

  lemma DeadOwnerAndDeadGuard(hyps: set<Hypothesis>) returns (s: State)
    ensures Reachable(W, hyps, s) && s.dir == Present(0, Some(File(0))) && s.guard == Some(1) && s.dead == {0, 1}
    ensures s.Pc(2) == Trying && s.Pc(3) == Trying
  {
    hide Reachable;
    s := DeadOwner(hyps);
    assert s.Pc(1) == Trying && s.Pc(2) == Trying && s.Pc(3) == Trying;
    s := Go(hyps, s, Mkdir(1));
    s := Go(hyps, s, GrabGuard(1));
    s := Go(hyps, s, Crash(1));
  }

  lemma SeenStaleByTwo(hyps: set<Hypothesis>) returns (s: State)
    ensures Reachable(W, hyps, s) && s.dir == Present(0, Some(File(0))) && s.guard == None && s.dead == {0, 1}
    ensures s.Pc(2) == SawStale(1) && s.Pc(3) == Trying
  {
    hide Reachable;
    s := DeadOwnerAndDeadGuard(hyps);
    s := Go(hyps, s, Mkdir(2));
    s := Go(hyps, s, SeeStaleGuard(2, OLD));
    s := DropStaleGuard(hyps, s, 3);
  }

  /** Exclusion holds in every run under the six hypotheses, and under no five of them. */
  lemma HypothesesAreExact(h: Hypothesis)
    ensures !ExclusionFails(ALL)
    ensures ExclusionFails(ALL - {h})
  {
    forall s, a, b | Reachable(W, ALL, s) && IsInside(W, s, a) && IsInside(W, s, b) ensures a == b {
      MutualExclusion(W, s, a, b);
    }
    match h {
      case LivePidsAreAlive => UnknownPid();
      case IdentityIsStable => ChangedIdentity();
      case OwnerProbeIsOneStep => OwnerChangesBeforeProbe();
      case OwnerlessDirIsDead => SlowOwnerIsReclaimed();
      case StaleGuardIsDead => LiveGuardIsRemoved();
      case GuardRemovalIsOneStep => GuardChangesBeforeRemoval();
    }
  }
}
