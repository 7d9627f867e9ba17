/** What one call of `directory_lock` does to the lock and the reclaim guard when nobody interferes: it takes a
    free lock, gives its own back, and leaves a lock that it may not reclaim as it was, guard included. */
module LockProgress {
  import opened Options
  import opened DirectoryLock

  /** The statements lead from one state to the other, each possible in turn. */
  ghost predicate Leads(w: World, s: State, acts: seq<Action>, t: State) { Runs(w, {}, s, acts, t) }

  lemma LeadsOn(w: World, s: State, act: Action, acts: seq<Action>, t: State)
    requires Enabled(w, s, act) && Leads(w, Next(w, s, act), acts, t)
    ensures Leads(w, s, [act] + acts, t)
  {
    hide Enabled, Next;
    assert ([act] + acts)[1..] == acts;
  }

  lemma LeadsNowhere(w: World, s: State)
    ensures Leads(w, s, [], s)
  {
  }

  /** A directory without a readable owner may be reclaimed exactly when its age is known and beyond the limit;
      where there is none, there is nothing to reclaim. */
  lemma OwnerlessIsReclaimedIff(w: World, probe: Probe, age: Option<real>)
    ensures Reclaims(w, Ownerless, probe, age) <==> age.Some? && age.value > w.staleAfter
    ensures !Reclaims(w, NoDir, probe, age)
  {
  }

  /** Creating the directory and its owner file takes a free lock; the record is that of the process. */
  lemma FreeLockIsTaken(w: World, s: State, a: Agent, boot: Option<string>, start: Option<string>)
    requires Alive(w, s, a) && s.Pc(a) == Trying && s.dir == Absent
    ensures var record := OwnerRecord(Some(w.pid(w.home(a))), boot, start);
            Leads(w, s, [Mkdir(a), WriteOwner(a, boot, start)],
                  s.(dir := Present(a, Some(Owner(a, record)))).At(a, Inside))
  {
    var t := Next(w, s, Mkdir(a));
    var u := Next(w, t, WriteOwner(a, boot, start));
    assert s.pcs[a := Made][a := Inside] == s.pcs[a := Inside];
    LeadsNowhere(w, u);
    assert [WriteOwner(a, boot, start)] + [] == [WriteOwner(a, boot, start)];
    assert [Mkdir(a)] + [WriteOwner(a, boot, start)] == [Mkdir(a), WriteOwner(a, boot, start)];
    LeadsOn(w, t, WriteOwner(a, boot, start), [], u);
    LeadsOn(w, s, Mkdir(a), [WriteOwner(a, boot, start)], u);
  }

  /** A lock that is there is not taken, and is not touched by the attempt. */
  lemma HeldLockIsNotTaken(w: World, s: State, a: Agent)
    requires Alive(w, s, a) && s.Pc(a) == Trying && s.dir.Present?
    ensures Enabled(w, s, Mkdir(a)) && Next(w, s, Mkdir(a)) == s.At(a, Contending)
  {
  }

  lemma ThreeSteps(w: World, s: State, x: Action, y: Action, z: Action)
    requires Enabled(w, s, x) && Enabled(w, Next(w, s, x), y) && Enabled(w, Next(w, Next(w, s, x), y), z)
    ensures Leads(w, s, [x, y, z], Next(w, Next(w, Next(w, s, x), y), z))
  {
    hide Enabled, Next;
    var t, u := Next(w, s, x), Next(w, Next(w, s, x), y);
    var v := Next(w, u, z);
    assert [z] + [] == [z] && [y] + [z] == [y, z] && [x] + [y, z] == [x, y, z];
    LeadsNowhere(w, v);
    LeadsOn(w, u, z, [], v);
    LeadsOn(w, t, y, [z], v);
    LeadsOn(w, s, x, [y, z], v);
  }

  lemma ThenThree(w: World, s: State, x: Action, y: Action, z: Action, acts: seq<Action>, t: State)
    requires Enabled(w, s, x) && Enabled(w, Next(w, s, x), y) && Enabled(w, Next(w, Next(w, s, x), y), z)
    requires Leads(w, Next(w, Next(w, Next(w, s, x), y), z), acts, t)
    ensures Leads(w, s, [x, y, z] + acts, t)
  {
    hide Enabled, Next;
    LeadsOn(w, Next(w, Next(w, s, x), y), z, acts, t);
    LeadsOn(w, Next(w, s, x), y, [z] + acts, t);
    LeadsOn(w, s, x, [y] + ([z] + acts), t);
    assert [x] + ([y] + ([z] + acts)) == [x, y, z] + acts;
  }

  /** Leaving gives the own lock back. */
  lemma OwnLockIsGivenBack(w: World, s: State, a: Agent)
    requires Alive(w, s, a) && s.Pc(a) == Inside
    requires s.dir.Present? && s.dir.owner.Some? && s.dir.owner.value.token == a
    ensures Leads(w, s, [Leave(a), Unlink(a), Rmdir(a)], s.(dir := Absent).At(a, Done))
  {
    ThreeSteps(w, s, Leave(a), Unlink(a), Rmdir(a));
    assert s.pcs[a := Leaving][a := Emptied][a := Done] == s.pcs[a := Done];
  }

  /** A lock that is another's by now is left alone. */
  lemma OtherLockIsLeftAlone(w: World, s: State, a: Agent)
    requires Alive(w, s, a) && s.Pc(a) == Inside
    requires s.dir.Present? && (s.dir.owner.None? || s.dir.owner.value.token != a)
    ensures Enabled(w, s, Leave(a)) && Next(w, s, Leave(a)) == s.At(a, Done)
  {
  }

  /** A directory whose owner file could not be written is removed again. */
  lemma FailedLockIsRemoved(w: World, s: State, a: Agent)
    requires Alive(w, s, a) && s.Pc(a) == Made && s.dir == Present(a, None)
    ensures Leads(w, s, [WriteFails(a), Unlink(a), Rmdir(a)], s.(dir := Absent).At(a, Done))
  {
    ThreeSteps(w, s, WriteFails(a), Unlink(a), Rmdir(a));
    assert s.pcs[a := Leaving][a := Emptied][a := Done] == s.pcs[a := Done];
  }

  /** What a contending call does with the guard free: it reclaims the lock if its decision on what it read
      allows it, and leaves the lock as it is if not. It gives the guard back and tries again in either case. */
  lemma ReclaimOrNothing(w: World, s: State, a: Agent, probe: Probe, age: Option<real>)
    requires Alive(w, s, a) && s.Pc(a) == Contending && s.guard == None
    ensures var decide := Decide(a, probe, age);
            if Reclaims(w, Seen(s.dir), probe, age)
            then Leads(w, s, [GrabGuard(a), Look(a), decide, Unlink(a), Rmdir(a), Unguard(a)],
                       s.(dir := Absent).At(a, Trying))
            else Leads(w, s, [GrabGuard(a), Look(a), decide, Unguard(a)], s.At(a, Trying))
  {
    var decide := Decide(a, probe, age);
    var t := Next(w, Next(w, Next(w, s, GrabGuard(a)), Look(a)), decide);
    DecidedState(w, s, a, probe, age);
    if Reclaims(w, Seen(s.dir), probe, age) {
      var u := s.(dir := Absent).At(a, Trying);
      RemovedState(w, s, a);
      ThreeSteps(w, t, Unlink(a), Rmdir(a), Unguard(a));
      ThenThree(w, s, GrabGuard(a), Look(a), decide, [Unlink(a), Rmdir(a), Unguard(a)], u);
      assert [GrabGuard(a), Look(a), decide] + [Unlink(a), Rmdir(a), Unguard(a)]
          == [GrabGuard(a), Look(a), decide, Unlink(a), Rmdir(a), Unguard(a)];
    } else {
      assert s.pcs[a := Unguarding][a := Trying] == s.pcs[a := Trying];
      var u := Next(w, t, Unguard(a));
      LeadsNowhere(w, u);
      LeadsOn(w, t, Unguard(a), [], u);
      assert [Unguard(a)] + [] == [Unguard(a)];
      ThenThree(w, s, GrabGuard(a), Look(a), decide, [Unguard(a)], u);
      assert [GrabGuard(a), Look(a), decide] + [Unguard(a)] == [GrabGuard(a), Look(a), decide, Unguard(a)];
    }
  }

  lemma DecidedState(w: World, s: State, a: Agent, probe: Probe, age: Option<real>)
    requires Alive(w, s, a) && s.Pc(a) == Contending && s.guard == None
    ensures var t, u := Next(w, s, GrabGuard(a)), Next(w, Next(w, s, GrabGuard(a)), Look(a));
            && Enabled(w, s, GrabGuard(a)) && Enabled(w, t, Look(a)) && Enabled(w, u, Decide(a, probe, age))
            && Next(w, u, Decide(a, probe, age))
               == s.(guard := Some(a)).At(a, if Reclaims(w, Seen(s.dir), probe, age) then Condemned else Unguarding)
  {
    hide Reclaims;
    var pc := if Reclaims(w, Seen(s.dir), probe, age) then Condemned else Unguarding;
    assert s.pcs[a := Guarding][a := Looked(Seen(s.dir))][a := pc] == s.pcs[a := pc];
  }

  lemma RemovedState(w: World, s: State, a: Agent)
    requires Alive(w, s, a) && s.guard == None
    ensures var t := s.(guard := Some(a)).At(a, Condemned);
            var u, v := Next(w, t, Unlink(a)), Next(w, Next(w, t, Unlink(a)), Rmdir(a));
            && Enabled(w, t, Unlink(a)) && Enabled(w, u, Rmdir(a)) && Enabled(w, v, Unguard(a))
            && Next(w, v, Unguard(a)) == s.(dir := Absent).At(a, Trying)
  {
    assert s.pcs[a := Condemned][a := CondemnedEmptied][a := Unguarding][a := Trying] == s.pcs[a := Trying];
  }

  /** A guard that is too old is removed, and a younger one waited for. */
  lemma StaleGuardIsRemoved(w: World, s: State, a: Agent, age: Option<real>)
    requires Alive(w, s, a) && s.Pc(a) == Contending && s.guard.Some?
    ensures Enabled(w, s, SeeStaleGuard(a, age)) <==> age.Some? && age.value > w.staleAfter
    ensures Enabled(w, s, SeeStaleGuard(a, age)) ==>
              var t := Next(w, s, SeeStaleGuard(a, age));
              Enabled(w, t, RemoveStaleGuard(a)) && Next(w, t, RemoveStaleGuard(a)) == s.(guard := None).At(a, Trying)
    ensures Enabled(w, s, Retry(a)) && Next(w, s, Retry(a)) == s.At(a, Trying) && !Enabled(w, s, GrabGuard(a))
  {
    if s.guard.Some? {
      assert s.pcs[a := SawStale(s.guard.value)][a := Trying] == s.pcs[a := Trying];
    }
  }

  /** Only a call that waits may give up, and it leaves everything as it is. */
  lemma WaitingCallGivesUp(w: World, s: State, a: Agent)
    requires Alive(w, s, a)
    ensures Enabled(w, s, TimeOut(a)) <==> s.Pc(a).Trying? || s.Pc(a).Contending?
    ensures Next(w, s, TimeOut(a)) == s.At(a, Done)
    ensures Enabled(w, s, Retry(a)) <==> s.Pc(a).Contending? && s.guard.Some?
  {
  }
}
