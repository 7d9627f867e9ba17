/** `directory_lock` (src/ai_layer/core/filelock.py:66-181): a lock taken by creating a directory, with
    reclaim of locks whose owner died. Processes interleave file system operation by file system
    operation and may crash at any point. */
module DirectoryLock {
  import opened Options

  /** One call of `directory_lock`, named by its token. */
  type Agent = nat
  /** One process incarnation. */
  type Incarnation = nat

  /** The process of each call, and the pid, boot id and start time of each process. */
  datatype World = World(
    home: Agent -> Incarnation,
    pid: Incarnation -> int,
    bootId: Incarnation -> string,
    processStart: Incarnation -> string,
    staleAfter: real)

  // The owner probe

  datatype PidStatus = PidDead | PidAlive | PidUnknown

  /** The process fields of `owner.json`; `None` for an absent or empty field. */
  datatype OwnerRecord = OwnerRecord(pid: Option<int>, bootId: Option<string>, processStart: Option<string>)

  /** What a reclaimer finds out about the recorded pid: its status, the machine's boot id, the start time of
      the process that has the pid now, and the status again. */
  datatype Probe = Probe(first: PidStatus, bootId: Option<string>, processStart: Option<string>, second: PidStatus)

  predicate Contradicts(stored: Option<string>, current: Option<string>) {
    stored.Some? && current.Some? && stored != current
  }

  /** `_owner_process_matches` */
  predicate OwnerProcessMatches(o: OwnerRecord, p: Probe) {
    && o.pid.Some? && !Contradicts(o.bootId, p.bootId) && !Contradicts(o.processStart, p.processStart)
    && p.second == PidAlive
  }

  /** `_can_reclaim` for the owner read, if any, and the age of the lock directory. */
  predicate CanReclaim(owner: Option<OwnerRecord>, p: Probe, age: Option<real>, staleAfter: real) {
    match owner
    case Some(o) =>
      if p.first == PidDead then true
      else if o.bootId.Some? || o.processStart.Some? then !OwnerProcessMatches(o, p)
      else false
    case None => TooOld(age, staleAfter)
  }

  predicate TooOld(age: Option<real>, staleAfter: real) { age.Some? && age.value > staleAfter }

  /** When a readable owner is safe: its process is known to run and nothing recorded about its
      incarnation contradicts what runs now. A record without incarnation data is safe unless its
      process is known to be gone. In particular a pid whose status cannot be found out protects a
      record without incarnation data and does not protect one with it. */
  lemma OwnerIsSafeIff(o: OwnerRecord, p: Probe, age: Option<real>, staleAfter: real)
    ensures !CanReclaim(Some(o), p, age, staleAfter)
       <==> p.first != PidDead
            && (o.bootId.Some? || o.processStart.Some? ==>
                  && o.pid.Some? && p.second == PidAlive
                  && !Contradicts(o.bootId, p.bootId) && !Contradicts(o.processStart, p.processStart))
  {
  }

  // The machine

  /** `owner.json`: the token and the record of the process. */
  datatype Owner = Owner(token: Agent, record: OwnerRecord)

  /** `creator` is who made the directory; `owner` what a readable `owner.json` holds. */
  datatype Dir = Absent | Present(creator: Agent, owner: Option<Owner>)

  /** What a reclaimer reads. */
  datatype View = NoDir | Ownerless | OwnedBy(owner: Owner)

  datatype Pc =
    | Trying                   // about to create the lock directory
    | Made                     // created it, owner.json not yet written
    | Inside                   // in the body of the `with` statement
    | Leaving                  // about to remove its own lock directory
    | Emptied                  // owner.json removed, directory still there
    | Contending               // the lock directory existed
    | SawStale(maker: Agent)   // found the reclaim guard too old
    | Guarding                 // holds the reclaim guard
    | Looked(view: View)       // has read the owner
    | Condemned                // decided to remove the lock directory
    | CondemnedEmptied         // removed its owner.json
    | Unguarding               // about to remove the reclaim guard
    | Done

  datatype State = State(dir: Dir, guard: Option<Agent>, pcs: map<Agent, Pc>, dead: set<Incarnation>) {
    function Pc(a: Agent): Pc {
      if a in pcs then pcs[a] else Trying
    }

    function At(a: Agent, pc: Pc): State {
      this.(pcs := pcs[a := pc])
    }
  }

  const INITIAL := State(Absent, None, map[], {})

  /** `WriteOwner` carries the boot id and start time the process found of itself, `Decide` the probe and the
      age of the lock directory, `SeeStaleGuard` the age of the guard. */
  datatype Action =
    | Mkdir(a: Agent) | WriteOwner(a: Agent, boot: Option<string>, start: Option<string>) | WriteFails(a: Agent)
    | Leave(a: Agent) | Unlink(a: Agent) | Rmdir(a: Agent)
    | GrabGuard(a: Agent) | SeeStaleGuard(a: Agent, age: Option<real>) | RemoveStaleGuard(a: Agent)
    | Retry(a: Agent) | TimeOut(a: Agent)
    | Look(a: Agent) | Decide(a: Agent, probe: Probe, age: Option<real>) | Unguard(a: Agent)
    | Crash(i: Incarnation)

  predicate Alive(w: World, s: State, a: Agent) { w.home(a) !in s.dead }

  /** May the action happen now? Only live calls act, each at its own program point. */
  predicate Enabled(w: World, s: State, act: Action) {
    act.Crash? || (
      && Alive(w, s, act.a)
      && match act {
           case Mkdir(a) => s.Pc(a) == Trying
           case WriteOwner(a, _, _) => s.Pc(a) == Made
           case WriteFails(a) => s.Pc(a) == Made
           case Leave(a) => s.Pc(a) == Inside
           case Unlink(a) => s.Pc(a) == Leaving || s.Pc(a) == Condemned
           case Rmdir(a) => s.Pc(a) == Emptied || s.Pc(a) == CondemnedEmptied
           case GrabGuard(a) => s.Pc(a) == Contending && s.guard == None
           case SeeStaleGuard(a, age) => s.Pc(a) == Contending && s.guard.Some? && TooOld(age, w.staleAfter)
           case RemoveStaleGuard(a) => s.Pc(a).SawStale?
           case Retry(a) => s.Pc(a) == Contending && s.guard.Some?
           case TimeOut(a) => s.Pc(a) == Contending || s.Pc(a) == Trying
           case Look(a) => s.Pc(a) == Guarding
           case Decide(a, _, _) => s.Pc(a).Looked?
           case Unguard(a) => s.Pc(a) == Unguarding
           case Crash(i) => true
         }
    )
  }

  function Unlinked(d: Dir): Dir { if d.Present? then d.(owner := None) else d }

  function Removed(d: Dir): Dir { if d.Present? && d.owner == None then Absent else d }

  function Seen(d: Dir): View {
    if d.Absent? then NoDir else if d.owner.Some? then OwnedBy(d.owner.value) else Ownerless
  }

  /** What `_write_owner` records of its own process. */
  function Recorded(w: World, a: Agent, boot: Option<string>, start: Option<string>): Owner {
    Owner(a, OwnerRecord(Some(w.pid(w.home(a))), boot, start))
  }

  /** The decision of `_try_reclaim` on what was read. */
  predicate Reclaims(w: World, view: View, probe: Probe, age: Option<real>) {
    match view
    case NoDir => false
    case Ownerless => CanReclaim(None, probe, age, w.staleAfter)
    case OwnedBy(o) => CanReclaim(Some(o.record), probe, age, w.staleAfter)
  }

  /** The effect of one operation. Removals act on the path: they hit whatever directory is there. */
  function Next(w: World, s: State, act: Action): State {
    match act
    case Mkdir(a) => if s.dir.Absent? then s.(dir := Present(a, None)).At(a, Made) else s.At(a, Contending)
    case WriteOwner(a, boot, start) =>
      if s.dir.Present? && s.dir.owner == None
      then s.(dir := s.dir.(owner := Some(Recorded(w, a, boot, start)))).At(a, Inside)
      else s.At(a, Leaving)
    case WriteFails(a) => s.At(a, Leaving)
    case Leave(a) =>
      s.At(a, if s.dir.Present? && s.dir.owner.Some? && s.dir.owner.value.token == a then Leaving else Done)
    case Unlink(a) => s.(dir := Unlinked(s.dir)).At(a, if s.Pc(a) == Leaving then Emptied else CondemnedEmptied)
    case Rmdir(a) => s.(dir := Removed(s.dir)).At(a, if s.Pc(a) == Emptied then Done else Unguarding)
    case GrabGuard(a) => s.(guard := Some(a)).At(a, Guarding)
    case SeeStaleGuard(a, _) => s.At(a, if s.guard.Some? then SawStale(s.guard.value) else Trying)
    case RemoveStaleGuard(a) => s.(guard := None).At(a, Trying)
    case Retry(a) => s.At(a, Trying)
    case TimeOut(a) => s.At(a, Done)
    case Look(a) => s.At(a, Looked(Seen(s.dir)))
    case Decide(a, probe, age) =>
      s.At(a, if s.Pc(a).Looked? && Reclaims(w, s.Pc(a).view, probe, age) then Condemned else Unguarding)
    case Unguard(a) => s.(guard := None).At(a, Trying)
    case Crash(i) => s.(dead := s.dead + {i})
  }

  // The hypotheses, each a predicate of a step

  datatype Hypothesis =
    | LivePidsAreAlive      // both status checks of a live process's pid say alive
    | IdentityIsStable      // the boot id and start time of a live process, when found, are its own
    | OwnerProbeIsOneStep   // the owner does not change between being read and being probed
    | OwnerlessDirIsDead    // no ownerless directory of a live process passes the stale limit
    | StaleGuardIsDead      // no reclaim guard of a live process passes the stale limit
    | GuardRemovalIsOneStep // the guard does not change between the age check and its removal

  const ALL: set<Hypothesis> := {
    LivePidsAreAlive, IdentityIsStable, OwnerProbeIsOneStep, OwnerlessDirIsDead, StaleGuardIsDead, GuardRemovalIsOneStep
  }

  /** Each value found is the one of the incarnation. */
  predicate IsIdentityOf(w: World, i: Incarnation, boot: Option<string>, start: Option<string>) {
    (boot == None || boot == Some(w.bootId(i))) && (start == None || start == Some(w.processStart(i)))
  }

  /** The step is the decision on an owner whose process lives. */
  predicate ProbesLiveOwner(w: World, s: State, act: Action) {
    act.Decide? && s.Pc(act.a).Looked? && s.Pc(act.a).view.OwnedBy? && Alive(w, s, s.Pc(act.a).view.owner.token)
  }

  predicate Respects(w: World, s: State, act: Action, h: Hypothesis) {
    match h
    case LivePidsAreAlive =>
      ProbesLiveOwner(w, s, act) ==> act.probe.first == PidAlive && act.probe.second == PidAlive
    case IdentityIsStable =>
      && (act.WriteOwner? ==> IsIdentityOf(w, w.home(act.a), act.boot, act.start))
      && (ProbesLiveOwner(w, s, act) ==>
            IsIdentityOf(w, w.home(s.Pc(act.a).view.owner.token), act.probe.bootId, act.probe.processStart))
    case OwnerProbeIsOneStep =>
      act.Decide? && s.Pc(act.a).Looked? && Reclaims(w, s.Pc(act.a).view, act.probe, act.age) ==>
        Seen(s.dir) == s.Pc(act.a).view
    case OwnerlessDirIsDead =>
      act.Decide? && s.Pc(act.a) == Looked(Ownerless) && s.dir.Present? && Alive(w, s, s.dir.creator) ==>
        !TooOld(act.age, w.staleAfter)
    case StaleGuardIsDead =>
      act.SeeStaleGuard? && s.guard.Some? && Alive(w, s, s.guard.value) ==> !TooOld(act.age, w.staleAfter)
    case GuardRemovalIsOneStep =>
      act.RemoveStaleGuard? && s.Pc(act.a).SawStale? ==> s.guard == None || s.guard == Some(s.Pc(act.a).maker)
  }

  predicate Allowed(w: World, s: State, act: Action, hyps: set<Hypothesis>) {
    Enabled(w, s, act) && forall h | h in hyps :: Respects(w, s, act, h)
  }

  /** The state after a run of allowed steps. */
  ghost predicate Runs(w: World, hyps: set<Hypothesis>, s: State, acts: seq<Action>, t: State)
    decreases |acts|
  {
    if acts == [] then s == t
    else Allowed(w, s, acts[0], hyps) && Runs(w, hyps, Next(w, s, acts[0]), acts[1..], t)
  }

  ghost predicate Reachable(w: World, hyps: set<Hypothesis>, s: State) {
    exists acts :: Runs(w, hyps, INITIAL, acts, s)
  }

  // Exclusion

  predicate HoldsGuard(pc: Pc) {
    pc == Guarding || pc.Looked? || pc == Condemned || pc == CondemnedEmptied || pc == Unguarding
  }

  predicate DirOfTheDead(w: World, s: State) { s.dir.Present? && !Alive(w, s, s.dir.creator) }

  /** What an owner file says is what its writer found of itself. */
  predicate Truthful(w: World, o: Owner) {
    o.record.pid.Some? && IsIdentityOf(w, w.home(o.token), o.record.bootId, o.record.processStart)
  }

  predicate MadeBy(d: Dir, a: Agent) {
    d.Present? && d.creator == a && (d.owner.Some? ==> d.owner.value.token == a)
  }

  /** What the program point of a live call says about the shared directories. */
  predicate PcOk(w: World, s: State, a: Agent) {
    && (HoldsGuard(s.Pc(a)) ==> s.guard == Some(a))
    && match s.Pc(a) {
         case Made => s.dir == Present(a, None)
         case Inside => MadeBy(s.dir, a) && s.dir.owner.Some?
         case Leaving => MadeBy(s.dir, a)
         case Emptied => s.dir == Present(a, None)
         case SawStale(m) => !Alive(w, s, m)
         case Looked(view) => view.OwnedBy? ==> Truthful(w, view.owner)
         case Condemned => DirOfTheDead(w, s)
         case CondemnedEmptied => DirOfTheDead(w, s) && s.dir.owner == None
         case _ => true
       }
  }

  predicate DirOk(w: World, d: Dir) {
    d.Present? && d.owner.Some? ==> d.owner.value.token == d.creator && Truthful(w, d.owner.value)
  }

  ghost predicate Invariant(w: World, s: State) {
    DirOk(w, s.dir) && forall a | Alive(w, s, a) :: PcOk(w, s, a)
  }

  /** The code's decision is sound: under the two hypotheses about what probes report, a lock whose owner
      lives is never found reclaimable. */
  lemma LiveOwnersAreKept(w: World, s: State, act: Action)
    requires Invariant(w, s) && Enabled(w, s, act) && ProbesLiveOwner(w, s, act)
    requires Respects(w, s, act, LivePidsAreAlive) && Respects(w, s, act, IdentityIsStable)
    ensures !Reclaims(w, s.Pc(act.a).view, act.probe, act.age)
  {
    assert PcOk(w, s, act.a);
    OwnerIsSafeIff(s.Pc(act.a).view.owner.record, act.probe, act.age, w.staleAfter);
  }

  /** Whatever is condemned is the directory of a dead process. */
  lemma CondemnedIsDead(w: World, s: State, act: Action)
    requires Invariant(w, s) && Allowed(w, s, act, ALL) && act.Decide?
    requires Reclaims(w, s.Pc(act.a).view, act.probe, act.age)
    ensures DirOfTheDead(w, s)
  {
    assert Respects(w, s, act, LivePidsAreAlive) && Respects(w, s, act, IdentityIsStable);
    assert Respects(w, s, act, OwnerProbeIsOneStep) && Respects(w, s, act, OwnerlessDirIsDead);
    if ProbesLiveOwner(w, s, act) {
      LiveOwnersAreKept(w, s, act);
    }
  }

  /** The facts about the acting call's hypotheses that the invariant needs. */
  predicate StepIsSound(w: World, s: State, act: Action) {
    && Enabled(w, s, act)
    && Respects(w, s, act, IdentityIsStable) && Respects(w, s, act, StaleGuardIsDead)
    && Respects(w, s, act, GuardRemovalIsOneStep)
    && (act.Decide? && Reclaims(w, s.Pc(act.a).view, act.probe, act.age) ==> DirOfTheDead(w, s))
  }

  lemma AllowedIsSound(w: World, s: State, act: Action)
    requires Invariant(w, s) && Allowed(w, s, act, ALL)
    ensures StepIsSound(w, s, act)
  {
    hide Invariant;
    if act.Decide? && Reclaims(w, s.Pc(act.a).view, act.probe, act.age) {
      CondemnedIsDead(w, s, act);
    }
  }

  lemma OwnPcKept(w: World, s: State, act: Action)
    requires DirOk(w, s.dir) && StepIsSound(w, s, act) && !act.Crash? && PcOk(w, s, act.a)
    ensures DirOk(w, Next(w, s, act).dir) && PcOk(w, Next(w, s, act), act.a)
  {
    hide Reclaims;
  }

  lemma OtherPcKept(w: World, s: State, act: Action, a: Agent)
    requires DirOk(w, s.dir) && StepIsSound(w, s, act) && PcOk(w, s, a) && Alive(w, Next(w, s, act), a)
    requires act.Crash? || (act.a != a && PcOk(w, s, act.a))
    ensures PcOk(w, Next(w, s, act), a)
  {
    hide Reclaims, IsIdentityOf, Truthful, Respects, Recorded, Contradicts;
    assert act.RemoveStaleGuard? && s.Pc(act.a).SawStale? ==> s.guard == None || s.guard == Some(s.Pc(act.a).maker) by {
      GuardIsTheOneSeen(w, s, act);
    }
    assert act.SeeStaleGuard? && s.guard.Some? ==> !Alive(w, s, s.guard.value) by { SeenGuardIsDead(w, s, act); }
  }

  lemma GuardIsTheOneSeen(w: World, s: State, act: Action)
    requires StepIsSound(w, s, act)
    ensures act.RemoveStaleGuard? && s.Pc(act.a).SawStale? ==> s.guard == None || s.guard == Some(s.Pc(act.a).maker)
  {
  }

  lemma SeenGuardIsDead(w: World, s: State, act: Action)
    requires StepIsSound(w, s, act)
    ensures act.SeeStaleGuard? && s.guard.Some? ==> !Alive(w, s, s.guard.value)
  {
  }

  lemma StepKeepsInvariant(w: World, s: State, act: Action)
    requires Invariant(w, s) && Allowed(w, s, act, ALL)
    ensures Invariant(w, Next(w, s, act))
  {
    hide PcOk, DirOk, Next, Allowed, Respects;
    var t := Next(w, s, act);
    AllowedIsSound(w, s, act);
    if act.Crash? {
      CrashKeepsDir(w, s, act);
    } else {
      assert PcOk(w, s, act.a);
      OwnPcKept(w, s, act);
    }
    forall a | Alive(w, t, a) ensures PcOk(w, t, a) {
      StillAlive(w, s, act, a);
      assert PcOk(w, s, a);
      if act.Crash? || act.a != a { OtherPcKept(w, s, act, a); }
    }
  }

  lemma CrashKeepsDir(w: World, s: State, act: Action)
    requires act.Crash?
    ensures Next(w, s, act).dir == s.dir
  {
  }

  lemma StillAlive(w: World, s: State, act: Action, a: Agent)
    requires Alive(w, Next(w, s, act), a)
    ensures Alive(w, s, a)
  {
    hide Reclaims;
  }

  lemma {:induction false} RunKeepsInvariant(w: World, s: State, acts: seq<Action>, t: State)
    requires Invariant(w, s) && Runs(w, ALL, s, acts, t)
    ensures Invariant(w, t)
    decreases |acts|
  {
    hide Invariant, Next, Allowed;
    if acts != [] {
      StepKeepsInvariant(w, s, acts[0]);
      RunKeepsInvariant(w, Next(w, s, acts[0]), acts[1..], t);
    }
  }

  lemma ReachableKeepsInvariant(w: World, s: State)
    requires Reachable(w, ALL, s)
    ensures Invariant(w, s)
  {
    var acts :| Runs(w, ALL, INITIAL, acts, s);
    RunKeepsInvariant(w, INITIAL, acts, s);
  }

  predicate IsInside(w: World, s: State, a: Agent) { Alive(w, s, a) && s.Pc(a) == Inside }

  /** At most one live process is in the body, over all interleavings and crashes. */
  lemma MutualExclusion(w: World, s: State, a: Agent, b: Agent)
    requires Reachable(w, ALL, s) && IsInside(w, s, a) && IsInside(w, s, b)
    ensures a == b
  {
    ReachableKeepsInvariant(w, s);
    assert PcOk(w, s, a) && PcOk(w, s, b);
  }

  /** A reclaim removes only a dead incarnation's lock, and a release removes only its own. */
  lemma OnlyDeadOrOwnLockIsRemoved(w: World, s: State, act: Action)
    requires Reachable(w, ALL, s) && Allowed(w, s, act, ALL) && s.dir.Present?
    requires Next(w, s, act).dir.Absent? || (s.dir.owner.Some? && Next(w, s, act).dir.owner != s.dir.owner)
    ensures act.Unlink? || act.Rmdir?
    ensures s.dir.creator == act.a || !Alive(w, s, s.dir.creator)
  {
    ReachableKeepsInvariant(w, s);
    if !act.Crash? { assert PcOk(w, s, act.a); }
  }
}
