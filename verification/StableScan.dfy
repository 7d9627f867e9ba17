/** `scan_until_stable` (src/ai_layer/memory/freshness.py:147-198): index a repository that may change
    meanwhile, and publish only what a second look confirms. */
module StableScan {
  import opened Options
  import opened Ordering
  import C = ChangeDetection

  type Path = C.Path
  type Hint = C.Hint
  type Time = nat

  // The retry loop

  /** A stored file state: the hint, and the content hash (empty in states of older versions). */
  datatype Stored = Stored(hint: Hint, contentSha256: string)

  /** What one attempt met: an unstable read, a scan limit, or a complete scan with the two probes and
      the hints of the verification pass. */
  datatype Attempt<!Probe(==)> =
    | ChangedDuringScan
    | LimitExceeded
    | Scanned(fileState: map<Path, Stored>, probeBefore: Option<Probe>, observed: map<Path, Hint>,
        probeAfter: Option<Probe>)

  /** `state_hints_match` */
  predicate HintsMatch(previous: map<Path, Stored>, current: map<Path, Hint>) {
    previous.Keys == current.Keys
    && forall p | p in current :: previous[p].contentSha256 != "" && previous[p].hint == current[p]
  }

  /** The probes before and after the verification, where both could be taken. */
  predicate ProbesAgree<Probe(==)>(before: Option<Probe>, after: Option<Probe>) {
    before == None || after == None || before == after
  }

  predicate Accepted<Probe(==)>(a: Attempt<Probe>) {
    a.Scanned? && HintsMatch(a.fileState, a.observed) && ProbesAgree(a.probeBefore, a.probeAfter)
  }

  predicate Retried<Probe(==)>(a: Attempt<Probe>) {
    !a.LimitExceeded? && !Accepted(a)
  }

  datatype DatabaseStep = Commit | Rollback | WriteMetadata
  datatype ScanResult = Stable(attempt: nat) | LimitRaised(attempt: nat) | GaveUp(attempts: nat)

  function Rollbacks(n: nat): (r: seq<DatabaseStep>)
    ensures |r| == n
  {
    seq(n, _ => Rollback)
  }

  /** At most `max(1, max_attempts)` attempts; every attempt but a successful last one is rolled back;
      at most one commit, and the metadata is written only after it. */
  method ScanUntilStable<Probe(==)>(world: nat -> Attempt<Probe>, maxAttempts: int)
    returns (r: ScanResult, journal: seq<DatabaseStep>)
    ensures var n := if maxAttempts < 1 then 1 else maxAttempts;
            match r
            case Stable(k) =>
              && 1 <= k <= n && Accepted(world(k)) && (forall j | 1 <= j < k :: Retried(world(j)))
              && journal == Rollbacks(k - 1) + [Commit, WriteMetadata]
            case LimitRaised(k) =>
              && 1 <= k <= n && world(k).LimitExceeded? && (forall j | 1 <= j < k :: Retried(world(j)))
              && journal == Rollbacks(k)
            case GaveUp(k) =>
              k == n && (forall j | 1 <= j <= n :: Retried(world(j))) && journal == Rollbacks(n)
    ensures r.Stable? ==>
              var a := world(r.attempt);
              && a.Scanned? && a.fileState.Keys == a.observed.Keys
              && (forall p | p in a.observed ::
                    a.fileState[p].contentSha256 != "" && a.fileState[p].hint == a.observed[p])
              && (a.probeBefore == None || a.probeAfter == None || a.probeBefore == a.probeAfter)
    ensures forall j | 1 <= j < (if r.GaveUp? then r.attempts + 1 else r.attempt) ::
              var a := world(j);
              a.ChangedDuringScan?
              || (a.Scanned?
                  && (a.fileState.Keys != a.observed.Keys
                      || (exists p :: p in a.observed && p in a.fileState
                            && (a.fileState[p].contentSha256 == "" || a.fileState[p].hint != a.observed[p]))
                      || (a.probeBefore.Some? && a.probeAfter.Some? && a.probeBefore != a.probeAfter)))
  {
    var attempts := if maxAttempts < 1 then 1 else maxAttempts;
    journal := [];
    for attempt := 1 to attempts + 1
      invariant journal == Rollbacks(attempt - 1)
      invariant forall j | 1 <= j < attempt :: Retried(world(j))
    {
      var a := world(attempt);
      match a {
        case ChangedDuringScan =>
          journal := journal + [Rollback];
          continue;
        case LimitExceeded =>
          journal := journal + [Rollback];
          return LimitRaised(attempt), journal;
        case Scanned(_, _, _, _) =>
      }
      if HintsMatch(a.fileState, a.observed) && ProbesAgree(a.probeBefore, a.probeAfter) {
        journal := journal + [Commit];
        journal := journal + [WriteMetadata];
        return Stable(attempt), journal;
      }
      journal := journal + [Rollback];
    }
    r := GaveUp(attempts);
  }

  // The repository over time

  datatype FileId = FileId(dev: int, ino: int)
  /** One version of a file: a content, here named by its hash, the stat hint it shows, and its device and inode. */
  datatype Version = Version(content: string, hint: Hint, file: FileId)
  type History = Time -> map<Path, Version>

  /** A change of content always changes the hint. */
  ghost predicate ChangesShow(h: History) {
    forall p, t: Time | p in h(t) && p in h(t + 1) && h(t)[p].hint == h(t + 1)[p].hint ::
      h(t)[p].content == h(t + 1)[p].content
  }

  ghost function HintAt(h: History, p: Path, t: Time): Option<Hint> {
    if p in h(t) then Some(h(t)[p].hint) else None
  }

  /** A hint that a path showed once is shown again only if it was never left in between. */
  ghost predicate HintsNeverRecur(h: History) {
    forall p, s: Time, t: Time, u: Time | s <= t <= u && HintAt(h, p, s).Some? && HintAt(h, p, s) == HintAt(h, p, u) ::
      HintAt(h, p, t) == HintAt(h, p, s)
  }

  lemma {:induction false} SameHintSameContent(h: History, p: Path, s: Time, t: Time, u: Time)
    requires ChangesShow(h) && HintsNeverRecur(h)
    requires s <= t <= u && p in h(s) && p in h(u) && h(s)[p].hint == h(u)[p].hint
    ensures p in h(t) && h(t)[p].content == h(s)[p].content && h(t)[p].hint == h(s)[p].hint
    decreases t - s
  {
    if s < t {
      SameHintSameContent(h, p, s, t - 1, u);
      assert HintAt(h, p, s) == HintAt(h, p, u) && HintAt(h, p, t) == HintAt(h, p, s);
      assert h(t - 1)[p].hint == h(t - 1 + 1)[p].hint;
    }
  }

  ghost predicate TrueAt(h: History, p: Path, row: C.Row, t: Time) {
    p in h(t) && h(t)[p].content == row.hash && h(t)[p].hint == row.hint
  }

  // One read

  /** `_stable_stat_key`: what the read compares. The change time is not part of it. */
  function StatKey(v: Version): (FileId, int, int) { (v.file, v.hint.size, v.hint.mtimeNs) }

  /** The instants of `read_stable_source`: the first lstat, the bytes from `open` to `close`, the second lstat. */
  datatype Read = Read(before: Time, open: Time, close: Time, after: Time)

  /** The path shows one content throughout. */
  ghost predicate OneContent(h: History, p: Path, from: Time, to: Time) {
    forall t: Time, u: Time | from <= t <= to && from <= u <= to && p in h(t) && p in h(u) ::
      h(t)[p].content == h(u)[p].content
  }

  predicate InOrder(r: Read) { r.before <= r.open <= r.close <= r.after }

  ghost predicate SameKey(h: History, p: Path, s: Time, t: Time) {
    p in h(s) && p in h(t) && StatKey(h(s)[p]) == StatKey(h(t)[p])
  }

  /** `read_stable_source`: the key is the same before and after, and the hint reported is the one after.
      The bytes are the file's content if it did not change while they were read, and anything otherwise. */
  ghost predicate StableRead(h: History, p: Path, s: C.Snapshot, r: Read) {
    && InOrder(r) && SameKey(h, p, r.before, r.after) && s.hint == h(r.after)[p].hint
    && p in h(r.open) && (OneContent(h, p, r.open, r.close) ==> s.contentSha256 == h(r.open)[p].content)
  }

  /** The hypothesis on a read: no rewrite that comes back to the same device, inode, size and modification
      time falls inside it. */
  ghost predicate Quiet(h: History, p: Path, r: Read) {
    SameKey(h, p, r.before, r.after) ==> OneContent(h, p, r.before, r.after)
  }

  lemma QuietReadIsTrue(h: History, p: Path, s: C.Snapshot, r: Read)
    requires StableRead(h, p, s, r) && Quiet(h, p, r)
    ensures TrueAt(h, p, C.Row(s.contentSha256, s.hint), r.after)
  {
    assert OneContent(h, p, r.open, r.close);
    assert h(r.open)[p].content == h(r.after)[p].content;
  }

  /** A row can only be true with the content its hint has. */
  lemma TrueRowHasCurrentContent(h: History, p: Path, row: C.Row, t: Time, u: Time)
    requires ChangesShow(h) && HintsNeverRecur(h) && TrueAt(h, p, row, t) && p in h(u) && h(u)[p].hint == row.hint
    ensures h(u)[p].content == row.hash
  {
    if t <= u {
      SameHintSameContent(h, p, t, u, u);
    } else {
      SameHintSameContent(h, p, u, t, t);
    }
  }

  ghost predicate AlwaysTrue(h: History, p: Path, before: Time, after: Time) {
    forall s: C.Snapshot, r: Read | r.before == before && r.after == after && StableRead(h, p, s, r) ::
      OnceTrue(h, p, C.Row(s.contentSha256, s.hint))
  }

  ghost predicate OnceTrue(h: History, p: Path, row: C.Row) {
    exists t: Time :: TrueAt(h, p, row, t)
  }

  /** The hypothesis is exact: between two lstats with one key, whatever a read can return is true at some
      instant if and only if the content did not change between them. */
  lemma QuietIsExact(h: History, p: Path, before: Time, after: Time)
    requires ChangesShow(h) && HintsNeverRecur(h) && before <= after && SameKey(h, p, before, after)
    ensures AlwaysTrue(h, p, before, after) <==> OneContent(h, p, before, after)
  {
    if OneContent(h, p, before, after) {
      forall s: C.Snapshot, r: Read | r.before == before && r.after == after && StableRead(h, p, s, r)
        ensures OnceTrue(h, p, C.Row(s.contentSha256, s.hint))
      {
        QuietReadIsTrue(h, p, s, r);
      }
    } else {
      var t: Time :| before <= t <= after && p in h(t) && h(t)[p].content != h(after)[p].content;
      var s := C.Snapshot(h(after)[p].hint, h(t)[p].content);
      assert StableRead(h, p, s, Read(before, t, t, after));
      if OnceTrue(h, p, C.Row(s.contentSha256, s.hint)) {
        var u: Time :| TrueAt(h, p, C.Row(s.contentSha256, s.hint), u);
        TrueRowHasCurrentContent(h, p, C.Row(s.contentSha256, s.hint), u, after);
      }
    }
  }

  // One scan and its verification

  /** Stat hints collected file by file, each at its own instant. */
  ghost predicate Glanced(h: History, hints: map<Path, Hint>, at: map<Path, Time>, from: Time, to: Time) {
    hints.Keys == at.Keys && forall p | p in hints :: from <= at[p] <= to && HintAt(h, p, at[p]) == Some(hints[p])
  }

  ghost predicate ReadBetween(h: History, p: Path, s: C.Snapshot, r: Read, from: Time, to: Time) {
    from <= r.before && r.after <= to && StableRead(h, p, s, r)
  }

  /** The instants of a scan: of the glance at each file, and of the read of each file that needed one. */
  datatype Clock = Clock(at: map<Path, Time>, readAt: map<Path, Read>, from: Time, last: Time)

  ghost predicate ScannedBetween(h: History, s: C.Scan, k: Clock) {
    && Glanced(h, s.hints, k.at, k.from, k.last) && C.Hashed(s) <= s.disk.Keys && k.readAt.Keys == C.Hashed(s)
    && forall p | p in C.Hashed(s) :: ReadBetween(h, p, s.disk[p], k.readAt[p], k.from, k.last)
  }

  ghost predicate AllQuiet(h: History, k: Clock) {
    forall p | p in k.readAt :: Quiet(h, p, k.readAt[p])
  }

  /** The rows a scan leaves: what it read, and the old row where it trusted the hint. */
  function NewRows(s: C.Scan): map<Path, C.Row>
    requires C.Hashed(s) <= s.disk.Keys
  {
    map p | p in s.hints ::
      if p in C.Hashed(s) then C.Row(s.disk[p].contentSha256, s.disk[p].hint) else s.previous[p]
  }

  function FileState(rows: map<Path, C.Row>): map<Path, Stored> {
    map p | p in rows :: Stored(rows[p].hint, rows[p].hash)
  }

  /** A stored row tells the content and hint its file once had together, or has no hash. */
  ghost predicate RowsTrue(h: History, rows: map<Path, C.Row>, now: Time) {
    forall p | p in rows :: rows[p].hash == "" || exists t: Time :: t <= now && TrueAt(h, p, rows[p], t)
  }

  ghost predicate ExactAt(h: History, rows: map<Path, C.Row>, t: Time) {
    forall p | p in rows :: TrueAt(h, p, rows[p], t)
  }

  lemma TrustedRowIsCurrent(h: History, s: C.Scan, k: Clock, p: Path)
    requires ChangesShow(h) && HintsNeverRecur(h) && RowsTrue(h, s.previous, k.from)
    requires Glanced(h, s.hints, k.at, k.from, k.last)
    requires p in s.hints && p in s.previous && s.previous[p].hash != "" && s.previous[p].hint == s.hints[p]
    ensures TrueAt(h, p, s.previous[p], k.at[p])
  {
    var t: Time :| t <= k.from && TrueAt(h, p, s.previous[p], t);
    assert HintAt(h, p, k.at[p]) == Some(s.hints[p]);
    SameHintSameContent(h, p, t, k.at[p], k.at[p]);
  }

  /** The scan with the contents that the files had when they were glanced at. */
  ghost function AsGlanced(h: History, s: C.Scan, k: Clock): C.Scan
    requires s.hints.Keys <= k.at.Keys
  {
    s.(disk := map p | p in s.hints && p in h(k.at[p]) :: C.Snapshot(h(k.at[p])[p].hint, h(k.at[p])[p].content))
  }

  /** The hypothesis of the fast path holds of the contents at the instants of the glance. */
  lemma HintsAreSound(h: History, s: C.Scan, k: Clock)
    requires ChangesShow(h) && HintsNeverRecur(h) && RowsTrue(h, s.previous, k.from)
    requires Glanced(h, s.hints, k.at, k.from, k.last)
    ensures C.HintsSound(AsGlanced(h, s, k))
  {
    forall p | p in s.hints ensures p in h(k.at[p]) {
      assert HintAt(h, p, k.at[p]) == Some(s.hints[p]);
    }
    forall p | p in s.hints && p in s.previous && s.previous[p].hash != "" && s.previous[p].hint == s.hints[p]
      ensures TrueAt(h, p, s.previous[p], k.at[p])
    {
      TrustedRowIsCurrent(h, s, k, p);
    }
  }

  /** So in a changing repository, too, the fast path lists what hashing every file when it was glanced at
      would have listed. */
  lemma GlancedScanRefinesFull(h: History, s: C.Scan, k: Clock, c: C.ChangeSet, full: C.ChangeSet)
    requires ChangesShow(h) && HintsNeverRecur(h) && RowsTrue(h, s.previous, k.from)
    requires Glanced(h, s.hints, k.at, k.from, k.last)
    requires C.IsClassification(AsGlanced(h, s, k), c) && C.IsClassification(C.FullScan(AsGlanced(h, s, k)), full)
    ensures c.added == full.added && c.modified == full.modified && c.deleted == full.deleted
    ensures c.same == full.same && c.renamed == full.renamed
  {
    hide C.IsClassification, C.HintsSound, ChangesShow, HintsNeverRecur, RowsTrue;
    HintsAreSound(h, s, k);
    C.FastRefinesFull(AsGlanced(h, s, k), c, full);
  }

  /** Every row a scan leaves was true at some instant of the scan, if its reads were quiet. */
  lemma ScanRowsAreTrue(h: History, s: C.Scan, k: Clock, p: Path) returns (t: Time)
    requires ChangesShow(h) && HintsNeverRecur(h) && RowsTrue(h, s.previous, k.from)
    requires ScannedBetween(h, s, k) && AllQuiet(h, k) && p in s.hints
    ensures k.from <= t <= k.last && TrueAt(h, p, NewRows(s)[p], t)
  {
    hide ChangesShow, HintsNeverRecur, RowsTrue, StableRead, Quiet;
    if p in C.Hashed(s) {
      assert ReadBetween(h, p, s.disk[p], k.readAt[p], k.from, k.last) && Quiet(h, p, k.readAt[p]);
      ReadEndsInOrder(h, p, s.disk[p], k.readAt[p]);
      QuietReadIsTrue(h, p, s.disk[p], k.readAt[p]);
      t := k.readAt[p].after;
    } else {
      TrustedRowIsCurrent(h, s, k, p);
      t := k.at[p];
    }
  }

  lemma ReadEndsInOrder(h: History, p: Path, s: C.Snapshot, r: Read)
    requires StableRead(h, p, s, r)
    ensures r.before <= r.after && p in h(r.after) && s.hint == h(r.after)[p].hint
  {
  }

  /** A verification pass: the hints it saw and when, from its first stat to the end of the attempt. */
  datatype Check = Check(observed: map<Path, Hint>, seen: map<Path, Time>, first: Time, end: Time)

  /** The pass confirms the hints of the rows. */
  ghost predicate Confirmed(h: History, rows: map<Path, C.Row>, v: Check) {
    Glanced(h, v.observed, v.seen, v.first, v.end) && HintsMatch(FileState(rows), v.observed)
  }

  lemma ConfirmedHint(h: History, rows: map<Path, C.Row>, v: Check, p: Path)
    requires Confirmed(h, rows, v) && p in rows
    ensures p in v.seen && v.first <= v.seen[p] && p in h(v.seen[p]) && h(v.seen[p])[p].hint == rows[p].hint
  {
    assert p in FileState(rows) && p in v.observed && FileState(rows)[p].hint == v.observed[p];
    assert HintAt(h, p, v.seen[p]) == Some(v.observed[p]);
  }

  lemma ConfirmedRowIsExact(h: History, rows: map<Path, C.Row>, v: Check, p: Path, r: Time, t: Time)
    requires ChangesShow(h) && HintsNeverRecur(h) && Confirmed(h, rows, v) && p in rows
    requires r <= t <= v.first && TrueAt(h, p, rows[p], r)
    ensures TrueAt(h, p, rows[p], t)
  {
    ConfirmedHint(h, rows, v, p);
    SameHintSameContent(h, p, r, t, v.seen[p]);
  }

  ghost predicate Verified(h: History, s: C.Scan, v: Check) {
    C.Hashed(s) <= s.disk.Keys && Confirmed(h, NewRows(s), v)
  }

  /** What a read returned is what its file held at the second lstat. */
  ghost predicate ReadIsCurrent(h: History, s: C.Scan, k: Clock, p: Path) {
    && p in s.disk && p in k.readAt && p in h(k.readAt[p].after)
    && h(k.readAt[p].after)[p].content == s.disk[p].contentSha256
  }

  ghost predicate ReadsAreCurrent(h: History, s: C.Scan, k: Clock) {
    forall p | p in C.Hashed(s) :: ReadIsCurrent(h, s, k, p)
  }

  lemma ReadRowIsExactIffCurrent(h: History, s: C.Scan, k: Clock, v: Check, t: Time, p: Path)
    requires ChangesShow(h) && HintsNeverRecur(h) && ScannedBetween(h, s, k) && Verified(h, s, v)
    requires k.last <= t <= v.first && p in C.Hashed(s)
    ensures TrueAt(h, p, NewRows(s)[p], t) <==> ReadIsCurrent(h, s, k, p)
  {
    hide StableRead, ChangesShow, HintsNeverRecur, Verified;
    assert ReadBetween(h, p, s.disk[p], k.readAt[p], k.from, k.last);
    ReadEndsInOrder(h, p, s.disk[p], k.readAt[p]);
    var r := k.readAt[p].after;
    assert Confirmed(h, NewRows(s), v) by { VerifiedIsConfirmed(h, s, v); }
    ConfirmedHint(h, NewRows(s), v, p);
    SameHintSameContent(h, p, r, t, v.seen[p]);
  }

  lemma VerifiedIsConfirmed(h: History, s: C.Scan, v: Check)
    requires Verified(h, s, v)
    ensures C.Hashed(s) <= s.disk.Keys && Confirmed(h, NewRows(s), v)
  {
  }

  /** Double collect, with nothing assumed of the reads: if the verification's hints match, then at any
      instant from the scan's last read to the verification's first stat every file had exactly its stored
      content, if and only if every read returned what its file held at the second lstat. */
  lemma VerifiedRowsAreExactIff(h: History, s: C.Scan, k: Clock, v: Check, t: Time)
    requires ChangesShow(h) && HintsNeverRecur(h) && RowsTrue(h, s.previous, k.from)
    requires ScannedBetween(h, s, k) && Verified(h, s, v) && k.last <= t <= v.first
    ensures ExactAt(h, NewRows(s), t) <==> ReadsAreCurrent(h, s, k)
  {
    hide StableRead, ChangesShow, HintsNeverRecur, Verified, Confirmed, RowsTrue, TrueAt, ReadIsCurrent;
    forall p | p in C.Hashed(s) ensures TrueAt(h, p, NewRows(s)[p], t) <==> ReadIsCurrent(h, s, k, p) {
      ReadRowIsExactIffCurrent(h, s, k, v, t, p);
    }
    VerifiedIsConfirmed(h, s, v);
    forall p | p in s.hints && p !in C.Hashed(s) ensures TrueAt(h, p, NewRows(s)[p], t) {
      TrustedRowIsCurrent(h, s, k, p);
      ConfirmedRowIsExact(h, NewRows(s), v, p, k.at[p], t);
    }
  }

  /** Double collect: with quiet reads and matching hints, from the scan's last read to the verification's
      first stat every scanned file had exactly its stored content. */
  lemma VerifiedRowsAreExact(h: History, s: C.Scan, k: Clock, v: Check, t: Time)
    requires ChangesShow(h) && HintsNeverRecur(h) && RowsTrue(h, s.previous, k.from)
    requires ScannedBetween(h, s, k) && AllQuiet(h, k) && Verified(h, s, v) && k.last <= t <= v.first
    ensures ExactAt(h, NewRows(s), t)
  {
    hide ScannedBetween, AllQuiet, ChangesShow, HintsNeverRecur, Verified, Confirmed, RowsTrue, TrueAt;
    VerifiedIsConfirmed(h, s, v);
    forall p | p in NewRows(s) ensures TrueAt(h, p, NewRows(s)[p], t) {
      var r := ScanRowsAreTrue(h, s, k, p);
      ConfirmedRowIsExact(h, NewRows(s), v, p, r, t);
    }
  }

  // Any number of refreshes, and navigation reads at any time

  /** The digest of `repository_probe`, where Git could be asked. */
  type Probe = Option<string>

  /** One file that `refresh_navigation_paths` read. Its own transaction stores it, without a verification. */
  datatype Nav = Nav(path: Path, snapshot: C.Snapshot, read: Read)

  function RowOf(n: Nav): C.Row { C.Row(n.snapshot.contentSha256, n.snapshot.hint) }

  function Overwritten(rows: map<Path, C.Row>, navs: seq<Nav>): map<Path, C.Row> {
    if navs == [] then rows
    else Overwritten(rows, navs[..|navs| - 1])[navs[|navs| - 1].path := RowOf(navs[|navs| - 1])]
  }

  /** What writes rows: one attempt of the loop, or one file that was read for navigation.
      - `during` are the navigation reads committed after the attempt loaded its rows and before it wrote and
        re-read them, `late` those committed after that and before the attempt ended;
      - `inPlace` are the files whose row the attempt updates column by column. */
  datatype Event =
    | Attempted(scan: C.Scan, clock: Clock, inPlace: set<Path>, during: seq<Nav>, check: Check, late: seq<Nav>,
        probeBefore: Probe, probeAfter: Probe)
    | Navigated(nav: Nav, at: Time)

  /** `update_source_identity`: the columns are compared with what was loaded, and only those that differ are
      written, into the row as it is by then. */
  function Updated(loaded: C.Row, current: C.Row, target: C.Row): C.Row {
    C.Row(
      if target.hash == loaded.hash then current.hash else target.hash,
      C.Hint(
        if target.hint.size == loaded.hint.size then current.hint.size else target.hint.size,
        if target.hint.mtimeNs == loaded.hint.mtimeNs then current.hint.mtimeNs else target.hint.mtimeNs,
        if target.hint.ctimeNs == loaded.hint.ctimeNs then current.hint.ctimeNs else target.hint.ctimeNs))
  }

  /** The row of a file that the attempt's scan saw, when the attempt re-reads it. */
  function ScannedRow(s: C.Scan, inPlace: set<Path>, current: map<Path, C.Row>, p: Path): C.Row
    requires C.Hashed(s) <= s.disk.Keys && p in s.hints && (p in s.previous ==> p in current)
  {
    if p !in C.Hashed(s) then current[p]
    else if p in inPlace && p in s.previous then Updated(s.previous[p], current[p], NewRows(s)[p])
    else NewRows(s)[p]
  }

  lemma StoredKeeps(rows: map<Path, C.Row>, navs: seq<Nav>)
    ensures rows.Keys <= Overwritten(rows, navs).Keys
  {
  }

  /** The rows as the attempt re-reads them: its own writes over those of the navigation reads, its deletions,
      and the files that only a navigation read has found. */
  function RowsRead(s: C.Scan, inPlace: set<Path>, during: seq<Nav>): map<Path, C.Row>
    requires C.Hashed(s) <= s.disk.Keys
  {
    var current := Overwritten(s.previous, during);
    StoredKeeps(s.previous, during);
    map p | p in s.hints.Keys + (current.Keys - s.previous.Keys) ::
      if p in s.hints then ScannedRow(s, inPlace, current, p) else current[p]
  }

  ghost predicate NavsRead(h: History, navs: seq<Nav>, last: Time) {
    forall i | 0 <= i < |navs| ::
      StableRead(h, navs[i].path, navs[i].snapshot, navs[i].read) && navs[i].read.after <= last
  }

  ghost predicate Happened(h: History, rows: map<Path, C.Row>, now: Time, e: Event) {
    match e
    case Attempted(s, k, _, during, v, late, _, _) =>
      && now <= k.from <= k.last <= v.first <= v.end && s.previous == rows
      && ScannedBetween(h, s, k) && Glanced(h, v.observed, v.seen, v.first, v.end)
      && NavsRead(h, during, v.first) && NavsRead(h, late, v.end)
    case Navigated(n, at) => now <= at && NavsRead(h, [n], at)
  }

  ghost predicate QuietNavs(h: History, navs: seq<Nav>) {
    forall i | 0 <= i < |navs| :: Quiet(h, navs[i].path, navs[i].read)
  }

  /** The hypothesis on the reads of an event. */
  ghost predicate QuietEvent(h: History, e: Event) {
    match e
    case Attempted(_, k, _, during, _, late, _, _) => AllQuiet(h, k) && QuietNavs(h, during) && QuietNavs(h, late)
    case Navigated(n, _) => QuietNavs(h, [n])
  }

  /** The hypothesis on the interleaving: no navigation read is committed to a row between its loading and its
      update in place. */
  predicate NothingUnderneath(e: Event) {
    e.Attempted? ==> forall i | 0 <= i < |e.during| :: e.during[i].path !in e.inPlace
  }

  /** The attempt as the retry loop sees it. */
  function AttemptOf(e: Event): Attempt<string>
    requires e.Attempted?
  {
    if C.Hashed(e.scan) <= e.scan.disk.Keys then
      Scanned(FileState(RowsRead(e.scan, e.inPlace, e.during)), e.probeBefore, e.check.observed, e.probeAfter)
    else ChangedDuringScan
  }

  ghost predicate Commits(e: Event) { e.Attempted? && Accepted(AttemptOf(e)) }

  /** An attempt commits exactly when every file it had to read was read stably, the rows it re-read have
      content hashes and the hints and paths observed, and the probes do not differ. */
  lemma CommitsIff(e: Event)
    requires e.Attempted?
    ensures Commits(e) <==>
              && (forall p | p in C.Hashed(e.scan) :: p in e.scan.disk)
              && var rows := RowsRead(e.scan, e.inPlace, e.during);
              && (forall p :: p in rows <==> p in e.check.observed)
              && (forall p | p in e.check.observed :: rows[p].hash != "" && rows[p].hint == e.check.observed[p])
              && !(e.probeBefore.Some? && e.probeAfter.Some? && e.probeBefore != e.probeAfter)
  {
    hide RowsRead, C.Hashed;
  }

  function End(e: Event): Time { if e.Attempted? then e.check.end else e.at }

  /** The stored rows after an event: an attempt replaces them on commit and leaves them on rollback, and those
      of navigation reads stay in either case. */
  ghost function RowsAfter(rows: map<Path, C.Row>, e: Event): map<Path, C.Row> {
    if e.Navigated? then Overwritten(rows, [e.nav])
    else if Commits(e) then Overwritten(RowsRead(e.scan, e.inPlace, e.during), e.late)
    else Overwritten(Overwritten(rows, e.during), e.late)
  }

  /** Events one after another, while the repository goes on changing as `h` says. */
  ghost predicate Run(h: History, rows: map<Path, C.Row>, now: Time, run: seq<Event>)
    decreases |run|
  {
    run == [] || (Happened(h, rows, now, run[0]) && Run(h, RowsAfter(rows, run[0]), End(run[0]), run[1..]))
  }

  ghost function RowsAtEnd(rows: map<Path, C.Row>, run: seq<Event>): map<Path, C.Row>
    decreases |run|
  {
    if run == [] then rows else RowsAtEnd(RowsAfter(rows, run[0]), run[1..])
  }

  function EndOf(now: Time, run: seq<Event>): Time
    decreases |run|
  {
    if run == [] then now else EndOf(End(run[0]), run[1..])
  }

  /** The last of the reads. */
  function LastRead(from: Time, navs: seq<Nav>): (t: Time)
    ensures from <= t && forall i | 0 <= i < |navs| :: navs[i].read.after <= t
  {
    if navs == [] then from
    else
      var t := LastRead(from, navs[..|navs| - 1]);
      var after := navs[|navs| - 1].read.after;
      if t < after then after else t
  }

  /** From the last read, of the scan or for navigation, to the verification's first stat the verified rows were
      exact. */
  ghost predicate Exact(h: History, e: Event) {
    && e.Attempted? && C.Hashed(e.scan) <= e.scan.disk.Keys
    && forall t: Time | LastRead(e.clock.last, e.during) <= t <= e.check.first ::
      ExactAt(h, RowsRead(e.scan, e.inPlace, e.during), t)
  }

  lemma RowsStayTrue(h: History, rows: map<Path, C.Row>, now: Time, later: Time)
    requires RowsTrue(h, rows, now) && now <= later
    ensures RowsTrue(h, rows, later)
  {
  }

  /** A stored row is an old one or that of a navigation read. */
  lemma {:induction false} StoredRow(rows: map<Path, C.Row>, navs: seq<Nav>, p: Path)
    requires p in Overwritten(rows, navs)
    ensures (p in rows && Overwritten(rows, navs)[p] == rows[p] && forall i | 0 <= i < |navs| :: navs[i].path != p)
         || exists i :: 0 <= i < |navs| && navs[i].path == p && Overwritten(rows, navs)[p] == RowOf(navs[i])
    decreases |navs|
  {
    if navs != [] {
      var n := |navs| - 1;
      if navs[n].path != p {
        StoredRow(rows, navs[..n], p);
      }
    }
  }

  lemma NavRowIsTrue(h: History, n: Nav, last: Time)
    requires NavsRead(h, [n], last) && QuietNavs(h, [n])
    ensures n.read.after <= last && TrueAt(h, n.path, RowOf(n), n.read.after)
  {
    assert StableRead(h, [n][0].path, [n][0].snapshot, [n][0].read) && Quiet(h, [n][0].path, [n][0].read);
    QuietReadIsTrue(h, n.path, n.snapshot, n.read);
  }

  lemma StoringKeepsRowsTrue(h: History, rows: map<Path, C.Row>, navs: seq<Nav>, last: Time)
    requires RowsTrue(h, rows, last) && NavsRead(h, navs, last) && QuietNavs(h, navs)
    ensures RowsTrue(h, Overwritten(rows, navs), last)
  {
    hide StableRead, Quiet, TrueAt;
    forall p | p in Overwritten(rows, navs)
      ensures Overwritten(rows, navs)[p].hash == ""
           || exists t: Time :: t <= last && TrueAt(h, p, Overwritten(rows, navs)[p], t)
    {
      StoredRow(rows, navs, p);
      if p !in rows || Overwritten(rows, navs)[p] != rows[p] {
        var i :| 0 <= i < |navs| && navs[i].path == p && Overwritten(rows, navs)[p] == RowOf(navs[i]);
        NavRowIsTrue(h, navs[i], last);
      }
    }
  }

  lemma UpdatedAlone(loaded: C.Row, target: C.Row)
    ensures Updated(loaded, loaded, target) == target
  {
  }

  lemma ScannedHasRow(s: C.Scan)
    requires C.Hashed(s) <= s.disk.Keys
    ensures NewRows(s).Keys == s.hints.Keys
  {
  }

  /** Every row the attempt re-reads is one that its scan leaves or that of a navigation read. */
  lemma RowReadIsScannedOrNavigated(s: C.Scan, inPlace: set<Path>, during: seq<Nav>, p: Path)
    requires C.Hashed(s) <= s.disk.Keys && p in RowsRead(s, inPlace, during)
    requires forall i | 0 <= i < |during| :: during[i].path !in inPlace
    ensures (p in s.hints && RowsRead(s, inPlace, during)[p] == NewRows(s)[p])
         || exists i :: 0 <= i < |during| && during[i].path == p && RowsRead(s, inPlace, during)[p] == RowOf(during[i])
  {
    hide C.Hashed;
    var current := Overwritten(s.previous, during);
    StoredKeeps(s.previous, during);
    if p in current {
      StoredRow(s.previous, during, p);
    }
    if p in s.hints && p in s.previous {
      UpdatedAlone(s.previous[p], NewRows(s)[p]);
    }
    if p in s.hints && p !in C.Hashed(s) {
      TrustedIsOld(s, p);
    }
  }

  lemma TrustedIsOld(s: C.Scan, p: Path)
    requires C.Hashed(s) <= s.disk.Keys && p in s.hints && p !in C.Hashed(s)
    ensures p in s.previous && NewRows(s)[p] == s.previous[p]
  {
  }

  lemma RowReadWasTrue(h: History, rows: map<Path, C.Row>, now: Time, e: Event, p: Path) returns (t: Time)
    requires ChangesShow(h) && HintsNeverRecur(h) && RowsTrue(h, rows, now) && Happened(h, rows, now, e)
    requires e.Attempted? && QuietEvent(h, e) && NothingUnderneath(e) && C.Hashed(e.scan) <= e.scan.disk.Keys
    requires p in RowsRead(e.scan, e.inPlace, e.during)
    ensures t <= LastRead(e.clock.last, e.during)
    ensures TrueAt(h, p, RowsRead(e.scan, e.inPlace, e.during)[p], t)
  {
    hide ChangesShow, HintsNeverRecur, ScannedBetween, Glanced, HintsMatch, RowsTrue, NewRows, AllQuiet, StableRead,
        Quiet, TrueAt, RowsRead, C.Hashed;
    RowReadIsScannedOrNavigated(e.scan, e.inPlace, e.during, p);
    ScannedHasRow(e.scan);
    if p in e.scan.hints && RowsRead(e.scan, e.inPlace, e.during)[p] == NewRows(e.scan)[p] {
      RowsStayTrue(h, rows, now, e.clock.from);
      t := ScanRowsAreTrue(h, e.scan, e.clock, p);
    } else {
      var i :| 0 <= i < |e.during| && e.during[i].path == p
               && RowsRead(e.scan, e.inPlace, e.during)[p] == RowOf(e.during[i]);
      NavRowIsTrue(h, e.during[i], e.check.first);
      t := e.during[i].read.after;
    }
  }

  lemma LastReadIsEarly(h: History, from: Time, navs: seq<Nav>, last: Time)
    requires from <= last && NavsRead(h, navs, last)
    ensures LastRead(from, navs) <= last
  {
  }

  lemma CommitIsExact(h: History, rows: map<Path, C.Row>, now: Time, e: Event)
    requires ChangesShow(h) && HintsNeverRecur(h) && RowsTrue(h, rows, now) && Happened(h, rows, now, e)
    requires QuietEvent(h, e) && NothingUnderneath(e) && Commits(e)
    ensures Exact(h, e) && RowsTrue(h, RowsRead(e.scan, e.inPlace, e.during), e.check.first)
  {
    hide ChangesShow, HintsNeverRecur, ScannedBetween, Glanced, HintsMatch, RowsTrue, NewRows, QuietEvent, TrueAt,
        FileState, RowsRead, NothingUnderneath, C.Hashed;
    var read := RowsRead(e.scan, e.inPlace, e.during);
    forall t: Time | LastRead(e.clock.last, e.during) <= t <= e.check.first ensures ExactAt(h, read, t) {
      forall p | p in read ensures TrueAt(h, p, read[p], t) {
        var r := RowReadWasTrue(h, rows, now, e, p);
        ConfirmedRowIsExact(h, read, e.check, p, r, t);
      }
    }
    LastReadIsEarly(h, e.clock.last, e.during, e.check.first);
    ExactRowsAreTrue(h, read, LastRead(e.clock.last, e.during), e.check.first);
  }

  lemma ExactRowsAreTrue(h: History, rows: map<Path, C.Row>, t: Time, now: Time)
    requires ExactAt(h, rows, t) && t <= now
    ensures RowsTrue(h, rows, now)
  {
  }

  lemma EventKeepsRowsTrue(h: History, rows: map<Path, C.Row>, now: Time, e: Event)
    requires ChangesShow(h) && HintsNeverRecur(h) && RowsTrue(h, rows, now) && Happened(h, rows, now, e)
    requires QuietEvent(h, e) && NothingUnderneath(e)
    ensures RowsTrue(h, RowsAfter(rows, e), End(e)) && (Commits(e) ==> Exact(h, e))
  {
    hide ChangesShow, HintsNeverRecur, ScannedBetween, Glanced, RowsTrue, RowsRead, Exact, Commits, AllQuiet, Quiet,
        StableRead, Overwritten, NothingUnderneath;
    CommitsAttempt(e);
    if e.Navigated? {
      RowsStayTrue(h, rows, now, e.at);
      StoringKeepsRowsTrue(h, rows, [e.nav], e.at);
    } else if Commits(e) {
      CommitIsExact(h, rows, now, e);
      RowsStayTrue(h, RowsRead(e.scan, e.inPlace, e.during), e.check.first, e.check.end);
      StoringKeepsRowsTrue(h, RowsRead(e.scan, e.inPlace, e.during), e.late, e.check.end);
    } else {
      RowsStayTrue(h, rows, now, e.check.end);
      assert NavsRead(h, e.during, e.check.end);
      StoringKeepsRowsTrue(h, rows, e.during, e.check.end);
      StoringKeepsRowsTrue(h, Overwritten(rows, e.during), e.late, e.check.end);
    }
  }

  lemma CommitsAttempt(e: Event)
    ensures Commits(e) ==> e.Attempted? && C.Hashed(e.scan) <= e.scan.disk.Keys
  {
  }

  /** In every run with quiet reads and nothing underneath an update in place, every commit verified exact
      contents, although a scan trusts the rows that earlier commits and navigation reads left and navigation
      reads go on beside it; and every row ever stored was once true. */
  lemma {:induction false} EveryCommitIsExact(h: History, rows: map<Path, C.Row>, now: Time, run: seq<Event>)
    requires ChangesShow(h) && HintsNeverRecur(h) && RowsTrue(h, rows, now) && Run(h, rows, now, run)
    requires forall i | 0 <= i < |run| :: QuietEvent(h, run[i]) && NothingUnderneath(run[i])
    ensures forall i | 0 <= i < |run| && Commits(run[i]) :: Exact(h, run[i])
    ensures RowsTrue(h, RowsAtEnd(rows, run), EndOf(now, run))
    decreases |run|
  {
    hide ChangesShow, HintsNeverRecur, Happened, Commits, Exact, RowsTrue, QuietEvent, NothingUnderneath;
    if run != [] {
      EventKeepsRowsTrue(h, rows, now, run[0]);
      EveryCommitIsExact(h, RowsAfter(rows, run[0]), End(run[0]), run[1..]);
      forall i | 0 <= i < |run| && Commits(run[i]) ensures Exact(h, run[i]) {
        if i > 0 {
          assert run[1..][i - 1] == run[i];
        }
      }
    }
  }

  // The hypotheses are needed

  const OLD := Version("aaa", C.Hint(3, 7, 1), FileId(1, 1))
  const NEW := Version("bbb", C.Hint(3, 7, 2), FileId(1, 1))

  /** A rewrite in place, of the same size, that sets the modification time back. */
  ghost function Rewritten(t: Time): map<Path, Version> { if t <= 1 then map["f" := OLD] else map["f" := NEW] }

  const FIRST_SCAN := C.Scan(map[], map["f" := OLD.hint], {}, false, map["f" := C.Snapshot(NEW.hint, "aaa")])
  const REWRITTEN_INSIDE := Attempted(
    FIRST_SCAN, Clock(map["f" := 0], map["f" := Read(0, 1, 1, 2)], 0, 2), {}, [],
    Check(map["f" := NEW.hint], map["f" := 3], 3, 3), [], None, None)

  lemma RewriteShows()
    ensures ChangesShow(Rewritten) && HintsNeverRecur(Rewritten)
  {
  }

  lemma RewriteIsRead()
    ensures C.Hashed(FIRST_SCAN) == {"f"}
    ensures ReadBetween(Rewritten, "f", FIRST_SCAN.disk["f"], REWRITTEN_INSIDE.clock.readAt["f"], 0, 2)
    ensures !Quiet(Rewritten, "f", REWRITTEN_INSIDE.clock.readAt["f"])
  {
    assert Rewritten(0)["f"].content != Rewritten(2)["f"].content;
  }

  lemma RewriteHappens()
    ensures Happened(Rewritten, map[], 0, REWRITTEN_INSIDE) && Commits(REWRITTEN_INSIDE)
    ensures RowsRead(FIRST_SCAN, {}, []) == map["f" := C.Row("aaa", NEW.hint)]
  {
    hide ReadBetween, Quiet;
    RewriteIsRead();
  }

  lemma SingleEvent(h: History, rows: map<Path, C.Row>, e: Event)
    requires Happened(h, rows, 0, e)
    ensures Run(h, rows, 0, [e])
  {
    assert Run(h, RowsAfter(rows, e), End(e), []);
    assert [e][1..] == [];
  }

  /** It falls between the bytes and the second lstat of a read: the read is taken for stable, the
      verification's hints match, the attempt commits, and the committed row is true at no instant. */
  lemma UnquietReadIsCommitted()
    ensures ChangesShow(Rewritten) && HintsNeverRecur(Rewritten) && RowsTrue(Rewritten, map[], 0)
    ensures Run(Rewritten, map[], 0, [REWRITTEN_INSIDE]) && Commits(REWRITTEN_INSIDE)
    ensures NothingUnderneath(REWRITTEN_INSIDE)
    ensures !QuietEvent(Rewritten, REWRITTEN_INSIDE) && !Exact(Rewritten, REWRITTEN_INSIDE)
    ensures "f" in RowsRead(FIRST_SCAN, {}, []) && !OnceTrue(Rewritten, "f", RowsRead(FIRST_SCAN, {}, [])["f"])
  {
    hide Happened, Commits, RowsRead, Quiet, ReadBetween, Run, ChangesShow, HintsNeverRecur, C.Hashed;
    RewriteShows();
    RewriteIsRead();
    RewriteHappens();
    SingleEvent(Rewritten, map[], REWRITTEN_INSIDE);
    assert forall t: Time :: !TrueAt(Rewritten, "f", RowsRead(FIRST_SCAN, {}, [])["f"], t);
    assert !ExactAt(Rewritten, RowsRead(FIRST_SCAN, {}, []), 2);
    assert LastRead(2, []) == 2;
  }

  const BEFORE := Version("aaa", C.Hint(3, 1, 1), FileId(1, 1))
  const BETWEEN := Version("bbb", C.Hint(3, 2, 2), FileId(1, 1))
  const AGAIN := Version("aaa", C.Hint(3, 4, 4), FileId(1, 1))

  /** A file that is changed, and changed back later. */
  ghost function ChangedBack(t: Time): map<Path, Version> {
    map["f" := if t <= 1 then BEFORE else if t <= 3 then BETWEEN else AGAIN]
  }

  const OLD_ROWS: map<Path, C.Row> := map["f" := C.Row("aaa", BEFORE.hint)]
  const RESCAN := C.Scan(OLD_ROWS, map["f" := AGAIN.hint], {}, false, map["f" := C.Snapshot(AGAIN.hint, "aaa")])
  const SEEN_BETWEEN := Nav("f", C.Snapshot(BETWEEN.hint, "bbb"), Read(2, 2, 3, 3))
  const WRITTEN_UNDERNEATH := Attempted(
    RESCAN, Clock(map["f" := 4], map["f" := Read(5, 5, 5, 5)], 4, 5), {"f"}, [SEEN_BETWEEN],
    Check(map["f" := AGAIN.hint], map["f" := 6], 6, 6), [], None, None)

  lemma ChangeShows()
    ensures ChangesShow(ChangedBack) && HintsNeverRecur(ChangedBack)
  {
  }

  lemma BothReadsAreQuiet()
    ensures C.Hashed(RESCAN) == {"f"}
    ensures ReadBetween(ChangedBack, "f", RESCAN.disk["f"], Read(5, 5, 5, 5), 4, 5)
    ensures Quiet(ChangedBack, "f", Read(5, 5, 5, 5))
    ensures NavsRead(ChangedBack, [SEEN_BETWEEN], 6) && QuietNavs(ChangedBack, [SEEN_BETWEEN])
    ensures NavsRead(ChangedBack, [], 6) && QuietNavs(ChangedBack, [])
  {
  }

  lemma MixedRow()
    ensures RowsRead(RESCAN, {"f"}, [SEEN_BETWEEN]) == map["f" := MIXED]
  {
    assert [SEEN_BETWEEN][..0] == [];
    assert Overwritten(OLD_ROWS, [SEEN_BETWEEN]) == map["f" := C.Row("bbb", BETWEEN.hint)];
  }

  const MIXED := C.Row("bbb", AGAIN.hint)

  lemma MixedRowHappens()
    ensures Happened(ChangedBack, OLD_ROWS, 0, WRITTEN_UNDERNEATH) && Commits(WRITTEN_UNDERNEATH)
  {
    hide RowsRead, ReadBetween, NavsRead;
    BothReadsAreQuiet();
    MixedRow();
  }

  lemma MixedRowIsNeverTrue()
    ensures !OnceTrue(ChangedBack, "f", MIXED) && !ExactAt(ChangedBack, map["f" := MIXED], 6)
  {
    assert forall t: Time :: !TrueAt(ChangedBack, "f", MIXED, t);
    var rows: map<Path, C.Row> := map["f" := MIXED];
    assert "f" in rows && !TrueAt(ChangedBack, "f", rows["f"], 6);
  }

  lemma UnderneathIsQuiet()
    ensures QuietEvent(ChangedBack, WRITTEN_UNDERNEATH) && !NothingUnderneath(WRITTEN_UNDERNEATH)
  {
    hide Quiet, QuietNavs;
    BothReadsAreQuiet();
    assert WRITTEN_UNDERNEATH.during[0].path in WRITTEN_UNDERNEATH.inPlace;
  }

  lemma UnderneathIsNotExact()
    ensures !Exact(ChangedBack, WRITTEN_UNDERNEATH)
  {
    hide RowsRead, ExactAt;
    MixedRow();
    MixedRowIsNeverTrue();
    assert LastRead(5, [SEEN_BETWEEN]) <= 6;
  }

  /** A navigation read of the content in between, committed after the scan loaded the old row: the scan finds
      the old content under a new hint and updates the hint alone. All reads are quiet, the verification's hints
      match, the attempt commits, and the row is true at no instant. */
  lemma MixedRowIsCommitted()
    ensures ChangesShow(ChangedBack) && HintsNeverRecur(ChangedBack) && RowsTrue(ChangedBack, OLD_ROWS, 0)
    ensures Run(ChangedBack, OLD_ROWS, 0, [WRITTEN_UNDERNEATH]) && Commits(WRITTEN_UNDERNEATH)
    ensures QuietEvent(ChangedBack, WRITTEN_UNDERNEATH)
    ensures !NothingUnderneath(WRITTEN_UNDERNEATH) && !Exact(ChangedBack, WRITTEN_UNDERNEATH)
    ensures RowsRead(RESCAN, {"f"}, [SEEN_BETWEEN]) == map["f" := MIXED] && !OnceTrue(ChangedBack, "f", MIXED)
  {
    hide RowsRead, Run, ChangesShow, HintsNeverRecur, Happened, Commits, QuietEvent, Exact, OnceTrue, NothingUnderneath;
    ChangeShows();
    MixedRow();
    MixedRowHappens();
    MixedRowIsNeverTrue();
    UnderneathIsQuiet();
    UnderneathIsNotExact();
    assert TrueAt(ChangedBack, "f", OLD_ROWS["f"], 0);
    SingleEvent(ChangedBack, OLD_ROWS, WRITTEN_UNDERNEATH);
  }
}
