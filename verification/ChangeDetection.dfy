/** `classify_changes` and `_detect_renames` (src/ai_layer/memory/identity.py:257-354): a fast path that
    hashes only candidate files, against a comparison of all hashes. */
module ChangeDetection {
  import opened Ordering

  type Path = string
  type Digest = string
  datatype Hint = Hint(size: int, mtimeNs: int, ctimeNs: int)
  /** A stored file row: its content hash (empty when unknown) and the stat hint stored with it. */
  datatype Row = Row(hash: Digest, hint: Hint)
  datatype Snapshot = Snapshot(hint: Hint, contentSha256: Digest)
  datatype Rename = Rename(from: Path, to: Path)

  datatype ChangeSet = ChangeSet(
    added: seq<Path>, modified: seq<Path>, deleted: seq<Path>, same: seq<Path>, metadataOnly: seq<Path>,
    renamed: seq<Rename>, snapshots: map<Path, Snapshot>, hashesCalculated: nat)

  datatype Outcome = Classified(changes: ChangeSet) | ChangedDuringScan(path: Path)

  /** One classification problem. `disk` is what a stable read of each path returns; a path missing
      from it cannot be read stably. */
  datatype Scan = Scan(previous: map<Path, Row>, hints: map<Path, Hint>, gitCandidates: set<Path>, forceVerifyAll: bool,
                       disk: map<Path, Snapshot>)

  predicate NeedsHash(s: Scan, p: Path)
    requires p in s.hints
  {
    p !in s.previous || s.previous[p].hash == "" || s.previous[p].hint != s.hints[p]
    || p in s.gitCandidates || s.forceVerifyAll
  }

  function Hashed(s: Scan): set<Path> {
    set p | p in s.hints && NeedsHash(s, p)
  }

  function AddedPaths(s: Scan): set<Path> { s.hints.Keys - s.previous.Keys }

  function DeletedPaths(s: Scan): set<Path> { s.previous.Keys - s.hints.Keys }

  /** Hashed files whose content differs from the stored hash. */
  function ModifiedPaths(s: Scan): set<Path> {
    set p | p in Hashed(s) && p in s.previous && p in s.disk && s.disk[p].contentSha256 != s.previous[p].hash
  }

  function UnchangedPaths(s: Scan): set<Path> {
    s.hints.Keys * s.previous.Keys - ModifiedPaths(s)
  }

  ghost predicate SortedSet(l: seq<Path>, s: set<Path>) {
    Sorted(StringLe, l) && NoDuplicates(l) && Elements(l) == s
  }

  /** The members of `s` in `keep`, in the order of `s`. */
  function Selected(s: seq<Path>, keep: set<Path>): seq<Path> {
    if s == [] then []
    else AppendIf(Selected(s[..|s| - 1], keep), s[|s| - 1] in keep, s[|s| - 1])
  }

  lemma SelectedNext(s: seq<Path>, i: nat, keep: set<Path>)
    requires i < |s|
    ensures Selected(s[..i + 1], keep) == AppendIf(Selected(s[..i], keep), s[i] in keep, s[i])
  {
    assert s[..i + 1][..i] == s[..i];
  }

  lemma {:induction false} SelectedIsSorted(s: seq<Path>, all: set<Path>, keep: set<Path>)
    requires SortedSet(s, all)
    ensures SortedSet(Selected(s, keep), all * keep)
  {
    if s != [] {
      var n := |s| - 1;
      var last := s[n];
      assert s == s[..n] + [last];
      ElementsOfAppend(s[..n], last);
      ElementsOfAppend(Selected(s[..n], keep), last);
      assert Selected(s, keep) == AppendIf(Selected(s[..n], keep), last in keep, last);
      SelectedIsSorted(s[..n], Elements(s[..n]), keep);
      forall x | x in Selected(s[..n], keep) ensures StringLe(x, last) && x != last {
        assert x in Elements(Selected(s[..n], keep));
        var i :| 0 <= i < n && s[i] == x;
      }
    }
  }

  lemma SortedSetIsUnique(a: seq<Path>, b: seq<Path>, s: set<Path>)
    requires SortedSet(a, s) && SortedSet(b, s)
    ensures a == b
  {
    StringsAreOrdered();
    SortedListIsUnique(StringLe, a, b);
  }

  // Renames

  ghost predicate OldWith(s: Scan, p: Path, d: Digest) {
    p in DeletedPaths(s) && s.previous[p].hash == d && d != ""
  }

  ghost predicate NewWith(s: Scan, p: Path, d: Digest) {
    p in AddedPaths(s) && p in s.disk && s.disk[p].contentSha256 == d
  }

  ghost predicate OnlyOld(s: Scan, p: Path, d: Digest) {
    OldWith(s, p, d) && forall q | OldWith(s, q, d) :: q == p
  }

  ghost predicate OnlyNew(s: Scan, p: Path, d: Digest) {
    NewWith(s, p, d) && forall q | NewWith(s, q, d) :: q == p
  }

  ghost predicate RenamedBy(s: Scan, r: Rename, d: Digest) {
    OnlyOld(s, r.from, d) && OnlyNew(s, r.to, d)
  }

  /** Exactly the equal-hash pairs unique on both sides, ordered by hash. */
  ghost predicate IsRenames(s: Scan, renamed: seq<Rename>) {
    exists digests: seq<Digest> :: IsRenamesAt(s, renamed, digests)
  }

  ghost predicate IsRenamesAt(s: Scan, renamed: seq<Rename>, digests: seq<Digest>) {
    && Sorted(StringLe, digests) && NoDuplicates(digests) && |digests| == |renamed|
    && (forall i | 0 <= i < |renamed| :: RenamedBy(s, renamed[i], digests[i]))
    && (forall r, d | RenamedBy(s, r, d) :: d in digests)
  }

  lemma SameDigests(s: Scan, a: seq<Rename>, b: seq<Rename>, da: seq<Digest>, db: seq<Digest>)
    requires IsRenamesAt(s, a, da) && IsRenamesAt(s, b, db)
    ensures da == db
  {
    hide RenamedBy;
    forall d ensures d in da <==> d in db {
      if d in da { var i :| 0 <= i < |da| && da[i] == d; assert RenamedBy(s, a[i], d); }
      if d in db { var i :| 0 <= i < |db| && db[i] == d; assert RenamedBy(s, b[i], d); }
    }
    assert Elements(da) == Elements(db);
    SortedSetIsUnique(da, db, Elements(da));
  }

  lemma RenamesAreUnique(s: Scan, a: seq<Rename>, b: seq<Rename>)
    requires IsRenames(s, a) && IsRenames(s, b)
    ensures a == b
  {
    var da :| IsRenamesAt(s, a, da);
    var db :| IsRenamesAt(s, b, db);
    SameDigests(s, a, b, da, db);
    forall i | 0 <= i < |a| ensures a[i] == b[i] {
      assert RenamedBy(s, a[i], da[i]) && RenamedBy(s, b[i], da[i]);
      assert OldWith(s, b[i].from, da[i]) && NewWith(s, b[i].to, da[i]);
    }
  }

  /** Renames do not depend on which files were candidates for hashing. */
  lemma RenamesOfFullScan(s: Scan, renamed: seq<Rename>)
    ensures IsRenames(s, renamed) <==> IsRenames(FullScan(s), renamed)
  {
    assert forall p, d :: OldWith(s, p, d) <==> OldWith(FullScan(s), p, d);
    assert forall p, d :: NewWith(s, p, d) <==> NewWith(FullScan(s), p, d);
    assert forall r, d :: RenamedBy(s, r, d) <==> RenamedBy(FullScan(s), r, d);
    hide RenamedBy;
    assert forall digests :: IsRenamesAt(s, renamed, digests) <==> IsRenamesAt(FullScan(s), renamed, digests);
  }

  // The result of a classification

  ghost predicate IsClassification(s: Scan, c: ChangeSet) {
    && Hashed(s) <= s.disk.Keys
    && SortedSet(c.added, AddedPaths(s)) && SortedSet(c.modified, ModifiedPaths(s))
    && SortedSet(c.deleted, DeletedPaths(s)) && SortedSet(c.same, UnchangedPaths(s))
    && SortedSet(c.metadataOnly, UnchangedPaths(s) * Hashed(s))
    && c.snapshots.Keys == Hashed(s) && (forall p | p in c.snapshots :: c.snapshots[p] == s.disk[p])
    && c.hashesCalculated == |Hashed(s)|
    && IsRenames(s, c.renamed)
  }

  /** What each list says of a path: found now and not stored; stored, read and different; stored and gone; in
      both, and either not read at all or read with the stored hash. A path is read exactly when it is new, has
      no stored hash, shows another size or time, is named by Git, or everything is verified. */
  lemma ListsMean(s: Scan, c: ChangeSet, p: Path)
    requires IsClassification(s, c)
    ensures p in c.snapshots <==>
              && p in s.hints
              && (p !in s.previous || s.previous[p].hash == "" || s.previous[p].hint.size != s.hints[p].size
                  || s.previous[p].hint.mtimeNs != s.hints[p].mtimeNs
                  || s.previous[p].hint.ctimeNs != s.hints[p].ctimeNs || p in s.gitCandidates || s.forceVerifyAll)
    ensures p in c.snapshots ==> p in s.disk && c.snapshots[p] == s.disk[p]
    ensures p in c.added <==> p in s.hints && p !in s.previous
    ensures p in c.deleted <==> p in s.previous && p !in s.hints
    ensures p in c.modified <==>
              && p in s.hints && p in s.previous && p in c.snapshots
              && c.snapshots[p].contentSha256 != s.previous[p].hash
    ensures p in c.metadataOnly <==>
              && p in s.hints && p in s.previous && p in c.snapshots
              && c.snapshots[p].contentSha256 == s.previous[p].hash
    ensures p in c.same <==>
              && p in s.hints && p in s.previous
              && (p in c.snapshots ==> c.snapshots[p].contentSha256 == s.previous[p].hash)
  {
    hide IsRenames;
    forall l, all | SortedSet(l, all) ensures p in l <==> p in all {
      assert p in l <==> p in Elements(l);
    }
  }

  /** A deleted and an added path of one content, which no other deleted path had and no other added path has. */
  ghost predicate OnlyPair(s: Scan, c: ChangeSet, r: Rename) {
    && r.from in c.deleted && r.from in s.previous && r.to in c.added && r.to in c.snapshots
    && var d := s.previous[r.from].hash;
    && d != "" && c.snapshots[r.to].contentSha256 == d
    && (forall p | p in c.deleted && p in s.previous && s.previous[p].hash == d :: p == r.from)
    && (forall p | p in c.added && p in c.snapshots && c.snapshots[p].contentSha256 == d :: p == r.to)
  }

  /** A rename is reported exactly for such a pair. */
  lemma RenamesMean(s: Scan, c: ChangeSet, r: Rename)
    requires IsClassification(s, c)
    ensures r in c.renamed <==> OnlyPair(s, c, r)
  {
    hide IsClassification, RenamedBy;
    RenamesAreThose(s, c.renamed, r) by { ListsOf(s, c); }
    RenamedByMeans(s, c, r);
  }

  lemma ListsOf(s: Scan, c: ChangeSet)
    requires IsClassification(s, c)
    ensures IsRenames(s, c.renamed) && c.snapshots.Keys == Hashed(s) <= s.disk.Keys
  {
  }

  lemma RenamesAreThose(s: Scan, renamed: seq<Rename>, r: Rename)
    requires IsRenames(s, renamed)
    ensures r in renamed <==> exists d :: RenamedBy(s, r, d)
  {
    var digests :| IsRenamesAt(s, renamed, digests);
    if d :| RenamedBy(s, r, d) {
      var i :| 0 <= i < |digests| && digests[i] == d;
      assert RenamedBy(s, renamed[i], d);
      assert renamed[i] == r;
    }
  }

  lemma RenamedByMeans(s: Scan, c: ChangeSet, r: Rename)
    requires IsClassification(s, c)
    ensures (exists d :: RenamedBy(s, r, d)) <==> OnlyPair(s, c, r)
  {
    hide IsClassification;
    forall p ensures p in c.deleted <==> p in DeletedPaths(s) { ListsMean(s, c, p); }
    forall p ensures p in c.added <==> p in AddedPaths(s) { ListsMean(s, c, p); }
    forall p | p in AddedPaths(s) ensures p in c.snapshots && p in s.disk && c.snapshots[p] == s.disk[p] {
      ListsMean(s, c, p);
    }
    if d :| RenamedBy(s, r, d) {
      assert d == s.previous[r.from].hash;
      forall p | p in c.deleted && s.previous[p].hash == d ensures p == r.from { assert OldWith(s, p, d); }
      forall p | p in c.added && c.snapshots[p].contentSha256 == d ensures p == r.to { assert NewWith(s, p, d); }
    }
    if OnlyPair(s, c, r) {
      assert RenamedBy(s, r, s.previous[r.from].hash);
    }
  }

  /** The hypothesis about stat hints: a stored hash whose hint still matches is current. */
  ghost predicate HintsSound(s: Scan) {
    forall p | p in s.hints && p in s.previous && s.previous[p].hash != "" && s.previous[p].hint == s.hints[p] ::
      p in s.disk && s.disk[p].contentSha256 == s.previous[p].hash
  }

  /** The comparison that hashes everything and uses no hint. */
  function FullScan(s: Scan): Scan { s.(gitCandidates := {}, forceVerifyAll := true) }

  lemma FastPathFindsAllModifications(s: Scan)
    requires HintsSound(s)
    ensures ModifiedPaths(s) == ModifiedPaths(FullScan(s))
  {
  }

  /** The fast path refines the full comparison: whatever Git reports as candidates, and whether or
      not all files are forced through the hash, the five lists are the same. */
  lemma FastRefinesFull(s: Scan, c: ChangeSet, full: ChangeSet)
    requires HintsSound(s) && IsClassification(s, c) && IsClassification(FullScan(s), full)
    ensures c.added == full.added && c.modified == full.modified && c.deleted == full.deleted
    ensures c.same == full.same && c.renamed == full.renamed
  {
    FastPathFindsAllModifications(s);
    SortedSetIsUnique(c.added, full.added, AddedPaths(s));
    SortedSetIsUnique(c.modified, full.modified, ModifiedPaths(s));
    SortedSetIsUnique(c.deleted, full.deleted, DeletedPaths(s));
    SortedSetIsUnique(c.same, full.same, UnchangedPaths(s));
    RenamesOfFullScan(s, full.renamed);
    RenamesAreUnique(s, c.renamed, full.renamed);
  }

  /** The fast path can be taken whenever the full comparison can, and under the hypothesis never more often. */
  lemma FastSucceedsWithFull(s: Scan)
    requires HintsSound(s)
    ensures Hashed(s) <= s.disk.Keys <==> Hashed(FullScan(s)) <= s.disk.Keys
  {
    assert Hashed(FullScan(s)) == s.hints.Keys;
    forall p | p in s.hints && Hashed(s) <= s.disk.Keys ensures p in s.disk {
      assert p in Hashed(s) || p in s.previous;
    }
    assert Hashed(s) <= s.hints.Keys;
  }

  /** Added, modified and unchanged partition the current paths; deleted, modified and unchanged the old ones. */
  lemma ListsPartitionThePaths(s: Scan, c: ChangeSet)
    requires IsClassification(s, c)
    ensures Elements(c.added) + Elements(c.modified) + Elements(c.same) == s.hints.Keys
    ensures Elements(c.deleted) + Elements(c.modified) + Elements(c.same) == s.previous.Keys
    ensures Elements(c.added) !! Elements(c.modified) !! Elements(c.same) !! Elements(c.deleted)
  {
    PathsPartition(s);
    hide Sorted, NoDuplicates, IsRenames, AddedPaths, ModifiedPaths, UnchangedPaths, DeletedPaths;
  }

  lemma PathsPartition(s: Scan)
    ensures AddedPaths(s) + ModifiedPaths(s) + UnchangedPaths(s) == s.hints.Keys
    ensures DeletedPaths(s) + ModifiedPaths(s) + UnchangedPaths(s) == s.previous.Keys
    ensures AddedPaths(s) !! ModifiedPaths(s) !! UnchangedPaths(s) !! DeletedPaths(s)
  {
    assert forall p | p in ModifiedPaths(s) :: p in s.hints && p in s.previous;
    hide ModifiedPaths;
  }

  // The code's loops

  /** Paths grouped by digest (`setdefault(digest, []).append(path)`); paths without one are skipped. */
  ghost predicate Groups(m: map<Digest, seq<Path>>, done: set<Path>, digests: map<Path, Digest>) {
    && (forall p | p in done && p in digests :: digests[p] in m && p in m[digests[p]])
    && (forall d | d in m ::
          m[d] != [] && NoDuplicates(m[d])
          && forall p | p in m[d] :: p in done && p in digests && digests[p] == d)
  }

  method GroupByDigest(paths: seq<Path>, digests: map<Path, Digest>) returns (m: map<Digest, seq<Path>>)
    requires NoDuplicates(paths)
    ensures Groups(m, Elements(paths), digests)
  {
    m := map[];
    for i := 0 to |paths|
      invariant Groups(m, Elements(paths[..i]), digests)
    {
      var p := paths[i];
      assert Elements(paths[..i + 1]) == Elements(paths[..i]) + {p};
      if p in digests {
        var d := digests[p];
        assert p !in Elements(paths[..i]);
        m := m[d := (if d in m then m[d] else []) + [p]];
      }
    }
    assert paths[..|paths|] == paths;
  }

  ghost predicate Only(done: set<Path>, digests: map<Path, Digest>, d: Digest, p: Path) {
    p in done && p in digests && digests[p] == d && forall q | q in done && q in digests && digests[q] == d :: q == p
  }

  lemma SingletonGroup(m: map<Digest, seq<Path>>, done: set<Path>, digests: map<Path, Digest>, d: Digest)
    requires Groups(m, done, digests) && d in m && |m[d]| == 1
    ensures Only(done, digests, d, m[d][0])
  {
    assert m[d][0] in m[d];
  }

  lemma OnlyIsSingletonGroup(m: map<Digest, seq<Path>>, done: set<Path>, digests: map<Path, Digest>, d: Digest, p: Path)
    requires Groups(m, done, digests) && Only(done, digests, d, p)
    ensures d in m && |m[d]| == 1
  {
    DistinctCounts(m[d]);
    assert Elements(m[d]) == {p};
  }

  /** The two digest tables of `_detect_renames`. */
  ghost predicate DigestTables(s: Scan, old_: map<Path, Digest>, new_: map<Path, Digest>) {
    && (forall p, d | p in DeletedPaths(s) :: p in old_ && old_[p] == d <==> OldWith(s, p, d))
    && (forall p, d | p in AddedPaths(s) :: p in new_ && new_[p] == d <==> NewWith(s, p, d))
  }

  /** `_detect_renames` */
  method DetectRenames(s: Scan, deleted: seq<Path>, added: seq<Path>, snapshots: map<Path, Snapshot>)
    returns (renamed: seq<Rename>)
    requires SortedSet(deleted, DeletedPaths(s)) && SortedSet(added, AddedPaths(s))
    requires AddedPaths(s) <= snapshots.Keys <= s.disk.Keys && forall p | p in snapshots :: snapshots[p] == s.disk[p]
    ensures IsRenames(s, renamed)
  {
    var oldDigests := map p | p in s.previous && p !in s.hints && s.previous[p].hash != "" :: s.previous[p].hash;
    var newDigests := map p | p in snapshots :: snapshots[p].contentSha256;
    assert DigestTables(s, oldDigests, newDigests);
    var deletedByHash := GroupByDigest(deleted, oldDigests);
    var addedByHash := GroupByDigest(added, newDigests);
    renamed := PairUp(s, deletedByHash, addedByHash, oldDigests, newDigests);
  }

  /** The last loop of `_detect_renames`: digests with one old and one new path, in digest order. */
  method PairUp(ghost s: Scan, deletedByHash: map<Digest, seq<Path>>, addedByHash: map<Digest, seq<Path>>,
                ghost old_: map<Path, Digest>, ghost new_: map<Path, Digest>) returns (renamed: seq<Rename>)
    requires Groups(deletedByHash, DeletedPaths(s), old_) && Groups(addedByHash, AddedPaths(s), new_)
    requires DigestTables(s, old_, new_)
    ensures IsRenames(s, renamed)
  {
    hide DigestTables, Groups, RenamedBy;
    var common := SortedList(deletedByHash.Keys * addedByHash.Keys);
    ghost var paired := Paired(deletedByHash, addedByHash);
    renamed := [];
    ghost var digests: seq<Digest> := [];
    for i := 0 to |common|
      invariant |digests| == |renamed| && digests == Selected(common[..i], paired)
      invariant forall k | 0 <= k < |renamed| :: RenamedBy(s, renamed[k], digests[k])
    {
      var d := common[i];
      assert d in Elements(common);
      SelectedNext(common, i, paired);
      if |deletedByHash[d]| == 1 && |addedByHash[d]| == 1 {
        PairIsRename(s, deletedByHash, addedByHash, old_, new_, d);
        renamed := renamed + [Rename(deletedByHash[d][0], addedByHash[d][0])];
        digests := digests + [d];
      }
    }
    assert common[..|common|] == common;
    SelectedIsSorted(common, deletedByHash.Keys * addedByHash.Keys, paired);
    forall r, d | RenamedBy(s, r, d) ensures d in digests {
      RenameIsPaired(s, deletedByHash, addedByHash, old_, new_, r, d);
      assert d in Elements(digests);
    }
    assert IsRenamesAt(s, renamed, digests);
  }

  lemma PairIsRename(s: Scan, a: map<Digest, seq<Path>>, b: map<Digest, seq<Path>>,
                     old_: map<Path, Digest>, new_: map<Path, Digest>, d: Digest)
    requires Groups(a, DeletedPaths(s), old_) && Groups(b, AddedPaths(s), new_) && DigestTables(s, old_, new_)
    requires d in Paired(a, b)
    ensures RenamedBy(s, Rename(a[d][0], b[d][0]), d)
  {
    SingletonGroup(a, DeletedPaths(s), old_, d);
    SingletonGroup(b, AddedPaths(s), new_, d);
    hide Groups;
    assert forall q | OldWith(s, q, d) :: q in DeletedPaths(s);
    assert forall q | NewWith(s, q, d) :: q in AddedPaths(s);
  }

  lemma RenameIsPaired(s: Scan, a: map<Digest, seq<Path>>, b: map<Digest, seq<Path>>,
                       old_: map<Path, Digest>, new_: map<Path, Digest>, r: Rename, d: Digest)
    requires Groups(a, DeletedPaths(s), old_) && Groups(b, AddedPaths(s), new_) && DigestTables(s, old_, new_)
    requires RenamedBy(s, r, d)
    ensures d in Paired(a, b)
  {
    assert r.from in old_ && old_[r.from] == d && r.to in new_ && new_[r.to] == d;
    assert forall q | q in DeletedPaths(s) && q in old_ && old_[q] == d :: OldWith(s, q, d);
    assert forall q | q in AddedPaths(s) && q in new_ && new_[q] == d :: NewWith(s, q, d);
    hide Groups, RenamedBy, OldWith, NewWith;
    OnlyIsSingletonGroup(a, DeletedPaths(s), old_, d, r.from);
    OnlyIsSingletonGroup(b, AddedPaths(s), new_, d, r.to);
  }

  function Paired(a: map<Digest, seq<Path>>, b: map<Digest, seq<Path>>): set<Digest> {
    set d | d in a && d in b && |a[d]| == 1 && |b[d]| == 1
  }

  /** The lists after the paths in `done`. */
  ghost predicate Lists(s: Scan, done: seq<Path>, added: seq<Path>, modified: seq<Path>, same: seq<Path>,
                        metadataOnly: seq<Path>) {
    && added == Selected(done, AddedPaths(s)) && modified == Selected(done, ModifiedPaths(s))
    && same == Selected(done, UnchangedPaths(s)) && metadataOnly == Selected(done, UnchangedPaths(s) * Hashed(s))
  }

  function AppendIf(l: seq<Path>, b: bool, p: Path): seq<Path> { if b then l + [p] else l }

  lemma ListsNext(s: Scan, paths: seq<Path>, i: nat, added: seq<Path>, modified: seq<Path>, same: seq<Path>,
                  metadataOnly: seq<Path>)
    requires i < |paths| && paths[i] in s.hints && (NeedsHash(s, paths[i]) ==> paths[i] in s.disk)
    requires Lists(s, paths[..i], added, modified, same, metadataOnly)
    ensures var rel := paths[i];
            var differs := NeedsHash(s, rel) && rel in s.previous && s.disk[rel].contentSha256 != s.previous[rel].hash;
            Lists(s, paths[..i + 1], AppendIf(added, rel !in s.previous, rel), AppendIf(modified, differs, rel),
                  AppendIf(same, rel in s.previous && !differs, rel),
                  AppendIf(metadataOnly, rel in s.previous && NeedsHash(s, rel) && !differs, rel))
  {
    PathVerdict(s, paths[i]);
    hide AddedPaths, ModifiedPaths, UnchangedPaths, Hashed, NeedsHash;
    SelectedNext(paths, i, AddedPaths(s));
    SelectedNext(paths, i, ModifiedPaths(s));
    SelectedNext(paths, i, UnchangedPaths(s));
    SelectedNext(paths, i, UnchangedPaths(s) * Hashed(s));
  }

  /** The files read among `done`. */
  ghost predicate ReadSoFar(s: Scan, done: seq<Path>, snapshots: map<Path, Snapshot>) {
    snapshots.Keys == Elements(done) * Hashed(s) <= s.disk.Keys
    && forall p | p in snapshots :: snapshots[p] == s.disk[p]
  }

  lemma ReadNext(s: Scan, paths: seq<Path>, i: nat, snapshots: map<Path, Snapshot>)
    requires NoDuplicates(paths) && i < |paths| && paths[i] in s.hints && ReadSoFar(s, paths[..i], snapshots)
    ensures !NeedsHash(s, paths[i]) ==> ReadSoFar(s, paths[..i + 1], snapshots) && paths[i] in s.previous
    ensures NeedsHash(s, paths[i]) && paths[i] in s.disk ==>
              ReadSoFar(s, paths[..i + 1], snapshots[paths[i] := s.disk[paths[i]]]) && paths[i] !in snapshots
  {
    ElementsOfPrefix(paths, i);
    var before := Elements(paths[..i]);
    assert (before + {paths[i]}) * Hashed(s) == before * Hashed(s) + if NeedsHash(s, paths[i]) then {paths[i]} else {};
    assert paths[i] !in before;
  }

  /** The loop over the current paths; `Err` carries the path that could not be read. */
  method ClassifyCurrent(s: Scan, paths: seq<Path>) returns (r: Outcome)
    requires SortedSet(paths, s.hints.Keys)
    ensures r.Classified? ==>
              && Lists(s, paths, r.changes.added, r.changes.modified, r.changes.same, r.changes.metadataOnly)
              && ReadSoFar(s, paths, r.changes.snapshots) && r.changes.hashesCalculated == |r.changes.snapshots|
    ensures r.ChangedDuringScan? ==>
              r.path in Hashed(s) - s.disk.Keys && forall p | p in Hashed(s) - s.disk.Keys :: StringLe(r.path, p)
  {
    hide Sorted, Lists, ReadSoFar, NeedsHash;
    var added, modified, same, metadataOnly: seq<Path> := [], [], [], [];
    var snapshots: map<Path, Snapshot> := map[];
    var hashes: nat := 0;
    NothingYet(s);
    for i := 0 to |paths|
      invariant Lists(s, paths[..i], added, modified, same, metadataOnly)
      invariant ReadSoFar(s, paths[..i], snapshots) && hashes == |snapshots|
    {
      var rel := paths[i];
      assert rel in Elements(paths);
      ReadNext(s, paths, i, snapshots);
      if !NeedsHash(s, rel) {
        ListsNext(s, paths, i, added, modified, same, metadataOnly);
        same := same + [rel];
        continue;
      }
      if rel !in s.disk {
        FirstUnreadable(s, paths, i, snapshots);
        return ChangedDuringScan(rel);
      }
      ListsNext(s, paths, i, added, modified, same, metadataOnly);
      var snapshot := s.disk[rel];
      snapshots := snapshots[rel := snapshot];
      hashes := hashes + 1;
      if rel !in s.previous {
        added := added + [rel];
      } else if snapshot.contentSha256 != s.previous[rel].hash {
        modified := modified + [rel];
      } else {
        metadataOnly := metadataOnly + [rel];
        same := same + [rel];
      }
    }
    assert paths[..|paths|] == paths;
    r := Classified(ChangeSet(added, modified, [], same, metadataOnly, [], snapshots, hashes));
  }

  lemma NothingYet(s: Scan)
    ensures Lists(s, [], [], [], [], []) && ReadSoFar(s, [], map[])
  {
  }

  /** `classify_changes`: it fails on the first file, in path order, that needs a hash and cannot be read stably. */
  method ClassifyChanges(s: Scan) returns (r: Outcome)
    ensures r.Classified? <==> Hashed(s) <= s.disk.Keys
    ensures r.Classified? ==> IsClassification(s, r.changes)
    ensures r.ChangedDuringScan? ==>
              r.path in Hashed(s) - s.disk.Keys && forall p | p in Hashed(s) - s.disk.Keys :: StringLe(r.path, p)
  {
    var deleted := SortedList(s.previous.Keys - s.hints.Keys);
    var paths := SortedList(s.hints.Keys);
    r := ClassifyCurrent(s, paths);
    if r.Classified? {
      var c := r.changes;
      ListsAtEnd(s, paths, c.added, c.modified, c.same, c.metadataOnly);
      var renamed := DetectRenames(s, deleted, c.added, c.snapshots);
      r := Classified(c.(deleted := deleted, renamed := renamed));
    }
  }

  lemma ListsAtEnd(s: Scan, paths: seq<Path>, added: seq<Path>, modified: seq<Path>, same: seq<Path>,
                   metadataOnly: seq<Path>)
    requires SortedSet(paths, s.hints.Keys) && Lists(s, paths, added, modified, same, metadataOnly)
    ensures SortedSet(added, AddedPaths(s)) && SortedSet(modified, ModifiedPaths(s))
    ensures SortedSet(same, UnchangedPaths(s))
    ensures SortedSet(metadataOnly, UnchangedPaths(s) * Hashed(s))
    ensures s.hints.Keys * Hashed(s) == Hashed(s) && AddedPaths(s) <= Hashed(s)
  {
    KeptSets(s);
    hide SortedSet;
    SelectedIsSorted(paths, s.hints.Keys, AddedPaths(s));
    SelectedIsSorted(paths, s.hints.Keys, ModifiedPaths(s));
    SelectedIsSorted(paths, s.hints.Keys, UnchangedPaths(s));
    SelectedIsSorted(paths, s.hints.Keys, UnchangedPaths(s) * Hashed(s));
  }

  lemma PathVerdict(s: Scan, p: Path)
    ensures p in Hashed(s) <==> p in s.hints && NeedsHash(s, p)
    ensures p in AddedPaths(s) <==> p in s.hints && p !in s.previous
    ensures p in s.hints && !NeedsHash(s, p) ==> p in s.previous && p in UnchangedPaths(s) && p !in ModifiedPaths(s)
    ensures p in s.hints && p !in s.previous ==> p in Hashed(s) && p !in UnchangedPaths(s) && p !in ModifiedPaths(s)
    ensures p in Hashed(s) && p in s.previous && p in s.disk ==>
              (p in ModifiedPaths(s) <==> s.disk[p].contentSha256 != s.previous[p].hash)
              && (p in UnchangedPaths(s) <==> s.disk[p].contentSha256 == s.previous[p].hash)
  {
  }

  lemma FirstUnreadable(s: Scan, paths: seq<Path>, i: nat, snapshots: map<Path, Snapshot>)
    requires SortedSet(paths, s.hints.Keys) && i < |paths| && ReadSoFar(s, paths[..i], snapshots)
    ensures forall p | p in Hashed(s) - s.disk.Keys :: StringLe(paths[i], p)
  {
    StringsAreOrdered();
    forall p | p in Hashed(s) - s.disk.Keys ensures StringLe(paths[i], p) {
      assert p in Elements(paths);
      var k :| 0 <= k < |paths| && paths[k] == p;
      assert forall m | 0 <= m < i :: paths[m] in Elements(paths[..i]);
    }
  }

  lemma KeptSets(s: Scan)
    ensures s.hints.Keys * AddedPaths(s) == AddedPaths(s) && s.hints.Keys * ModifiedPaths(s) == ModifiedPaths(s)
    ensures s.hints.Keys * UnchangedPaths(s) == UnchangedPaths(s)
    ensures s.hints.Keys * (UnchangedPaths(s) * Hashed(s)) == UnchangedPaths(s) * Hashed(s)
    ensures s.hints.Keys * Hashed(s) == Hashed(s) && AddedPaths(s) <= Hashed(s)
  {
  }
}
