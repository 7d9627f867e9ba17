/** The graph part of scripts/migration_gate.py: is the set of migrations one linear chain? */
module MigrationGate {
  import opened Options
  import opened Ordering

  type Revision = string
  type Parents = map<Revision, Option<Revision>>

  datatype GateError =
    | MissingParents(revisions: seq<Revision>)
    | RootCount(roots: seq<Revision>)
    | HeadCount(heads: seq<Revision>)
    | CycleAt(revision: Revision)
    | NotLinear

  /** The literal a migration file assigns: a string, `None`, or anything else. */
  datatype Literal = Text(text: string) | Nothing | Other
  datatype Migration = Migration(revision: Literal, downRevision: Literal)
  datatype GraphResult = Graph(parents: Parents) | Raised

  /** Root first, then each revision after its parent. */
  ghost predicate LinearChain(p: Parents, order: seq<Revision>) {
    && NoDuplicates(order) && Elements(order) == p.Keys
    && order != [] && order[0] in p && p[order[0]] == None
    && forall i | 0 < i < |order| :: FollowsParent(p, order, i)
  }

  ghost predicate FollowsParent(p: Parents, order: seq<Revision>, i: nat) {
    0 < i < |order| && order[i] in p && p[order[i]] == Some(order[i - 1])
  }

  function Referenced(p: Parents): set<Revision> {
    set r | r in p && p[r].Some? :: p[r].value
  }

  function Roots(p: Parents): set<Revision> {
    set r | r in p && p[r] == None
  }

  function Lookup(p: Parents, r: Revision): Option<Revision> {
    if r in p then p[r] else None
  }

  /** The walk `head, parent, grandparent, ...` with no repetition; `next` is where it would go on. */
  ghost predicate Walk(p: Parents, head: Revision, walk: seq<Revision>, next: Option<Revision>) {
    && NoDuplicates(walk)
    && (forall i | 0 <= i < |walk| - 1 :: Lookup(p, walk[i]) == Some(walk[i + 1]))
    && if walk == [] then next == Some(head) else walk[0] == head && next == Lookup(p, walk[|walk| - 1])
  }

  // The counting argument

  lemma {:induction false} ImageIsNoLarger(p: Parents, s: set<Revision>)
    requires s <= p.Keys && forall r | r in s :: p[r].Some?
    ensures |set r | r in s :: p[r].value| <= |s|
  {
    if s != {} {
      var x :| x in s;
      ImageIsNoLarger(p, s - {x});
      assert (set r | r in s :: p[r].value) == (set r | r in s - {x} :: p[r].value) + {p[x].value};
    }
  }

  /** One root, one head, and every parent present. */
  ghost predicate OneRootOneHead(p: Parents, root: Revision, head: Revision) {
    && root in p && (forall r | r in p :: p[r] == None <==> r == root)
    && head in p && (forall r | r in p :: r in Referenced(p) <==> r != head)
    && (forall r | r in p && p[r].Some? :: p[r].value in p)
  }

  /** If two revisions shared a parent, leaving one of them out would lose no parent. */
  lemma SharedParentImage(p: Parents, root: Revision, head: Revision, a: Revision, b: Revision)
    requires OneRootOneHead(p, root, head)
    requires a in p && b in p && p[a].Some? && p[a] == p[b] && a != b
    ensures p.Keys - {head} == set r | r in p.Keys - {root} - {b} :: p[r].value
  {
    var image := set r | r in p.Keys - {root} - {b} :: p[r].value;
    forall q | q in p.Keys - {head} ensures q in image {
      assert q in Referenced(p);
      var c :| c in p && p[c] == Some(q);
      var d := if c == b then a else c;
      assert d in p.Keys - {root} - {b} && p[d].value == q;
    }
    forall q | q in image ensures q in p.Keys - {head} {
      var c :| c in p.Keys - {root} - {b} && p[c].value == q;
      assert q in Referenced(p);
    }
  }

  /** As many revisions have a parent as are a parent, so no two share one. */
  lemma NoSharedParent(p: Parents, root: Revision, head: Revision, a: Revision, b: Revision)
    requires OneRootOneHead(p, root, head)
    requires a in p && b in p && p[a].Some? && p[a] == p[b]
    ensures a == b
  {
    ImageIsNoLarger(p, p.Keys - {root} - {b});
    assert |p.Keys - {root} - {b}| < |p.Keys - {head}|;
    if a != b {
      SharedParentImage(p, root, head, a, b);
      assert false;
    }
  }

  lemma WalkEndsAtTheRoot(p: Parents, root: Revision, head: Revision, walk: seq<Revision>, next: Option<Revision>)
    requires OneRootOneHead(p, root, head)
    requires Walk(p, head, walk, next) && walk != [] && (next.Some? ==> next.value in walk)
    ensures next == None
  {
    if next.Some? {
      var i :| 0 <= i < |walk| && walk[i] == next.value;
      assert next.value in Referenced(p);
      assert Lookup(p, walk[i - 1]) == Some(walk[i]);
      NoSharedParent(p, root, head, walk[i - 1], walk[|walk| - 1]);
      assert false;
    }
  }

  lemma ParentIsMissedToo(p: Parents, root: Revision, head: Revision, walk: seq<Revision>, r: Revision)
    requires OneRootOneHead(p, root, head) && Walk(p, head, walk, None) && r in p && r !in walk
    ensures p[r].Some? && p[r].value in p && p[r].value !in walk
  {
    var n := |walk|;
    assert walk[0] == head;
    assert walk[n - 1] in p by {
      if n > 1 { assert Lookup(p, walk[n - 2]) == Some(walk[n - 1]); }
    }
    assert walk[n - 1] == root;
    assert p[r].value in Referenced(p);
    forall i | 0 <= i < n ensures walk[i] != p[r].value {
      if 0 < i {
        assert Lookup(p, walk[i - 1]) == Some(walk[i]);
        if walk[i] == p[r].value {
          NoSharedParent(p, root, head, walk[i - 1], r);
          assert false;
        }
      }
    }
  }

  /** Missed revisions starting at r, each followed by its parent. */
  ghost predicate Ascent(p: Parents, walk: seq<Revision>, path: seq<Revision>, r: Revision) {
    && path != [] && path[0] == r && NoDuplicates(path)
    && (forall i | 0 <= i < |path| :: path[i] in p && path[i] !in walk)
    && (forall i | 0 <= i < |path| - 1 :: Lookup(p, path[i]) == Some(path[i + 1]))
  }

  /** A cycle of missed revisions through r: the last one's parent is r again. */
  ghost predicate MissedCycle(p: Parents, walk: seq<Revision>, cycle: seq<Revision>, r: Revision) {
    Ascent(p, walk, cycle, r) && Lookup(p, cycle[|cycle| - 1]) == Some(r)
  }

  lemma AscentExtends(p: Parents, walk: seq<Revision>, path: seq<Revision>, r: Revision, q: Revision)
    requires Ascent(p, walk, path, r) && Lookup(p, path[|path| - 1]) == Some(q)
    requires q in p && q !in walk && q !in path
    ensures Ascent(p, walk, path + [q], r)
  {
    var longer := path + [q];
    forall i | 0 <= i < |longer| ensures longer[i] in p && longer[i] !in walk {
      assert i < |path| ==> longer[i] == path[i];
    }
    forall i | 0 <= i < |longer| - 1 ensures Lookup(p, longer[i]) == Some(longer[i + 1]) {
      assert i < |path| - 1 ==> Lookup(p, path[i]) == Some(path[i + 1]);
    }
  }

  /** The parent of the last revision closes the cycle or is new: it cannot be the parent of an earlier one. */
  lemma AscentReturnsToStart(p: Parents, root: Revision, head: Revision, walk: seq<Revision>, path: seq<Revision>,
                             r: Revision, q: Revision)
    requires OneRootOneHead(p, root, head) && Ascent(p, walk, path, r)
    requires Lookup(p, path[|path| - 1]) == Some(q) && q in path
    ensures q == r
  {
    hide OneRootOneHead;
    var last := path[|path| - 1];
    var i :| 0 <= i < |path| && path[i] == q;
    if i > 0 {
      assert Lookup(p, path[i - 1]) == Some(path[i]);
      NoSharedParent(p, root, head, path[i - 1], last);
      assert false;
    }
  }

  lemma AscentGoesOn(p: Parents, root: Revision, head: Revision, walk: seq<Revision>, path: seq<Revision>, r: Revision)
    requires OneRootOneHead(p, root, head) && Walk(p, head, walk, None) && Ascent(p, walk, path, r)
    ensures MissedCycle(p, walk, path, r) || exists q :: Ascent(p, walk, path + [q], r)
  {
    hide OneRootOneHead, Walk, NoDuplicates;
    var last := path[|path| - 1];
    ParentIsMissedToo(p, root, head, walk, last);
    var q := p[last].value;
    if q in path {
      AscentReturnsToStart(p, root, head, walk, path, r, q);
    } else {
      AscentExtends(p, walk, path, r, q);
    }
  }

  lemma AscentIsShort(p: Parents, walk: seq<Revision>, path: seq<Revision>, r: Revision)
    requires Ascent(p, walk, path, r)
    ensures |path| <= |p.Keys|
  {
    DistinctCounts(path);
    assert Elements(path) <= p.Keys;
    SubsetIsNoLarger(Elements(path), p.Keys);
  }

  lemma SubsetIsNoLarger(a: set<Revision>, b: set<Revision>)
    requires a <= b
    ensures |a| <= |b|
  {
    assert b == a + (b - a);
  }

  lemma {:induction false} CloseTheCycle(p: Parents, root: Revision, head: Revision, walk: seq<Revision>,
                                         path: seq<Revision>, r: Revision) returns (cycle: seq<Revision>)
    requires OneRootOneHead(p, root, head) && Walk(p, head, walk, None) && Ascent(p, walk, path, r)
    ensures MissedCycle(p, walk, cycle, r)
    decreases |p.Keys| - |path|
  {
    hide Ascent, OneRootOneHead, Walk;
    cycle := path;
    AscentGoesOn(p, root, head, walk, path, r);
    if !MissedCycle(p, walk, path, r) {
      var q :| Ascent(p, walk, path + [q], r);
      AscentIsShort(p, walk, path + [q], r);
      cycle := CloseTheCycle(p, root, head, walk, path + [q], r);
    }
  }

  /** What the walk misses lies on cycles: from every missed revision the parents lead, through missed
      revisions only, back to it. */
  lemma OnlyCyclesAreMissed(p: Parents, root: Revision, head: Revision, walk: seq<Revision>, r: Revision)
    returns (cycle: seq<Revision>)
    requires OneRootOneHead(p, root, head) && Walk(p, head, walk, None) && r in p && r !in walk
    ensures MissedCycle(p, walk, cycle, r)
  {
    assert Ascent(p, walk, [r], r);
    cycle := CloseTheCycle(p, root, head, walk, [r], r);
  }

  // The two directions of the verdict

  lemma {:induction false} WalkFollowsChain(p: Parents, order: seq<Revision>, walk: seq<Revision>,
                                            next: Option<Revision>)
    requires LinearChain(p, order) && Walk(p, order[|order| - 1], walk, next)
    ensures |walk| <= |order| && forall i | 0 <= i < |walk| :: walk[i] == order[|order| - 1 - i]
    decreases |walk|
  {
    if |walk| > 0 {
      var shorter := walk[..|walk| - 1];
      WalkFollowsChain(p, order, shorter, Some(walk[|walk| - 1]));
      var k := |shorter|;
      if k > 0 {
        assert shorter[k - 1] == order[|order| - k];
        assert Lookup(p, walk[k - 1]) == Some(walk[k]);
        assert k < |order| ==> FollowsParent(p, order, |order| - k);
      }
    }
  }

  lemma ChainMembers(p: Parents, order: seq<Revision>)
    requires LinearChain(p, order)
    ensures forall i | 0 <= i < |order| :: order[i] in p
    ensures forall r | r in p :: exists i :: 0 <= i < |order| && order[i] == r
  {
    forall i | 0 <= i < |order| ensures order[i] in p { assert order[i] in Elements(order); }
    forall r | r in p ensures exists i :: 0 <= i < |order| && order[i] == r { assert r in Elements(order); }
  }

  lemma ChainHasOneRootOneHead(p: Parents, order: seq<Revision>)
    requires LinearChain(p, order)
    ensures OneRootOneHead(p, order[0], order[|order| - 1])
  {
    var n := |order|;
    ChainMembers(p, order);
    forall r | r in p ensures p[r] == None <==> r == order[0] {
      var i :| 0 <= i < n && order[i] == r;
      assert i > 0 ==> FollowsParent(p, order, i);
    }
    ChainParents(p, order);
  }

  lemma ChainParents(p: Parents, order: seq<Revision>)
    requires LinearChain(p, order)
    ensures forall r | r in p && p[r].Some? :: p[r].value in p
    ensures forall r | r in p :: r in Referenced(p) <==> r != order[|order| - 1]
  {
    hide LinearChain;
    ChainIsNotEmpty(p, order);
    forall r | r in p && p[r].Some? ensures p[r].value in p && p[r].value != order[|order| - 1] {
      ParentIsEarlier(p, order, r);
    }
    forall r | r in p && r != order[|order| - 1] ensures r in Referenced(p) {
      HasChild(p, order, r);
    }
  }

  lemma ChainIsNotEmpty(p: Parents, order: seq<Revision>)
    requires LinearChain(p, order)
    ensures order != []
  {
  }

  lemma ParentIsEarlier(p: Parents, order: seq<Revision>, r: Revision)
    requires LinearChain(p, order) && r in p && p[r].Some?
    ensures order != [] && p[r].value in p && p[r].value != order[|order| - 1]
  {
    hide Elements;
    ChainMembers(p, order);
    var i :| 0 <= i < |order| && order[i] == r;
    assert FollowsParent(p, order, i);
  }

  lemma HasChild(p: Parents, order: seq<Revision>, r: Revision)
    requires LinearChain(p, order) && r in p && r != order[|order| - 1]
    ensures r in Referenced(p)
  {
    hide Elements;
    ChainMembers(p, order);
    var i :| 0 <= i < |order| && order[i] == r;
    assert FollowsParent(p, order, i + 1);
    assert p[order[i + 1]].Some? && p[order[i + 1]].value == r;
  }

  lemma CompleteWalkIsChain(p: Parents, head: Revision, walk: seq<Revision>)
    requires Walk(p, head, walk, None) && Elements(walk) == p.Keys
    ensures exists order :: LinearChain(p, order)
  {
    var n := |walk|;
    var order := seq(n, i requires 0 <= i < n => walk[n - 1 - i]);
    forall i | 0 <= i < n ensures walk[i] in p && walk[i] in order {
      assert walk[i] in Elements(walk) && walk[i] == order[n - 1 - i];
    }
    assert Elements(order) == Elements(walk);
    forall i | 0 < i < n ensures p[order[i]] == Some(order[i - 1]) {
      assert Lookup(p, walk[n - 1 - i]) == Some(walk[n - i]);
    }
    assert NoDuplicates(order);
    assert LinearChain(p, order);
  }

  lemma WalkCoversChain(p: Parents, order: seq<Revision>, walk: seq<Revision>)
    requires LinearChain(p, order) && Walk(p, order[|order| - 1], walk, None)
    ensures Elements(walk) == p.Keys
  {
    ChainMembers(p, order);
    WalkFollowsChain(p, order, walk, None);
    var n, k := |order|, |walk|;
    assert walk[k - 1] == order[n - k];
    assert k < n ==> FollowsParent(p, order, n - k);
    forall r | r in p ensures r in walk {
      var i :| 0 <= i < n && order[i] == r;
      assert walk[n - 1 - i] == r;
    }
    forall i | 0 <= i < n ensures walk[i] in p { assert walk[i] == order[n - 1 - i]; }
  }

  /** `migration_graph`: the parent map, or an exception for a malformed or repeated revision. */
  method MigrationGraph(files: seq<Migration>) returns (r: GraphResult)
    ensures r.Graph? <==>
              && (forall i | 0 <= i < |files| ::
                    files[i].revision.Text? && files[i].revision.text != "" && !files[i].downRevision.Other?)
              && (forall i, j | 0 <= i < j < |files| :: files[i].revision != files[j].revision)
    ensures r.Graph? ==>
              forall i | 0 <= i < |files| ::
                && files[i].revision.Text? && files[i].revision.text in r.parents
                && var parent := r.parents[files[i].revision.text];
                && (files[i].downRevision == Nothing <==> parent == None)
                && (files[i].downRevision.Text? ==> parent == Some(files[i].downRevision.text))
    ensures r.Graph? ==> forall rev | rev in r.parents :: FromFile(files, |files|, rev)
  {
    var parents: Parents := map[];
    for i := 0 to |files|
      invariant forall k | 0 <= k < i :: WellFormed(files[k]) && Recorded(parents, files[k])
      invariant forall j, k | 0 <= j < k < i :: files[j].revision != files[k].revision
      invariant forall rev | rev in parents :: FromFile(files, i, rev)
    {
      var f := files[i];
      if !WellFormed(f) {
        return Raised;
      }
      RevisionIsText(f);
      if f.revision.text in parents {
        return Raised;
      }
      forall k | 0 <= k < i ensures files[k].revision != f.revision {
        RecordedIsKey(parents, files[k]);
      }
      var next := parents[f.revision.text := if f.downRevision.Text? then Some(f.downRevision.text) else None];
      forall k | 0 <= k <= i ensures Recorded(next, files[k]) {
        RecordedStays(parents, files[k], f, next);
      }
      parents := next;
    }
    r := Graph(parents);
  }

  predicate WellFormed(f: Migration) {
    f.revision.Text? && f.revision.text != "" && !f.downRevision.Other?
  }

  predicate Recorded(parents: Parents, f: Migration) {
    && f.revision.Text? && f.revision.text in parents
    && parents[f.revision.text] == if f.downRevision.Text? then Some(f.downRevision.text) else None
  }

  ghost predicate FromFile(files: seq<Migration>, n: nat, rev: Revision) {
    exists k :: 0 <= k < n && k < |files| && files[k].revision == Text(rev)
  }

  lemma RevisionIsText(f: Migration)
    requires WellFormed(f)
    ensures f.revision.Text?
  {
  }

  lemma RecordedIsKey(parents: Parents, f: Migration)
    requires Recorded(parents, f)
    ensures f.revision.Text? && f.revision.text in parents
  {
  }

  lemma RecordedStays(parents: Parents, g: Migration, f: Migration, next: Parents)
    requires f.revision.Text? && f.revision.text !in parents && (Recorded(parents, g) || g == f)
    requires next == parents[f.revision.text := if f.downRevision.Text? then Some(f.downRevision.text) else None]
    ensures Recorded(next, g)
  {
  }

  /** What each error says is so. */
  ghost predicate Justified(p: Parents, e: GateError) {
    match e
    case MissingParents(m) => m != [] && Sorted(StringLe, m) && Elements(m) == Referenced(p) - p.Keys
    case RootCount(r) => |r| != 1 && Sorted(StringLe, r) && NoDuplicates(r) && Elements(r) == Roots(p)
    case HeadCount(h) => |h| != 1 && Sorted(StringLe, h) && NoDuplicates(h) && Elements(h) == p.Keys - Referenced(p)
    case CycleAt(c) => exists head, walk :: head in p && Walk(p, head, walk, Some(c)) && c in walk
    case NotLinear => !exists order :: LinearChain(p, order)
  }

  ghost predicate SortedSetOf(l: seq<Revision>, s: set<Revision>) {
    Sorted(StringLe, l) && NoDuplicates(l) && Elements(l) == s
  }

  /** The only revision that is no parent. */
  predicate SoleHead(p: Parents, h: Revision) {
    h in p && forall r | r in p :: (exists c | c in p :: p[c] == Some(r)) <==> r != h
  }

  /** The walk from `head` up to its end or its first repetition. */
  ghost predicate WholeWalk(p: Parents, head: Revision, walk: seq<Revision>, next: Option<Revision>) {
    Walk(p, head, walk, next) && walk != [] && (next.Some? ==> next.value in walk)
  }

  /** When the gate is to report each error: for parents that are no revision, for other than one revision
      without a parent, for other than one revision that is no parent, for a walk from the only one of these
      that comes back, and for a walk that misses a revision or leaves them. */
  ghost predicate Due(p: Parents, e: GateError) {
    match e
    case MissingParents(m) => m != [] && SortedSetOf(m, set r | r in p && p[r].Some? && p[r].value !in p :: p[r].value)
    case RootCount(l) => |l| != 1 && SortedSetOf(l, set r | r in p && p[r] == None)
    case HeadCount(l) => |l| != 1 && SortedSetOf(l, set r | r in p && forall c | c in p :: p[c] != Some(r))
    case CycleAt(c) => exists h, walk :: SoleHead(p, h) && WholeWalk(p, h, walk, Some(c))
    case NotLinear => exists h, walk, next ::
      SoleHead(p, h) && WholeWalk(p, h, walk, next) && Elements(walk) != p.Keys
  }

  lemma SortedSetIsUnique(a: seq<Revision>, b: seq<Revision>, s: set<Revision>)
    requires SortedSetOf(a, s) && SortedSetOf(b, s)
    ensures a == b
  {
    StringsAreOrdered();
    SortedListIsUnique(StringLe, a, b);
  }

  lemma {:induction false} WalksAgree(p: Parents, head: Revision, a: seq<Revision>, x: Option<Revision>,
                                      b: seq<Revision>, y: Option<Revision>, i: nat)
    requires Walk(p, head, a, x) && Walk(p, head, b, y) && i < |a| && i < |b|
    ensures a[i] == b[i]
  {
    if i > 0 {
      WalksAgree(p, head, a, x, b, y, i - 1);
      assert Lookup(p, a[i - 1]) == Some(a[i]) && Lookup(p, b[i - 1]) == Some(b[i]);
    }
  }

  lemma WalkGoesOn(p: Parents, head: Revision, a: seq<Revision>, x: Option<Revision>,
                   b: seq<Revision>, y: Option<Revision>)
    requires Walk(p, head, a, x) && Walk(p, head, b, y) && 0 < |a| < |b|
    ensures a == b[..|a|] && x == Some(b[|a|])
  {
    forall i: nat | i < |a| ensures a[i] == b[i] { WalksAgree(p, head, a, x, b, y, i); }
    assert Lookup(p, b[|a| - 1]) == Some(b[|a|]);
  }

  lemma NotMetBefore(b: seq<Revision>, n: nat)
    requires NoDuplicates(b) && n < |b|
    ensures b[n] !in b[..n]
  {
  }

  lemma WalkIsNoLonger(p: Parents, head: Revision, a: seq<Revision>, x: Option<Revision>,
                       b: seq<Revision>, y: Option<Revision>)
    requires WholeWalk(p, head, a, x) && WholeWalk(p, head, b, y)
    ensures |b| <= |a|
  {
    hide NoDuplicates;
    if |a| < |b| {
      WalkGoesOn(p, head, a, x, b, y);
      NotMetBefore(b, |a|);
    }
  }

  lemma WholeWalkIsUnique(p: Parents, head: Revision, a: seq<Revision>, x: Option<Revision>,
                          b: seq<Revision>, y: Option<Revision>)
    requires WholeWalk(p, head, a, x) && WholeWalk(p, head, b, y)
    ensures a == b && x == y
  {
    WalkIsNoLonger(p, head, a, x, b, y);
    WalkIsNoLonger(p, head, b, y, a, x);
    forall i: nat | i < |a| ensures a[i] == b[i] { WalksAgree(p, head, a, x, b, y, i); }
  }

  lemma SetsOfErrors(p: Parents)
    ensures Referenced(p) - p.Keys == set r | r in p && p[r].Some? && p[r].value !in p :: p[r].value
    ensures Roots(p) == set r | r in p && p[r] == None
    ensures p.Keys - Referenced(p) == set r | r in p && forall c | c in p :: p[c] != Some(r)
  {
    forall r | r in p ensures r in Referenced(p) <==> exists c | c in p :: p[c] == Some(r) {
    }
  }

  lemma SoleHeadIff(p: Parents, h: Revision)
    ensures SoleHead(p, h) <==> p.Keys - Referenced(p) == {h}
  {
    forall r | r in p ensures r in Referenced(p) <==> exists c | c in p :: p[c] == Some(r) {
    }
    if p.Keys - Referenced(p) == {h} {
      assert h in p.Keys - Referenced(p);
      forall r | r in p ensures r in Referenced(p) <==> r != h {
        assert r in p.Keys - Referenced(p) <==> r == h;
      }
    }
  }

  /** The errors before the walk, as the sorted lists give them. */
  lemma CountsDue(p: Parents, missing: seq<Revision>, roots: seq<Revision>, heads: seq<Revision>)
    requires SortedSetOf(missing, Referenced(p) - p.Keys) && SortedSetOf(roots, Roots(p))
    requires SortedSetOf(heads, p.Keys - Referenced(p))
    ensures forall e: GateError | e.MissingParents? :: Due(p, e) <==> e.revisions == missing != []
    ensures forall e: GateError | e.RootCount? :: Due(p, e) <==> e.roots == roots && |roots| != 1
    ensures forall e: GateError | e.HeadCount? :: Due(p, e) <==> e.heads == heads && |heads| != 1
  {
    hide Referenced, Roots, SortedSetOf;
    SetsOfErrors(p);
    forall e: GateError | Due(p, e)
      ensures e.MissingParents? ==> e.revisions == missing
      ensures e.RootCount? ==> e.roots == roots
      ensures e.HeadCount? ==> e.heads == heads
    {
      match e {
        case MissingParents(m) => SortedSetIsUnique(m, missing, Referenced(p) - p.Keys);
        case RootCount(l) => SortedSetIsUnique(l, roots, Roots(p));
        case HeadCount(l) => SortedSetIsUnique(l, heads, p.Keys - Referenced(p));
        case _ =>
      }
    }
  }

  lemma HeadsAgree(p: Parents, h: Revision, g: Revision)
    requires SoleHead(p, h) && SoleHead(p, g)
    ensures h == g
  {
    SoleHeadIff(p, h);
    SoleHeadIff(p, g);
    assert h in {g};
  }

  /** Which errors of the walk are due, when it is known. */
  lemma WalkErrorsDue(p: Parents, head: Revision, walk: seq<Revision>, next: Option<Revision>)
    requires SoleHead(p, head) && WholeWalk(p, head, walk, next)
    ensures forall c :: Due(p, CycleAt(c)) <==> next == Some(c)
    ensures Due(p, NotLinear) <==> Elements(walk) != p.Keys
  {
    hide SoleHead, WholeWalk;
    forall c | Due(p, CycleAt(c)) ensures next == Some(c) {
      var h, w :| SoleHead(p, h) && WholeWalk(p, h, w, Some(c));
      HeadsAgree(p, h, head);
      WholeWalkIsUnique(p, head, w, Some(c), walk, next);
    }
    if Due(p, NotLinear) {
      var h, w, x :| SoleHead(p, h) && WholeWalk(p, h, w, x) && Elements(w) != p.Keys;
      HeadsAgree(p, h, head);
      WholeWalkIsUnique(p, head, w, x, walk, next);
    }
  }

  lemma WalkErrorsNeedHead(p: Parents)
    requires forall h :: !SoleHead(p, h)
    ensures !Due(p, NotLinear) && forall c :: !Due(p, CycleAt(c))
  {
  }

  /** The `while` loop of `run_gate`: follow parents from the head until none is left or one repeats. */
  method WalkBack(parents: Parents, head: Revision)
    returns (visited: set<Revision>, current: Option<Revision>)
    ensures head in visited && (current.Some? ==> current.value in visited)
    ensures exists walk :: Walk(parents, head, walk, current) && Elements(walk) == visited
  {
    visited, current := {}, Some(head);
    ghost var walk: seq<Revision> := [];
    ghost var all := parents.Keys + Referenced(parents) + {head};
    while current.Some? && current.value !in visited
      invariant Walk(parents, head, walk, current) && Elements(walk) == visited
      invariant visited <= all && (current.Some? ==> current.value in all)
      invariant if walk == [] then current == Some(head) else head in visited
      decreases all - visited
    {
      visited := visited + {current.value};
      walk := walk + [current.value];
      current := Lookup(parents, current.value);
    }
  }

  lemma SetsOfOneRootOneHead(p: Parents, root: Revision, head: Revision)
    requires OneRootOneHead(p, root, head)
    ensures Roots(p) == {root} && p.Keys - Referenced(p) == {head} && Referenced(p) <= p.Keys
  {
  }

  lemma CountsAreJustified(p: Parents, missing: seq<Revision>, roots: seq<Revision>, heads: seq<Revision>)
    requires SortedSetOf(missing, Referenced(p) - p.Keys) && SortedSetOf(roots, Roots(p))
    requires SortedSetOf(heads, p.Keys - Referenced(p))
    ensures missing != [] ==> Justified(p, MissingParents(missing))
    ensures |roots| != 1 ==> Justified(p, RootCount(roots))
    ensures |heads| != 1 ==> Justified(p, HeadCount(heads))
  {
  }

  lemma SingletonIff(l: seq<Revision>, s: set<Revision>)
    requires SortedSetOf(l, s)
    ensures |l| == |s| && (l == [] <==> s == {})
    ensures forall x :: |l| == 1 && l[0] == x <==> s == {x}
  {
    DistinctCounts(l);
    assert |l| == 1 ==> Elements(l) == {l[0]};
    forall x | s == {x} ensures |l| == 1 && l[0] == x {
      assert |{x}| == 1 && l[0] in Elements(l);
    }
  }

  lemma HeadIff(p: Parents, heads: seq<Revision>)
    requires SortedSetOf(heads, p.Keys - Referenced(p))
    ensures |heads| == 1 ==> p.Keys - Referenced(p) == {heads[0]}
    ensures forall h :: |heads| == 1 && heads[0] == h <==> SoleHead(p, h)
  {
    hide SoleHead, Referenced, SortedSetOf;
    SingletonIff(heads, p.Keys - Referenced(p));
    forall h ensures SoleHead(p, h) <==> p.Keys - Referenced(p) == {h} { SoleHeadIff(p, h); }
  }

  lemma RegularIff(p: Parents, missing: seq<Revision>, roots: seq<Revision>, heads: seq<Revision>)
    requires SortedSetOf(missing, Referenced(p) - p.Keys) && SortedSetOf(roots, Roots(p))
    requires SortedSetOf(heads, p.Keys - Referenced(p))
    ensures missing == [] && |roots| == 1 && |heads| == 1 <==> exists root, h :: OneRootOneHead(p, root, h)
    ensures missing == [] && |roots| == 1 && |heads| == 1 ==> exists root :: OneRootOneHead(p, root, heads[0])
    ensures |roots| == |Roots(p)| && (missing == [] <==> Referenced(p) <= p.Keys)
  {
    hide OneRootOneHead, Roots, Referenced, SortedSetOf;
    SingletonIff(missing, Referenced(p) - p.Keys);
    SingletonIff(roots, Roots(p));
    SingletonIff(heads, p.Keys - Referenced(p));
    if Referenced(p) - p.Keys == {} {
      forall r | r in Referenced(p) ensures r in p.Keys { assert r !in Referenced(p) - p.Keys; }
    }
    if missing == [] && |roots| == 1 && |heads| == 1 {
      assert Roots(p) == {roots[0]} && p.Keys - Referenced(p) == {heads[0]};
      CountsGiveOneRootOneHead(p, roots[0], heads[0]);
    }
    forall root, h | OneRootOneHead(p, root, h) ensures missing == [] && |roots| == 1 && |heads| == 1 {
      SetsOfOneRootOneHead(p, root, h);
      assert roots[0] == root && heads[0] == h;
    }
  }

  /** The checks before the walk (lines 50-59). */
  method CountErrors(parents: Parents) returns (errors: seq<GateError>, head: Option<Revision>)
    ensures errors == [] <==> exists root, h :: OneRootOneHead(parents, root, h)
    ensures errors == [] <==> head.Some? && |Roots(parents)| == 1 && Referenced(parents) <= parents.Keys
    ensures head.Some? ==> parents.Keys - Referenced(parents) == {head.value}
    ensures errors == [] ==> exists root :: OneRootOneHead(parents, root, head.value)
    ensures forall e | e in errors :: Justified(parents, e)
    ensures forall e: GateError :: e in errors <==> !e.CycleAt? && !e.NotLinear? && Due(parents, e)
    ensures forall h :: head == Some(h) <==> SoleHead(parents, h)
  {
    hide Due, SoleHead, OneRootOneHead, Roots, Referenced, Justified;
    errors := [];
    var missing := SortedList(Referenced(parents) - parents.Keys);
    if missing != [] {
      errors := errors + [MissingParents(missing)];
    }
    var roots := SortedList(Roots(parents));
    var heads := SortedList(parents.Keys - Referenced(parents));
    if |roots| != 1 {
      errors := errors + [RootCount(roots)];
    }
    if |heads| != 1 {
      errors := errors + [HeadCount(heads)];
    }
    head := if |heads| == 1 then Some(heads[0]) else None;
    assert SortedSetOf(missing, Referenced(parents) - parents.Keys) && SortedSetOf(roots, Roots(parents));
    assert SortedSetOf(heads, parents.Keys - Referenced(parents));
    hide SortedSetOf, NoDuplicates, Sorted, Elements;
    CountsDue(parents, missing, roots, heads);
    CountsAreJustified(parents, missing, roots, heads);
    HeadIff(parents, heads);
    RegularIff(parents, missing, roots, heads);
  }

  lemma CountsGiveOneRootOneHead(p: Parents, root: Revision, head: Revision)
    requires Roots(p) == {root} && p.Keys - Referenced(p) == {head} && Referenced(p) <= p.Keys
    ensures OneRootOneHead(p, root, head)
  {
    assert root in Roots(p) && head in p.Keys - Referenced(p);
    forall r | r in p ensures p[r] == None <==> r == root { assert r in Roots(p) <==> r == root; }
    forall r | r in p ensures r in Referenced(p) <==> r != head {
      assert r in p.Keys - Referenced(p) <==> r == head;
    }
  }

  /** The graph checks of `run_gate` (lines 50-70): no error exactly when the revisions form one
      chain, whose end is then the reported head; and with one root, one head and no missing parent
      a cycle is never reported, only that the walk from the head missed revisions. */
  method GraphErrors(parents: Parents) returns (errors: seq<GateError>, head: Option<Revision>)
    requires "" !in parents
    ensures errors == [] <==> exists order :: LinearChain(parents, order)
    ensures forall order | LinearChain(parents, order) :: head == Some(order[|order| - 1])
    ensures (exists root, h :: OneRootOneHead(parents, root, h)) ==> errors == [] || errors == [NotLinear]
    ensures forall e | e in errors :: Justified(parents, e)
    ensures forall e :: e in errors <==> Due(parents, e)
    ensures forall h :: head == Some(h) <==> SoleHead(parents, h)
  {
    hide Due, SoleHead, OneRootOneHead;
    errors, head := CountErrors(parents);
    if head == None { WalkErrorsNeedHead(parents); }
    ghost var regular := errors == [];
    forall order | LinearChain(parents, order) ensures regular && head == Some(order[|order| - 1]) {
      ChainHasOneRootOneHead(parents, order);
      assert order[|order| - 1] in parents.Keys - Referenced(parents);
    }
    if head.Some? {
      assert head.value in parents.Keys - Referenced(parents);
      var visited, current := WalkBack(parents, head.value);
      ghost var walk :| Walk(parents, head.value, walk, current) && Elements(walk) == visited;
      WalkErrorsDue(parents, head.value, walk, current);
      if current.Some? {
        errors := errors + [CycleAt(current.value)];
      }
      if visited != parents.Keys {
        errors := errors + [NotLinear];
      }
      if regular {
        var root :| OneRootOneHead(parents, root, head.value);
        WalkEndsAtTheRoot(parents, root, head.value, walk, current);
        forall order | LinearChain(parents, order) ensures visited == parents.Keys {
          WalkCoversChain(parents, order, walk);
        }
      }
      if errors == [] {
        CompleteWalkIsChain(parents, head.value, walk);
      }
    }
  }
}
