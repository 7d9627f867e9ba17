/** `_registered_overlap_groups` (src/ai_layer/core/repair.py:102-129): nested registered project
    roots grouped under the outermost one. A path is the sequence of its parts. */
module OverlapGroups {
  import opened Ordering

  type Path = seq<string>
  datatype Group = Group(parent: Path, children: seq<Path>)

  /** The parts with a slash between them. */
  function Joined(parts: seq<string>): string {
    if parts == [] then ""
    else if |parts| == 1 then parts[0]
    else parts[0] + "/" + Joined(parts[1..])
  }

  /** `str(path)`: the root part, which ends in its own slash, and the other parts with slashes between them. */
  function Text(p: Path): string {
    if p == [] then "" else p[0] + Joined(p[1..])
  }

  /** Sort key `(len(path.parts), str(path))`. */
  predicate KeyLe(a: Path, b: Path) {
    |a| < |b| || (|a| == |b| && StringLe(Text(a), Text(b)))
  }

  lemma KeysAreOrdered()
    ensures TotalPreorder(KeyLe)
  {
    StringsAreOrdered();
  }

  /** `child.relative_to(parent)` succeeds: `parent` is `child` or one of its ancestors. */
  predicate Within(child: Path, parent: Path) { parent <= child }

  predicate StrictlyWithin(child: Path, parent: Path) { parent < child }

  /** The outermost registered roots. */
  ghost predicate Minimal(roots: set<Path>, p: Path) {
    p in roots && forall q | q in roots :: !StrictlyWithin(p, q)
  }

  /** The outermost registered ancestor-or-self of a root. */
  ghost predicate TopmostAncestor(roots: set<Path>, child: Path, p: Path) {
    Minimal(roots, p) && Within(child, p)
  }

  lemma {:induction false} TopmostAncestorExists(roots: set<Path>, child: Path) returns (p: Path)
    requires child in roots
    ensures TopmostAncestor(roots, child, p)
    decreases |child|
  {
    if Minimal(roots, child) {
      p := child;
    } else {
      var q :| q in roots && StrictlyWithin(child, q);
      p := TopmostAncestorExists(roots, q);
    }
  }

  lemma PrefixesNest(p: Path, q: Path, child: Path)
    requires p <= child && q <= child && |p| <= |q|
    ensures p <= q
  {
    assert p == child[..|p|] && q == child[..|q|];
  }

  lemma TopmostAncestorIsUnique(roots: set<Path>, child: Path, p: Path, q: Path)
    requires TopmostAncestor(roots, child, p) && TopmostAncestor(roots, child, q)
    ensures p == q
  {
    if |p| <= |q| { PrefixesNest(p, q, child); }
    if |q| <= |p| { PrefixesNest(q, p, child); }
  }

  // The result

  ghost predicate IsGroup(roots: set<Path>, g: Group) {
    && Minimal(roots, g.parent) && g.children != []
    && Sorted(KeyLe, g.children) && NoDuplicates(g.children)
    && forall c :: c in g.children <==> c in roots && StrictlyWithin(c, g.parent)
  }

  ghost predicate IsGrouping(roots: set<Path>, groups: seq<Group>) {
    && (forall i | 0 <= i < |groups| :: IsGroup(roots, groups[i]))
    && (forall i, j | 0 <= i < j < |groups| ::
          groups[i].parent != groups[j].parent && KeyLe(groups[i].parent, groups[j].parent))
    && (forall c | c in roots && !Minimal(roots, c) :: exists g :: g in groups && c in g.children)
  }

  ghost function Detached(groups: seq<Group>): set<Path> {
    set g, c | g in groups && c in g.children :: c
  }

  /** A nested root is detached under exactly one parent, which is kept and is its topmost
      registered ancestor. */
  lemma DetachedOnce(roots: set<Path>, groups: seq<Group>, i: nat, j: nat, c: Path)
    requires IsGrouping(roots, groups) && i < |groups| && j < |groups|
    requires c in groups[i].children && c in groups[j].children
    ensures i == j && TopmostAncestor(roots, c, groups[i].parent)
    ensures groups[i].parent != c && groups[i].parent !in Detached(groups)
  {
    assert IsGroup(roots, groups[i]) && IsGroup(roots, groups[j]);
    TopmostAncestorIsUnique(roots, c, groups[i].parent, groups[j].parent);
    forall g | g in groups ensures groups[i].parent !in g.children {
      assert IsGroup(roots, g);
    }
  }

  /** What stays registered: exactly the outermost roots, none of them inside another. */
  lemma KeptRoots(roots: set<Path>, groups: seq<Group>)
    requires IsGrouping(roots, groups)
    ensures forall p :: p in roots - Detached(groups) <==> Minimal(roots, p)
    ensures forall p, q | p in roots - Detached(groups) && q in roots - Detached(groups) && Within(p, q) :: p == q
  {
    forall g, c | g in groups && c in g.children ensures !Minimal(roots, c) {
      assert IsGroup(roots, g);
    }
    forall p | p in roots && !Minimal(roots, p) ensures p in Detached(groups) {
      var g :| g in groups && p in g.children;
    }
  }

  // The algorithm

  method SortedRoots(registered: set<Path>) returns (roots: seq<Path>)
    ensures Sorted(KeyLe, roots) && NoDuplicates(roots) && Elements(roots) == registered
  {
    KeysAreOrdered();
    roots := [];
    var rest := registered;
    while rest != {}
      invariant rest <= registered
      invariant Sorted(KeyLe, roots) && NoDuplicates(roots) && Elements(roots) == registered - rest
      decreases |rest|
    {
      var x :| x in rest;
      InsertedElements(KeyLe, x, roots);
      roots, rest := Insert(KeyLe, x, roots), rest - {x};
    }
  }

  /** The roots below the outermost ones among `done`. */
  ghost function Below(roots: seq<Path>, done: seq<Path>): set<Path> {
    set c | c in roots && exists p :: p in done && Minimal(Elements(roots), p) && StrictlyWithin(c, p)
  }

  lemma ShorterComesFirst(roots: seq<Path>, i: nat, p: Path)
    requires Sorted(KeyLe, roots) && i < |roots| && p in roots && |p| < |roots[i]|
    ensures p in roots[..i]
  {
    var k :| 0 <= k < |roots| && roots[k] == p;
    assert forall m | i < m < |roots| :: KeyLe(roots[i], roots[m]);
  }

  /** When a root's turn comes, it has been detached exactly if it is not outermost. */
  lemma DetachedIffNested(roots: seq<Path>, i: nat)
    requires Sorted(KeyLe, roots) && i < |roots|
    ensures roots[i] in Below(roots, roots[..i]) <==> !Minimal(Elements(roots), roots[i])
  {
    var set_ := Elements(roots);
    if !Minimal(set_, roots[i]) {
      var p := TopmostAncestorExists(set_, roots[i]);
      ShorterComesFirst(roots, i, p);
    }
  }

  /** A root strictly inside an outermost one is not yet detached when the outermost one's turn comes. */
  lemma NotDetachedEarlier(roots: seq<Path>, i: nat, c: Path)
    requires NoDuplicates(roots) && i < |roots| && Minimal(Elements(roots), roots[i])
    requires c in roots && StrictlyWithin(c, roots[i])
    ensures c !in Below(roots, roots[..i])
  {
    forall p | p in roots[..i] && Minimal(Elements(roots), p) ensures !StrictlyWithin(c, p) {
      if StrictlyWithin(c, p) { TopmostAncestorIsUnique(Elements(roots), c, p, roots[i]); }
    }
  }

  lemma DescendantsComeLater(roots: seq<Path>, i: nat)
    requires Sorted(KeyLe, roots) && i < |roots|
    ensures forall c | c in roots && StrictlyWithin(c, roots[i]) :: c in roots[i + 1..]
  {
    forall c | c in roots && StrictlyWithin(c, roots[i]) ensures c in roots[i + 1..] {
      var k :| 0 <= k < |roots| && roots[k] == c;
      assert k > i by { assert forall m | 0 <= m < i :: KeyLe(roots[m], roots[i]); }
    }
  }

  /** What the inner loop has found among the roots after `i` and before `j`. */
  ghost predicate Descendants(roots: seq<Path>, i: nat, j: nat, children: seq<Path>)
    requires i < j <= |roots|
  {
    && Sorted(KeyLe, children) && NoDuplicates(children)
    && forall c :: c in children <==> c in roots[i + 1..j] && StrictlyWithin(c, roots[i])
  }

  lemma DescendantsNext(roots: seq<Path>, i: nat, j: nat, children: seq<Path>)
    requires Sorted(KeyLe, roots) && NoDuplicates(roots) && i < j < |roots| && Descendants(roots, i, j, children)
    ensures Descendants(roots, i, j + 1, if StrictlyWithin(roots[j], roots[i]) then children + [roots[j]] else children)
    ensures roots[j] !in children && roots[j] != roots[i]
  {
    hide KeyLe;
    assert roots[i + 1..j + 1] == roots[i + 1..j] + [roots[j]];
    forall c | c in children ensures KeyLe(c, roots[j]) && c != roots[j] {
      var k :| i + 1 <= k < j && roots[k] == c;
    }
  }

  lemma DescendantsFound(roots: seq<Path>, i: nat, children: seq<Path>)
    requires Sorted(KeyLe, roots) && i < |roots| && Descendants(roots, i, |roots|, children)
    requires Minimal(Elements(roots), roots[i])
    ensures forall c :: c in children <==> c in roots && StrictlyWithin(c, roots[i])
    ensures Below(roots, roots[..i]) + Elements(children) == Below(roots, roots[..i + 1])
  {
    hide KeyLe;
    DescendantsComeLater(roots, i);
    assert roots[i + 1..|roots|] == roots[i + 1..];
    assert roots[..i + 1] == roots[..i] + [roots[i]];
  }

  /** The inner loop: the roots after `i` inside `roots[i]` that are still attached. */
  method DetachChildren(roots: seq<Path>, i: nat, detached: set<Path>)
    returns (children: seq<Path>, detached': set<Path>)
    requires Sorted(KeyLe, roots) && NoDuplicates(roots) && i < |roots| && detached == Below(roots, roots[..i])
    requires Minimal(Elements(roots), roots[i])
    ensures Sorted(KeyLe, children) && NoDuplicates(children)
    ensures forall c :: c in children <==> c in roots && StrictlyWithin(c, roots[i])
    ensures detached' == detached + Elements(children) == Below(roots, roots[..i + 1])
  {
    hide KeyLe, Below, Minimal;
    children, detached' := [], detached;
    for j := i + 1 to |roots|
      invariant Descendants(roots, i, j, children) && detached' == detached + Elements(children)
    {
      hide Descendants;
      var child := roots[j];
      DescendantsNext(roots, i, j, children);
      if StrictlyWithin(child, roots[i]) { NotDetachedEarlier(roots, i, child); }
      if child !in detached' && Within(child, roots[i]) {
        ElementsOfAppend(children, child);
        children := children + [child];
        detached' := detached' + {child};
      }
    }
    DescendantsFound(roots, i, children);
  }

  method RegisteredOverlapGroups(registered: seq<Path>) returns (groups: seq<Group>)
    ensures IsGrouping(Elements(registered), groups)
  {
    var roots := SortedRoots(Elements(registered));
    ghost var all := Elements(roots);
    var detached: set<Path> := {};
    groups := [];
    for i := 0 to |roots|
      invariant detached == Below(roots, roots[..i])
      invariant forall k | 0 <= k < |groups| :: IsGroup(all, groups[k]) && groups[k].parent in roots[..i]
      invariant forall k, j | 0 <= k < j < |groups| ::
                  groups[k].parent != groups[j].parent && KeyLe(groups[k].parent, groups[j].parent)
      invariant forall c | c in detached :: exists g :: g in groups && c in g.children
    {
      hide Minimal, StrictlyWithin, KeyLe, Below;
      var parent := roots[i];
      DetachedIffNested(roots, i);
      assert roots[..i + 1] == roots[..i] + [parent];
      if parent !in detached {
        var children;
        children, detached := DetachChildren(roots, i, detached);
        if children != [] {
          ghost var before := groups;
          groups := groups + [Group(parent, children)];
          assert IsGroup(all, groups[|before|]);
          assert forall g | g in before :: g in groups;
        }
      } else {
        NestedAddsNothing(roots, i);
      }
    }
    assert roots[..|roots|] == roots;
    AllNestedAreBelow(roots);
  }

  lemma NestedAddsNothing(roots: seq<Path>, i: nat)
    requires i < |roots| && !Minimal(Elements(roots), roots[i])
    ensures Below(roots, roots[..i + 1]) == Below(roots, roots[..i])
  {
    assert roots[..i + 1] == roots[..i] + [roots[i]];
  }

  lemma AllNestedAreBelow(roots: seq<Path>)
    ensures forall c | c in roots && !Minimal(Elements(roots), c) :: c in Below(roots, roots)
  {
    forall c | c in roots && !Minimal(Elements(roots), c) ensures c in Below(roots, roots) {
      var p := TopmostAncestorExists(Elements(roots), c);
    }
  }

  // The order is determined

  /** The parts of a resolved path: the root, then names without a slash. */
  predicate IsResolved(p: Path) {
    p != [] && p[0] == "/" && forall i | 1 <= i < |p| :: p[i] != "" && '/' !in p[i]
  }

  lemma {:induction false} JoinedDetermines(a: seq<string>, b: seq<string>)
    requires |a| == |b| && Joined(a) == Joined(b)
    requires forall i | 0 <= i < |a| :: '/' !in a[i] && '/' !in b[i]
    ensures a == b
    decreases |a|
  {
    if |a| > 1 {
      FirstSlash(a[0], Joined(a[1..]), b[0], Joined(b[1..]));
      JoinedDetermines(a[1..], b[1..]);
      assert a == [a[0]] + a[1..] && b == [b[0]] + b[1..];
    }
  }

  lemma SlashAt(x: string, s: string, u: string)
    requires '/' !in x && u == x + "/" + s
    ensures |x| < |u| && u[|x|] == '/' && (forall i | 0 <= i < |x| :: u[i] != '/')
    ensures x == u[..|x|] && s == u[|x| + 1..]
  {
    assert forall i | 0 <= i < |x| :: u[i] == x[i];
  }

  lemma FirstSlash(x: string, s: string, y: string, t: string)
    requires '/' !in x && '/' !in y && x + "/" + s == y + "/" + t
    ensures x == y && s == t
  {
    var u := x + "/" + s;
    SlashAt(x, s, u);
    SlashAt(y, t, u);
    assert |x| == |y|;
  }

  /** Two resolved paths with the same sort key are the same path. */
  lemma KeyDetermines(a: Path, b: Path)
    requires IsResolved(a) && IsResolved(b) && KeyLe(a, b) && KeyLe(b, a)
    ensures a == b
  {
    StringsAreOrdered();
    hide StringLe;
    assert Text(a) == Text(b);
    assert Joined(a[1..]) == Text(a)[1..] && Joined(b[1..]) == Text(b)[1..];
    JoinedDetermines(a[1..], b[1..]);
    assert a == [a[0]] + a[1..] && b == [b[0]] + b[1..];
  }

  lemma ResolvedAreSeparated(s: set<Path>)
    requires forall p | p in s :: IsResolved(p)
    ensures Separates(KeyLe, s)
  {
    forall x, y | x in s && y in s && KeyLe(x, y) && KeyLe(y, x) ensures x == y {
      KeyDetermines(x, y);
    }
  }

  function Parents(groups: seq<Group>): seq<Path> {
    seq(|groups|, i requires 0 <= i < |groups| => groups[i].parent)
  }

  lemma ParentsAreThoseWithNested(roots: set<Path>, groups: seq<Group>, p: Path)
    requires IsGrouping(roots, groups)
    ensures p in Parents(groups) <==> Minimal(roots, p) && exists c :: c in roots && StrictlyWithin(c, p)
  {
    if p in Parents(groups) {
      var i :| 0 <= i < |groups| && groups[i].parent == p;
      assert IsGroup(roots, groups[i]) && groups[i].children[0] in groups[i].children;
    }
    if Minimal(roots, p) && exists c :: c in roots && StrictlyWithin(c, p) {
      var c :| c in roots && StrictlyWithin(c, p);
      var g :| g in groups && c in g.children;
      assert IsGroup(roots, g);
      TopmostAncestorIsUnique(roots, c, p, g.parent);
      var i :| 0 <= i < |groups| && groups[i] == g;
      assert Parents(groups)[i] == p;
    }
  }

  /** For resolved paths the groups, their order and the order inside them are determined by the roots. */
  lemma GroupingIsUnique(roots: set<Path>, a: seq<Group>, b: seq<Group>)
    requires (forall p | p in roots :: IsResolved(p)) && IsGrouping(roots, a) && IsGrouping(roots, b)
    ensures a == b
  {
    hide KeyLe, Minimal, StrictlyWithin, IsResolved;
    KeysAreOrdered();
    forall p ensures p in Elements(Parents(a)) <==> p in Elements(Parents(b)) {
      ParentsAreThoseWithNested(roots, a, p);
      ParentsAreThoseWithNested(roots, b, p);
    }
    ParentsAreRoots(roots, a);
    ResolvedAreSeparated(Elements(Parents(a)));
    SortedListIsUnique(KeyLe, Parents(a), Parents(b));
    forall i | 0 <= i < |a| ensures a[i] == b[i] {
      assert Parents(a)[i] == Parents(b)[i];
      SameParentSameGroup(roots, a[i], b[i]);
    }
  }

  lemma ParentsAreRoots(roots: set<Path>, groups: seq<Group>)
    requires IsGrouping(roots, groups)
    ensures Elements(Parents(groups)) <= roots && Sorted(KeyLe, Parents(groups)) && NoDuplicates(Parents(groups))
  {
    hide KeyLe;
    assert forall i | 0 <= i < |groups| :: IsGroup(roots, groups[i]);
  }

  lemma SameParentSameGroup(roots: set<Path>, a: Group, b: Group)
    requires (forall p | p in roots :: IsResolved(p)) && IsGroup(roots, a) && IsGroup(roots, b) && a.parent == b.parent
    ensures a == b
  {
    hide KeyLe, Minimal, IsResolved;
    KeysAreOrdered();
    ResolvedAreSeparated(Elements(a.children));
    SortedListIsUnique(KeyLe, a.children, b.children);
  }

  /** Siblings are ordered as Python orders their texts: a name comes before a longer name it begins. */
  lemma SiblingsInTextOrder()
    ensures KeyLe(["/", "p", "x"], ["/", "p", "x-y"]) && !KeyLe(["/", "p", "x-y"], ["/", "p", "x"])
    ensures IsResolved(["/", "p", "x"]) && IsResolved(["/"]) && !IsResolved(["p", "x"])
  {
    assert Joined(["p", "x"]) == "p/x" by { assert ["p", "x"][1..] == ["x"]; }
    assert Joined(["p", "x-y"]) == "p/x-y" by { assert ["p", "x-y"][1..] == ["x-y"]; }
    assert Text(["/", "p", "x"]) == "/p/x" by { assert ["/", "p", "x"][1..] == ["p", "x"]; }
    assert Text(["/", "p", "x-y"]) == "/p/x-y" by { assert ["/", "p", "x-y"][1..] == ["p", "x-y"]; }
    assert "/p/x-y" == "/p/x" + "-y";
    PrefixComesFirst("/p/x", "-y");
  }

  lemma {:induction false} PrefixComesFirst(s: string, t: string)
    requires t != ""
    ensures StringLe(s, s + t) && !StringLe(s + t, s)
  {
    if s != "" {
      PrefixComesFirst(s[1..], t);
      assert (s + t)[1..] == s[1..] + t;
    }
  }
}
