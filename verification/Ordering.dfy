/** Orders and sorting as the repository's Python code uses them: `sorted` on strings, on lists of
    strings, and on keys. */
module Ordering {

  ghost predicate TotalPreorder<T(!new)>(le: (T, T) -> bool) {
    && (forall x, y :: le(x, y) || le(y, x))
    && (forall x, y, z :: le(x, y) && le(y, z) ==> le(x, z))
  }

  ghost predicate TotalOrder<T(!new)>(le: (T, T) -> bool) {
    && TotalPreorder(le)
    && (forall x, y :: le(x, y) && le(y, x) ==> x == y)
  }

  ghost predicate Sorted<T>(le: (T, T) -> bool, s: seq<T>) {
    forall i, j | 0 <= i < j < |s| :: le(s[i], s[j])
  }

  ghost predicate NoDuplicates<T>(s: seq<T>) {
    forall i, j | 0 <= i < j < |s| :: s[i] != s[j]
  }

  function Elements<T>(s: seq<T>): set<T> {
    set x | x in s
  }

  lemma ElementsOfAppend<T>(s: seq<T>, x: T)
    ensures Elements(s + [x]) == Elements(s) + {x}
  {
  }

  lemma ElementsOfPrefix<T>(s: seq<T>, i: nat)
    requires i < |s|
    ensures Elements(s[..i + 1]) == Elements(s[..i]) + {s[i]} && s[i] in Elements(s)
  {
    assert s[..i + 1] == s[..i] + [s[i]];
  }

  /** Python compares sequences by their first difference; a proper prefix comes first. */
  predicate LexLe<T(==)>(le: (T, T) -> bool, a: seq<T>, b: seq<T>) {
    a == [] || (b != [] && if a[0] == b[0] then LexLe(le, a[1..], b[1..]) else le(a[0], b[0]))
  }

  predicate CharLe(a: char, b: char) { a <= b }

  predicate StringLe(a: string, b: string) { LexLe(CharLe, a, b) }

  predicate NamesLe(a: seq<string>, b: seq<string>) { LexLe(StringLe, a, b) }

  lemma {:induction false} LexLeTotal<T(!new)>(le: (T, T) -> bool, a: seq<T>, b: seq<T>)
    requires TotalOrder(le)
    ensures LexLe(le, a, b) || LexLe(le, b, a)
  {
    if a != [] && b != [] && a[0] == b[0] {
      LexLeTotal(le, a[1..], b[1..]);
    }
  }

  lemma {:induction false} LexLeAntisymmetric<T(!new)>(le: (T, T) -> bool, a: seq<T>, b: seq<T>)
    requires TotalOrder(le) && LexLe(le, a, b) && LexLe(le, b, a)
    ensures a == b
  {
    if a != [] && b != [] && a[0] == b[0] {
      LexLeAntisymmetric(le, a[1..], b[1..]);
      assert a == [a[0]] + a[1..] && b == [b[0]] + b[1..];
    }
  }

  lemma {:induction false} LexLeTransitive<T(!new)>(le: (T, T) -> bool, a: seq<T>, b: seq<T>, c: seq<T>)
    requires TotalOrder(le) && LexLe(le, a, b) && LexLe(le, b, c)
    ensures LexLe(le, a, c)
  {
    if a != [] && a[0] == b[0] == c[0] {
      LexLeTransitive(le, a[1..], b[1..], c[1..]);
    }
  }

  lemma LexLeTotalOrder<T(!new)>(le: (T, T) -> bool, lex: (seq<T>, seq<T>) -> bool)
    requires TotalOrder(le)
    requires forall a, b :: lex(a, b) <==> LexLe(le, a, b)
    ensures TotalOrder(lex)
  {
    forall a, b ensures lex(a, b) || lex(b, a) {
      LexLeTotal(le, a, b);
    }
    forall a, b | lex(a, b) && lex(b, a) ensures a == b {
      LexLeAntisymmetric(le, a, b);
    }
    forall a, b, c | lex(a, b) && lex(b, c) ensures lex(a, c) {
      LexLeTransitive(le, a, b, c);
    }
  }

  lemma StringsAreOrdered()
    ensures TotalOrder(StringLe) && TotalOrder(NamesLe)
  {
    LexLeTotalOrder(CharLe, StringLe);
    LexLeTotalOrder(StringLe, NamesLe);
  }

  lemma PrependSorted<T(!new)>(le: (T, T) -> bool, a: T, s: seq<T>)
    requires Sorted(le, s) && forall y | y in s :: le(a, y)
    ensures Sorted(le, [a] + s)
  {
  }

  /** A lower bound of the first element bounds the whole sorted list. */
  lemma BoundsSorted<T(!new)>(le: (T, T) -> bool, a: T, s: seq<T>)
    requires TotalPreorder(le) && Sorted(le, s) && (s != [] ==> le(a, s[0]))
    ensures forall y | y in s :: le(a, y)
  {
    forall y | y in s ensures le(a, y) {
      var i :| 0 <= i < |s| && s[i] == y;
      assert i > 0 ==> le(s[0], s[i]);
    }
  }

  /** Stable insertion of one element; `SortedBy` is Python's `sorted(s, key=...)` for the preorder
      that the key induces. */
  function Insert<T(!new)>(le: (T, T) -> bool, x: T, s: seq<T>): (r: seq<T>)
    requires TotalPreorder(le) && Sorted(le, s)
    ensures Sorted(le, r) && multiset(r) == multiset(s) + multiset{x}
    ensures forall y | y in r :: y == x || y in s
  {
    if s == [] then [x]
    else if le(x, s[0]) then
      BoundsSorted(le, x, s);
      [x] + s
    else
      var t := Insert(le, x, s[1..]);
      assert s == [s[0]] + s[1..];
      assert forall y | y in s[1..] :: le(s[0], y);
      PrependSorted(le, s[0], t);
      [s[0]] + t
  }

  function SortedBy<T(!new)>(le: (T, T) -> bool, s: seq<T>): (r: seq<T>)
    requires TotalPreorder(le)
    ensures Sorted(le, r) && multiset(r) == multiset(s)
  {
    if s == [] then []
    else
      assert s == [s[0]] + s[1..];
      Insert(le, s[0], SortedBy(le, s[1..]))
  }

  lemma MultisetsAndElements<T>(a: seq<T>, b: seq<T>)
    requires multiset(a) == multiset(b)
    ensures Elements(a) == Elements(b) && |a| == |b|
    ensures NoDuplicates(a) ==> NoDuplicates(b)
  {
    assert forall x :: x in a <==> x in multiset(a);
    assert forall x :: x in b <==> x in multiset(b);
    assert |multiset(a)| == |a| && |multiset(b)| == |b|;
    if NoDuplicates(a) {
      DistinctCounts(a);
      forall i, j | 0 <= i < j < |b| ensures b[i] != b[j] {
        assert b == b[..i] + [b[i]] + b[i + 1..];
        assert b[j] in b[i + 1..];
        assert multiset(b[..i] + [b[i]] + b[i + 1..])[b[j]] <= 1;
      }
    }
  }

  lemma {:induction false} DistinctCounts<T>(a: seq<T>)
    requires NoDuplicates(a)
    ensures forall x :: multiset(a)[x] <= 1
    ensures |Elements(a)| == |a|
  {
    if a != [] {
      var b := a[..|a| - 1];
      DistinctCounts(b);
      assert a == b + [a[|a| - 1]];
      assert Elements(a) == Elements(b) + {a[|a| - 1]};
    }
  }

  /** The order tells the members of `s` apart. */
  ghost predicate Separates<T(!new)>(le: (T, T) -> bool, s: set<T>) {
    forall x, y | x in s && y in s && le(x, y) && le(y, x) :: x == y
  }

  /** A duplicate-free sorted list is determined by its elements. */
  lemma {:induction false} SortedListIsUnique<T(!new)>(le: (T, T) -> bool, a: seq<T>, b: seq<T>)
    requires TotalPreorder(le) && Separates(le, Elements(a))
    requires Sorted(le, a) && Sorted(le, b) && NoDuplicates(a) && NoDuplicates(b)
    requires Elements(a) == Elements(b)
    ensures a == b
  {
    DistinctCounts(a);
    DistinctCounts(b);
    if a != [] {
      assert a[0] in Elements(b) && b != [];
      assert b[0] in Elements(a);
      var i :| 0 <= i < |b| && b[i] == a[0];
      var j :| 0 <= j < |a| && a[j] == b[0];
      assert a[0] == b[0];
      assert Elements(a[1..]) == Elements(a) - {a[0]} by {
        assert a == [a[0]] + a[1..];
      }
      assert Elements(b[1..]) == Elements(b) - {b[0]} by {
        assert b == [b[0]] + b[1..];
      }
      SortedListIsUnique(le, a[1..], b[1..]);
      assert a == [a[0]] + a[1..] && b == [b[0]] + b[1..];
    }
  }

  lemma InsertedElements<T(!new)>(le: (T, T) -> bool, x: T, s: seq<T>)
    requires TotalPreorder(le) && Sorted(le, s) && NoDuplicates(s) && x !in Elements(s)
    ensures NoDuplicates(Insert(le, x, s)) && Elements(Insert(le, x, s)) == Elements(s) + {x}
  {
    assert forall y | y in s :: y in Elements(s);
    assert Elements([x] + s) == Elements(s) + {x};
    MultisetsAndElements([x] + s, Insert(le, x, s));
  }

  /** `sorted(keys)` for a set of strings, whatever order the set is iterated in. */
  method SortedList(s: set<string>) returns (r: seq<string>)
    ensures Sorted(StringLe, r) && NoDuplicates(r) && Elements(r) == s
  {
    StringsAreOrdered();
    r := [];
    var rest := s;
    while rest != {}
      invariant rest <= s
      invariant Sorted(StringLe, r) && NoDuplicates(r) && Elements(r) == s - rest
      decreases |rest|
    {
      var x :| x in rest;
      InsertedElements(StringLe, x, r);
      r, rest := Insert(StringLe, x, r), rest - {x};
    }
  }
}
