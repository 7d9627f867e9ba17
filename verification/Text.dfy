/** Strings as the specification editor handles them: lines, whitespace, occurrences. */
module Text {

  /** `str.isspace` for one character, which is also the regular expression `\s`. */
  predicate IsSpace(c: char) {
    || c == ' ' || ('\t' <= c <= '\r') || ('\U{1C}' <= c <= '\U{1F}') || c == '\U{85}' || c == '\U{A0}'
    || c == '\U{1680}' || ('\U{2000}' <= c <= '\U{200A}') || c == '\U{2028}' || c == '\U{2029}'
    || c == '\U{202F}' || c == '\U{205F}' || c == '\U{3000}'
  }

  predicate EndsLine(s: string) { s != "" && s[|s| - 1] == '\n' }

  /** `str.strip` */
  function Strip(s: string): string {
    if s != "" && IsSpace(s[0]) then Strip(s[1..])
    else if s != "" && IsSpace(s[|s| - 1]) then Strip(s[..|s| - 1])
    else s
  }

  /** Only whitespace is cut off, at both ends, and all of it. */
  lemma {:induction false} StripTrims(s: string) returns (i: nat, j: nat)
    ensures i <= j <= |s| && Strip(s) == s[i..j]
    ensures forall k | 0 <= k < i || j <= k < |s| :: IsSpace(s[k])
    ensures i < j ==> !IsSpace(s[i]) && !IsSpace(s[j - 1])
    decreases |s|
  {
    if s != "" && IsSpace(s[0]) {
      i, j := StripTrims(s[1..]);
      i, j := i + 1, j + 1;
    } else if s != "" && IsSpace(s[|s| - 1]) {
      i, j := StripTrims(s[..|s| - 1]);
    } else {
      i, j := 0, |s|;
    }
  }

  // Lines

  /** `s.splitlines(keepends=True)` for a text whose only line separator is the newline. */
  function SplitLines(s: string): (lines: seq<string>)
    ensures AreLines(lines) && Join(lines) == s
  {
    if s == "" then []
    else
      var rest := SplitLines(s[1..]);
      if s[0] == '\n' then
        ["\n"] + rest
      else if rest == [] then
        [[s[0]]]
      else
        assert Join([[s[0]] + rest[0]] + rest[1..]) == [s[0]] + rest[0] + Join(rest[1..]);
        [[s[0]] + rest[0]] + rest[1..]
  }

  predicate IsLine(l: string) {
    l != "" && forall i | 0 <= i < |l| - 1 :: l[i] != '\n'
  }

  /** Only the last line may lack its newline. */
  predicate AreLines(lines: seq<string>) {
    forall i | 0 <= i < |lines| :: IsLine(lines[i]) && (i < |lines| - 1 ==> EndsLine(lines[i]))
  }

  function Join(lines: seq<string>): string {
    if lines == [] then "" else lines[0] + Join(lines[1..])
  }

  lemma {:induction false} JoinAppend(a: seq<string>, b: seq<string>)
    ensures Join(a + b) == Join(a) + Join(b)
  {
    if a == [] {
      assert a + b == b;
    } else {
      JoinAppend(a[1..], b);
      assert (a + b)[1..] == a[1..] + b;
    }
  }

  lemma {:induction false} SplitOfLine(l: string, s: string)
    requires IsLine(l) && EndsLine(l)
    ensures SplitLines(l + s) == [l] + SplitLines(s)
  {
    assert (l + s)[1..] == l[1..] + s;
    if |l| > 1 {
      SplitOfLine(l[1..], s);
      assert l == [l[0]] + l[1..];
    } else {
      assert l == "\n" && l[1..] + s == s;
    }
  }

  lemma {:induction false} SplitOfLastLine(l: string)
    requires IsLine(l) && !EndsLine(l)
    ensures SplitLines(l) == [l]
  {
    if |l| > 1 {
      SplitOfLastLine(l[1..]);
      assert l == [l[0]] + l[1..];
    } else {
      assert l[1..] == "" && l == [l[0]];
    }
  }

  lemma {:induction false} SplitOfJoin(lines: seq<string>)
    requires AreLines(lines)
    ensures SplitLines(Join(lines)) == lines
  {
    if lines != [] {
      SplitOfJoin(lines[1..]);
      if EndsLine(lines[0]) {
        SplitOfLine(lines[0], Join(lines[1..]));
      } else {
        assert |lines| == 1 && lines[0] + Join(lines[1..]) == lines[0];
        SplitOfLastLine(lines[0]);
      }
      assert lines == [lines[0]] + lines[1..];
    }
  }

  // Occurrences

  predicate OccursAt(s: string, t: string, i: nat) {
    i + |t| <= |s| && s[i..i + |t|] == t
  }

  /** `s.find(t, from)`: the first occurrence at or after `from`, or -1. */
  function Find(s: string, t: string, from: nat): (r: int)
    ensures r >= 0 ==> from <= r && OccursAt(s, t, r) && forall i | from <= i < r :: !OccursAt(s, t, i)
    ensures r < 0 ==> forall i: nat | from <= i :: !OccursAt(s, t, i)
    decreases |s| - from
  {
    if from + |t| > |s| then -1
    else if OccursAt(s, t, from) then from
    else Find(s, t, from + 1)
  }

  /** `str.count`: occurrences that do not overlap, from the left. */
  function Count(s: string, t: string, from: nat): nat
    requires t != ""
    decreases |s| - from
  {
    var i := Find(s, t, from);
    if i < 0 then 0 else 1 + Count(s, t, i + |t|)
  }

  /** A count of one means: there is an occurrence, and every other one overlaps the first. */
  lemma CountIsOne(s: string, t: string)
    requires t != ""
    ensures Count(s, t, 0) == 1 <==> exists i: nat :: IsOnlyCounted(s, t, i)
  {
    hide OccursAt;
    var i := Find(s, t, 0);
    if i >= 0 {
      assert Count(s, t, 0) == 1 <==> Find(s, t, i + |t|) < 0;
      if Find(s, t, i + |t|) < 0 {
        assert IsOnlyCounted(s, t, i);
      }
      if k: nat :| IsOnlyCounted(s, t, k) {
        assert k <= i && i <= k;
      }
    }
  }

  ghost predicate IsOnlyCounted(s: string, t: string, i: nat) {
    OccursAt(s, t, i) && forall j: nat | OccursAt(s, t, j) :: i <= j < i + |t|
  }
}
