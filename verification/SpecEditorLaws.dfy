/** Laws of the specification editor: section replacement as a lens, deletion against insertion,
    batches against their parts. */
module SpecEditorLaws {
  import opened Text
  import opened SpecEditor

  // Lines of a document put together again

  lemma {:induction false} LinesConcatenate(a: seq<string>, b: seq<string>)
    requires AreLines(a) && AreLines(b) && (a == [] || EndsLine(a[|a| - 1]) || b == [])
    ensures AreLines(a + b) && SplitLines(Join(a) + Join(b)) == a + b
  {
    JoinAppend(a, b);
    SplitOfJoin(a + b);
  }

  lemma {:induction false} JoinEndsLine(lines: seq<string>)
    requires AreLines(lines) && lines != []
    ensures EndsLine(Join(lines)) <==> EndsLine(lines[|lines| - 1])
    ensures Join(lines) != ""
  {
    var n := |lines|;
    assert lines == lines[..n - 1] + [lines[n - 1]];
    JoinAppend(lines[..n - 1], [lines[n - 1]]);
    assert Join([lines[n - 1]]) == lines[n - 1];
  }

  lemma {:induction false} MatchesAppend(a: seq<string>, b: seq<string>, heading: string)
    ensures Matches(a + b, heading) == Matches(a, heading) + Matches(b, heading)
  {
    if a == [] {
      assert a + b == b;
    } else {
      assert (a + b)[1..] == a[1..] + b;
      MatchesAppend(a[1..], b, heading);
    }
  }

  lemma {:induction false} SectionEndSkips(a: seq<string>, b: seq<string>, i: nat, level: nat)
    requires i <= |a| && forall j | i <= j < |a| :: !EndsSection(a[j], level)
    ensures SectionEnd(a + b, i, level) == |a| + SectionEnd(b, 0, level)
    decreases |a| - i
  {
    if i < |a| {
      SectionEndSkips(a, b, i + 1, level);
    } else {
      SectionEndShift(a, b, 0, level);
    }
  }

  lemma {:induction false} SectionEndShift(a: seq<string>, b: seq<string>, i: nat, level: nat)
    requires i <= |b|
    ensures SectionEnd(a + b, |a| + i, level) == |a| + SectionEnd(b, i, level)
    decreases |b| - i
  {
    if i < |b| {
      assert (a + b)[|a| + i] == b[i];
      SectionEndShift(a, b, i + 1, level);
    }
  }

  // Section replacement

  /** No line of the body is a heading at or above the section's level. */
  predicate NoHeadingAtOrAbove(body: string, level: nat) {
    forall l | l in SplitLines(Terminated(body)) :: !EndsSection(l, level)
  }

  /** The document's lines around the section. */
  ghost predicate SectionLines(content: string, heading: string, pre: seq<string>, mid: seq<string>,
                               post: seq<string>) {
    && IsHeading(heading) && SplitLines(content) == pre + mid + post
    && pre != [] && IsHeadingLine(pre[|pre| - 1], heading)
    && Matches(pre, heading) == 1 && Matches(mid, heading) == 0 && Matches(post, heading) == 0
    && (forall l | l in mid :: !EndsSection(l, HeadingLevel(heading)))
    && (post != [] ==> EndsSection(post[0], HeadingLevel(heading)))
  }

  lemma LocateGivesLines(content: string, heading: string) returns (pre: seq<string>, mid: seq<string>,
                         post: seq<string>)
    requires Locate(content, heading).Ok?
    ensures SectionLines(content, heading, pre, mid, post)
    ensures Locate(content, heading) == Ok(Section(Join(pre), Join(mid), Join(post)))
  {
    hide IsHeadingLine, HeadingLevel, EndsSection, IsHeading, SplitLines, Join, FirstMatch, SectionEnd;
    var lines := SplitLines(content);
    var h := FirstMatch(lines, heading);
    assert h < |lines| by {
      assert Matches(lines, heading) == 1;
    }
    var end := SectionEnd(lines, h + 1, HeadingLevel(heading));
    pre, mid, post := lines[..h + 1], lines[h + 1..end], lines[end..];
    MatchesOfParts(lines, h, end, heading);
    assert pre[|pre| - 1] == lines[h];
    assert post != [] ==> post[0] == lines[end];
    forall l | l in mid ensures !EndsSection(l, HeadingLevel(heading)) {
      var k :| 0 <= k < |mid| && mid[k] == l;
      assert lines[h + 1 + k] == l;
    }
  }

  lemma MatchesOfParts(lines: seq<string>, h: nat, end: nat, heading: string)
    requires h < end <= |lines| && Matches(lines, heading) == 1 && IsHeadingLine(lines[h], heading)
    ensures lines == lines[..h + 1] + lines[h + 1..end] + lines[end..]
    ensures Matches(lines[..h + 1], heading) == 1
    ensures Matches(lines[h + 1..end], heading) == 0 && Matches(lines[end..], heading) == 0
  {
    hide IsHeadingLine;
    var pre, mid, post := lines[..h + 1], lines[h + 1..end], lines[end..];
    assert lines == pre + mid + post;
    MatchesAppend(pre + mid, post, heading);
    MatchesAppend(pre, mid, heading);
    assert IsHeadingLine(pre[h], heading);
  }

  lemma LinesGiveLocate(content: string, heading: string, pre: seq<string>, mid: seq<string>, post: seq<string>)
    requires SectionLines(content, heading, pre, mid, post)
    ensures Locate(content, heading) == Ok(Section(Join(pre), Join(mid), Join(post)))
  {
    hide IsHeadingLine, HeadingLevel, EndsSection, IsHeading, SplitLines, Join;
    var lines := SplitLines(content);
    MatchesAppend(pre + mid, post, heading);
    MatchesAppend(pre, mid, heading);
    assert FirstMatch(lines, heading) == |pre| - 1 by {
      assert pre + (mid + post) == lines;
      OnlyMatchIsFirst(pre, mid + post, heading);
    }
    EndOfMiddle(pre, mid, post, HeadingLevel(heading));
    PartsAreSlices(pre, mid, post);
  }

  lemma EndOfMiddle(pre: seq<string>, mid: seq<string>, post: seq<string>, level: nat)
    requires forall l | l in mid :: !EndsSection(l, level)
    requires post != [] ==> EndsSection(post[0], level)
    ensures SectionEnd(pre + mid + post, |pre|, level) == |pre| + |mid|
  {
    hide EndsSection;
    forall k | |pre| <= k < |pre + mid| ensures !EndsSection((pre + mid)[k], level) {
      assert (pre + mid)[k] == mid[k - |pre|];
    }
    SectionEndSkips(pre + mid, post, |pre|, level);
  }

  lemma PartsAreSlices<T>(a: seq<T>, b: seq<T>, c: seq<T>)
    ensures (a + b + c)[..|a|] == a && (a + b + c)[|a|..|a| + |b|] == b && (a + b + c)[|a| + |b|..] == c
  {
  }

  lemma OnlyMatchIsFirst(pre: seq<string>, rest: seq<string>, heading: string)
    requires pre != [] && IsHeadingLine(pre[|pre| - 1], heading) && Matches(pre, heading) == 1
    ensures FirstMatch(pre + rest, heading) == |pre| - 1
  {
    var n := |pre|;
    assert pre == pre[..n - 1] + [pre[n - 1]];
    MatchesAppend(pre[..n - 1], [pre[n - 1]], heading);
    var h := FirstMatch(pre + rest, heading);
    assert (pre + rest)[n - 1] == pre[n - 1];
    assert forall j | 0 <= j < n - 1 :: (pre + rest)[j] == pre[..n - 1][j];
  }

  /** The section heading ends a line: the heading is not an unterminated last line. */
  predicate HeadingTerminated(content: string, heading: string) {
    Locate(content, heading).Ok? && EndsLine(Locate(content, heading).value.before)
  }

  lemma LinesOfParts(a: seq<string>, b: seq<string>)
    requires AreLines(a + b)
    ensures AreLines(a) && AreLines(b)
    ensures a != [] && b != [] ==> EndsLine(a[|a| - 1])
  {
    hide IsLine, EndsLine;
    assert forall i | 0 <= i < |a| :: a[i] == (a + b)[i];
    assert forall i | 0 <= i < |b| :: b[i] == (a + b)[|a| + i];
  }

  lemma BodyHasNoMatch(lines: seq<string>, heading: string)
    requires IsHeading(heading) && forall l | l in lines :: !EndsSection(l, HeadingLevel(heading))
    ensures Matches(lines, heading) == 0
  {
    hide HeadingLevel;
    forall i | 0 <= i < |lines| ensures !IsHeadingLine(lines[i], heading) {
      assert lines[i] in lines;
    }
  }

  lemma ReplacedLines(pre: seq<string>, mid: seq<string>, post: seq<string>, mid': seq<string>)
    requires AreLines(pre + mid + post) && pre != [] && EndsLine(pre[|pre| - 1])
    requires AreLines(mid') && (mid' == [] || EndsLine(mid'[|mid'| - 1]))
    ensures SplitLines(Join(pre) + Join(mid') + Join(post)) == pre + mid' + post
  {
    hide IsLine, EndsLine, SplitLines, Join;
    LinesOfParts(pre + mid, post);
    LinesOfParts(pre, mid);
    LinesConcatenate(pre, mid');
    JoinAppend(pre, mid');
    assert (pre + mid')[|pre + mid'| - 1] == if mid' == [] then pre[|pre| - 1] else mid'[|mid'| - 1];
    LinesConcatenate(pre + mid', post);
  }

  /** After a replacement the same section is found, its body is the new one, and the text before
      and after it is the old text. */
  lemma ReplacedSectionIsLocated(content: string, heading: string, body: string)
    requires Locate(content, heading).Ok? && HeadingTerminated(content, heading)
    requires NoHeadingAtOrAbove(body, HeadingLevel(heading))
    ensures var s := Locate(content, heading).value;
            Locate(s.before + Terminated(body) + s.after, heading) == Ok(Section(s.before, Terminated(body), s.after))
  {
    var pre, mid, post := LocateGivesLines(content, heading);
    hide IsHeadingLine, HeadingLevel, EndsSection, IsHeading, Locate, IsLine;
    var mid' := SplitLines(Terminated(body));
    LinesOfParts(pre + mid, post);
    LinesOfParts(pre, mid);
    JoinEndsLine(pre);
    if mid' != [] { JoinEndsLine(mid'); }
    ReplacedLines(pre, mid, post, mid');
    BodyHasNoMatch(mid', heading);
    LinesGiveLocate(Join(pre) + Join(mid') + Join(post), heading, pre, mid', post);
  }

  lemma SectionSplitsDocument(content: string, heading: string)
    requires Locate(content, heading).Ok?
    ensures var s := Locate(content, heading).value; content == s.before + s.body + s.after
  {
    var pre, mid, post := LocateGivesLines(content, heading);
    JoinAppend(pre + mid, post);
    JoinAppend(pre, mid);
  }

  /** An unterminated heading is the whole end of the document. */
  lemma UnterminatedHeadingIsLast(content: string, heading: string)
    requires Locate(content, heading).Ok? && !HeadingTerminated(content, heading)
    ensures Locate(content, heading) == Ok(Section(content, "", ""))
  {
    var pre, mid, post := LocateGivesLines(content, heading);
    LinesOfParts(pre + mid, post);
    LinesOfParts(pre, mid);
    JoinEndsLine(pre);
    assert mid == [];
    assert pre + mid == pre;
    assert post == [];
    SectionSplitsDocument(content, heading);
  }

  lemma {:induction false} JoinLength(a: seq<string>, b: seq<string>)
    ensures |Join(a + b)| == |Join(a)| + |Join(b)|
  {
    JoinAppend(a, b);
  }

  lemma GluedLine(l: string, x: string)
    requires IsLine(l) && !EndsLine(l) && IsLine(x)
    ensures IsLine(l + x) && (EndsLine(l + x) <==> EndsLine(x))
  {
    forall i | 0 <= i < |l + x| - 1 ensures (l + x)[i] != '\n' {
      if i < |l| { assert (l + x)[i] == l[i]; } else { assert (l + x)[i] == x[i - |l|]; }
    }
  }

  lemma GluedJoin(init: seq<string>, l: string, more: seq<string>)
    requires more != []
    ensures Join(init + [l]) + Join(more) == Join(init + [l + more[0]]) + Join(more[1..])
  {
    JoinAppend(init, [l]);
    JoinAppend(init, [l + more[0]]);
    JoinOne(l);
    JoinOne(l + more[0]);
    assert Join(more) == more[0] + Join(more[1..]);
    Associate(Join(init), l, more[0], Join(more[1..]));
  }

  lemma Associate(a: string, b: string, c: string, d: string)
    ensures a + b + (c + d) == a + (b + c) + d
  {
  }

  /** Text glued to an unterminated last line changes that line and adds the rest. */
  lemma SplitAfterLastLine(init: seq<string>, l: string, more: seq<string>)
    requires AreLines(init + [l]) && !EndsLine(l) && AreLines(more) && more != []
    ensures SplitLines(Join(init + [l]) + Join(more)) == init + [l + more[0]] + more[1..]
  {
    LinesOfParts(init, [l]);
    assert [more[0]] + more[1..] == more;
    LinesOfParts([more[0]], more[1..]);
    assert [l][0] == l && [more[0]][0] == more[0];
    GluedLine(l, more[0]);
    hide IsLine, EndsLine, SplitLines, Join;
    LinesConcatenate(init, [l + more[0]]);
    LinesConcatenate(init + [l + more[0]], more[1..]);
    GluedJoin(init, l, more);
  }

  /** A heading glued to new text is not found with that text as its body. */
  lemma GluedHeadingIsNotReadBack(content: string, heading: string, body: string)
    requires Locate(content, heading).Ok? && !HeadingTerminated(content, heading)
    requires NoHeadingAtOrAbove(body, HeadingLevel(heading)) && body != ""
    ensures ReadSection(content + Terminated(body), heading) != Ok(Terminated(body))
  {
    var pre, mid, post := LocateGivesLines(content, heading);
    UnterminatedHeadingIsLast(content, heading);
    hide IsHeadingLine, HeadingLevel, EndsSection, IsHeading, Locate;
    var more := SplitLines(Terminated(body));
    LinesOfParts(pre + mid, post);
    LinesOfParts(pre, mid);
    JoinEndsLine(pre);
    assert content == Join(pre);
    var init, l := pre[..|pre| - 1], pre[|pre| - 1];
    assert pre == init + [l];
    SplitAfterLastLine(init, l, more);
    MatchesAppend(init, [l], heading);
    BodyHasNoMatch(more, heading);
    var glued := content + Terminated(body);
    if ReadSection(glued, heading).Ok? {
      var pre', mid', post' := LocateGivesLines(glued, heading);
      GluedBodyIsShorter(init, l + more[0], more, pre', mid', post', heading);
    }
  }

  /** The only line that can be the heading is the glued one. */
  lemma GluedIndex(init: seq<string>, glued: string, tail: seq<string>, pre: seq<string>, rest: seq<string>,
                   heading: string)
    requires init + [glued] + tail == pre + rest
    requires Matches(init, heading) == 0 && Matches(tail, heading) == 0
    requires pre != [] && IsHeadingLine(pre[|pre| - 1], heading)
    ensures rest == tail
  {
    hide IsHeadingLine;
    var lines, k := init + [glued] + tail, |pre| - 1;
    assert (pre + rest)[k] == pre[k];
    forall i | 0 <= i < |init| ensures !IsHeadingLine(lines[i], heading) {
      assert lines[i] == init[i];
    }
    forall i | |init| < i < |lines| ensures !IsHeadingLine(lines[i], heading) {
      assert lines[i] == tail[i - |init| - 1];
    }
    assert lines[|init| + 1..] == tail;
    assert (pre + rest)[|pre|..] == rest;
  }

  lemma GluedBodyIsShorter(init: seq<string>, glued: string, more: seq<string>,
                           pre: seq<string>, mid: seq<string>, post: seq<string>, heading: string)
    requires more != [] && more[0] != "" && init + [glued] + more[1..] == pre + mid + post
    requires Matches(init, heading) == 0 && Matches(more, heading) == 0
    requires pre != [] && IsHeadingLine(pre[|pre| - 1], heading)
    ensures |Join(mid)| < |Join(more)|
  {
    hide IsHeadingLine, Join;
    assert pre + mid + post == pre + (mid + post);
    GluedIndex(init, glued, more[1..], pre, mid + post, heading);
    JoinLength(mid, post);
    assert more == [more[0]] + more[1..];
    JoinLength([more[0]], more[1..]);
    JoinOne(more[0]);
  }

  lemma JoinOne(l: string)
    ensures Join([l]) == l
  {
  }

  // The lens laws, on the editor's own operation

  /** Reading back what was written, exactly when the heading line is terminated or the new body is
      empty. A specification is stored stripped, so a heading can be its unterminated last line;
      then the new text is glued to the heading. */
  lemma ReadAfterWrite(content: string, heading: string, body: string)
    requires SectionReplaced(content, Str(heading), Str(body)).Ok?
    requires NoHeadingAtOrAbove(body, HeadingLevel(heading))
    ensures ReadSection(SectionReplaced(content, Str(heading), Str(body)).value, heading) == Ok(Terminated(body))
       <==> HeadingTerminated(content, heading) || body == ""
  {
    if HeadingTerminated(content, heading) {
      ReplacedSectionIsLocated(content, heading, body);
    } else {
      UnterminatedHeadingIsLast(content, heading);
      if body == "" {
        assert content + Terminated(body) + "" == content;
      } else {
        assert content + Terminated(body) + "" == content + Terminated(body);
        GluedHeadingIsNotReadBack(content, heading, body);
      }
    }
  }

  /** Writing back the old body restores the document exactly when that body is empty or ends its
      last line. */
  lemma WriteAfterRead(content: string, heading: string, body: string)
    requires ReadSection(content, heading) == Ok(body)
    requires SectionReplaced(content, Str(heading), Str(body)).Ok?
    ensures SectionReplaced(content, Str(heading), Str(body)) == Ok(content) <==> body == "" || EndsLine(body)
  {
    var s := Locate(content, heading).value;
    SectionSplitsDocument(content, heading);
    assert SectionReplaced(content, Str(heading), Str(body)) == Ok(s.before + Terminated(body) + s.after);
    assert |s.before + Terminated(body) + s.after| == |s.before| + |Terminated(body)| + |s.after|;
  }

  /** The last of two writes wins, and the text around the section never changes. */
  lemma LastWriteWins(content: string, heading: string, first: string, second: string)
    requires HeadingTerminated(content, heading) && NoHeadingAtOrAbove(first, HeadingLevel(heading))
    requires SectionReplaced(content, Str(heading), Str(first)).Ok?
    ensures var once := SectionReplaced(content, Str(heading), Str(first)).value;
            SectionReplaced(once, Str(heading), Str(second)) == SectionReplaced(content, Str(heading), Str(second))
    ensures var once := SectionReplaced(content, Str(heading), Str(first)).value;
            && Locate(once, heading).Ok?
            && Locate(once, heading).value.(body := "") == Locate(content, heading).value.(body := "")
  {
    ReplacedSectionIsLocated(content, heading, first);
  }

  /** The failing case exists: a stripped document that ends in its heading. */
  lemma GluedHeadingExample()
    ensures SectionReplaced("# B", Str("# B"), Str("new")) == Ok("# Bnew\n")
    ensures !HeadingTerminated("# B", "# B")
  {
    assert SplitLines("# B") == ["# B"] by { SplitOfLastLine("# B"); }
    assert LineText("# B") == "# B";
    assert Hashes("# B") == 1 by { assert "# B"[1..] == " B"; }
    assert SkipSpaces("# B", 1) == 2;
    assert IsHeading("# B");
    assert Matches(["# B"], "# B") == 1 by { assert ["# B"][1..] == []; }
    JoinOne("# B");
    assert Locate("# B", "# B") == Ok(Section("# B", "", ""));
    assert "# B" + Terminated("new") + "" == "# Bnew\n";
  }

  // Deleting inserted text

  function Inserted(content: string, at: nat, text: string): string
    requires at <= |content|
  {
    Splice(content, at, 0, text)
  }

  /** Both insertions put the text next to the anchor and change nothing else. */
  lemma InsertionsSplice(content: string, target: string, text: string)
    requires target != "" && text != "" && |target| <= MAX_EPIC_SPEC_CHARS && |text| <= MAX_EPIC_SPEC_CHARS
    requires UniqueIndex(content, target).Ok?
    ensures var i := UniqueIndex(content, target).value;
            && i + |target| <= |content|
            && Applied(content, InsertBefore(Str(target), Str(text))) == Ok(Inserted(content, i, text))
            && Applied(content, InsertAfter(Str(target), Str(text))) == Ok(Inserted(content, i + |target|, text))
  {
    var i := UniqueIndex(content, target).value;
    assert content[i..] == target + content[i + |target|..] by {
      assert content[i..] == content[i..i + |target|] + content[i + |target|..];
    }
    assert content[..i + |target|] == content[..i] + target;
    assert Splice(content, i, |target|, text + target) == Inserted(content, i, text);
    assert Splice(content, i, |target|, target + text) == Inserted(content, i + |target|, text);
  }

  /** Removing the occurrence at `i` instead of the inserted one at `at`. */
  lemma OtherOccurrence(content: string, at: nat, text: string, i: nat)
    requires i <= at <= |content| && at < i + |text| && OccursAt(Inserted(content, at, text), text, i)
    ensures var c, d := Inserted(content, at, text), at - i;
            Splice(c, i, |text|, "") == content[..i] + text[|text| - d..] + content[at..]
    ensures content == content[..i] + text[..at - i] + content[at..]
  {
    var c, n, d := Inserted(content, at, text), |text|, at - i;
    assert c == content[..at] + text + content[at..];
    assert content[..at] == content[..i] + content[i..at];
    assert content[i..at] == text[..d] by {
      assert c[i..i + n][..d] == c[i..at] == content[i..at];
    }
    assert c[i + n..] == text[n - d..] + content[at..];
    assert c[..i] == content[..i];
  }

  lemma CancelMiddle(a: string, x: string, y: string, z: string)
    requires |x| == |y|
    ensures a + x + z == a + y + z <==> x == y
  {
    assert x == (a + x + z)[|a|..|a| + |x|] && y == (a + y + z)[|a|..|a| + |y|];
  }

  /** When the deletion of inserted text is accepted at all, it restores the document exactly if the
      first occurrence it removes is the inserted one, or overlaps it in a way that leaves the same
      text behind; in particular if the text occurs only once, overlaps counted. */
  lemma DeleteUndoesInsert(content: string, at: nat, text: string)
    requires at <= |content| && 0 < |text| <= MAX_EPIC_SPEC_CHARS
    requires UniqueIndex(Inserted(content, at, text), text).Ok?
    ensures var i := UniqueIndex(Inserted(content, at, text), text).value;
            && i <= at < i + |text|
            && (Applied(Inserted(content, at, text), Delete(Str(text))) == Ok(content)
                <==> text[..at - i] == text[|text| - (at - i)..])
    ensures (forall i: nat | OccursAt(Inserted(content, at, text), text, i) :: i == at)
            ==> Applied(Inserted(content, at, text), Delete(Str(text))) == Ok(content)
  {
    var c, n := Inserted(content, at, text), |text|;
    assert OccursAt(c, text, at) by { assert c[at..at + n] == text; }
    var i := UniqueIndex(c, text).value;
    hide UniqueIndex;
    OtherOccurrence(content, at, text, i);
    assert Applied(c, Delete(Str(text))) == Ok(Splice(c, i, n, ""));
    CancelMiddle(content[..i], text[..at - i], text[n - (at - i)..], content[at..]);
  }

  /** `str.count` does not see overlapping occurrences: here it counts one, the deletion is
      accepted, and it removes the wrong text. */
  lemma OverlapExample()
    ensures Applied("ab", InsertAfter(Str("ab"), Str("aba"))) == Ok("ababa")
    ensures Applied("ababa", Delete(Str("aba"))) == Ok("ba")
  {
    assert OccursAt("ab", "ab", 0) && Find("ab", "ab", 2) == -1;
    assert Count("ab", "ab", 0) == 1;
    assert OccursAt("ababa", "aba", 0) && Find("ababa", "aba", 3) == -1;
    assert Count("ababa", "aba", 0) == 1;
    assert Splice("ab", 0, 2, "ab" + "aba") == "ababa";
    assert Splice("ababa", 0, 3, "") == "ba";
  }

  // Batches

  /** A batch is the composition of its parts. */
  lemma {:induction false} BatchComposes(content: string, a: seq<Edit>, b: seq<Edit>)
    ensures AppliedAll(content, a + b) ==
            if AppliedAll(content, a).Ok? then AppliedAll(AppliedAll(content, a).value, b) else AppliedAll(content, a)
    decreases |a|
  {
    if a == [] {
      assert a + b == b;
    } else {
      assert (a + b)[0] == a[0] && (a + b)[1..] == a[1..] + b;
      var r := AppliedWithinLimit(content, a[0]);
      if r.Ok? {
        BatchComposes(r.value, a[1..], b);
      }
    }
  }

  /** For whole calls: apart from the size of a batch and the net-change checks, one call with `a + b`
      does what a call with `a` followed by a call with `b` does. */
  lemma OneCallOrTwo(content: string, a: seq<Edit>, b: seq<Edit>, middle: string, result: string)
    requires a != [] && b != [] && |a| + |b| <= MAX_EPIC_SPEC_EDIT_OPERATIONS
    requires content != middle && middle != result && content != result
    ensures Edited(content, a) == Ok(middle) ==>
              (Edited(middle, b) == Ok(result) <==> Edited(content, a + b) == Ok(result))
    ensures Edited(content, a).Err? ==>
              Edited(content, a).error == NoNetChange || Edited(content, a + b) == Edited(content, a)
  {
    BatchComposes(content, a, b);
  }
}
