/** What single edits, headings and batches are, told by characters; replacing undone by replacing. */
module SpecEditorMeaning {
  import opened Text
  import opened SpecEditor
  import opened SpecEditorLaws

  predicate Fits(s: string) { |s| <= MAX_EPIC_SPEC_CHARS }

  /** A replacement by something else is accepted exactly when the anchor is counted once. Then everything up to
      the anchor's first occurrence stays, the anchor is gone, the replacement is in its place and everything
      behind it stays. A replacement by itself is refused. */
  lemma ReplacePutsTextInPlace(content: string, target: string, text: string)
    requires target != "" && Fits(target) && Fits(text)
    ensures target == text ==> Applied(content, Replace(Str(target), Str(text))) == Err(NoOp)
    ensures target != text ==>
              var r := Applied(content, Replace(Str(target), Str(text)));
              && (r.Ok? <==> Count(content, target, 0) == 1)
              && (r.Err? ==> r.error == MatchCount(Count(content, target, 0)))
              && (r.Ok? ==>
                    var i := UniqueIndex(content, target).value;
                    && OccursAt(content, target, i) && (forall j | 0 <= j < i :: !OccursAt(content, target, j))
                    && r.value == content[..i] + text + content[i + |target|..])
  {
    hide OccursAt;
  }

  /** A deletion is a replacement by nothing, refusals included. */
  lemma DeleteIsReplaceByNothing(content: string, target: Field)
    ensures Applied(content, Delete(target)) == Applied(content, Replace(target, Str("")))
  {
  }

  /** A text found before its copy, overlapping it. */
  lemma OverlappingCopy(x: string, text: string, z: string)
    requires |x| < |text| && (x + text + z)[..|text|] == text
    ensures x == text[..|x|] && (x + text + z)[|text|..] == text[|text| - |x|..] + z
  {
    assert (x + text + z)[..|text|][..|x|] == x;
    assert (x + text + z)[|text|..] == (x + text)[|text|..] + z;
    assert (x + text)[|text|..] == text[|text| - |x|..];
  }

  lemma FoundBefore(pre: string, text: string, z: string, i: nat)
    requires i <= |pre| < i + |text| && OccursAt(pre + text + z, text, i)
    ensures var c, d := pre + text + z, |pre| - i;
            && pre == pre[..i] + text[..d]
            && c[..i] == pre[..i] && c[i + |text|..] == text[|text| - d..] + z
  {
    var c, x := pre + text + z, pre[i..];
    assert pre == pre[..i] + x;
    assert c[i..] == x + text + z;
    assert c[i..][..|text|] == c[i..i + |text|];
    OverlappingCopy(x, text, z);
    assert c[i..][|text|..] == c[i + |text|..];
  }

  /** When replacing a text back is accepted, it restores the document exactly if the first occurrence it finds
      is the one put in, or overlaps it in a way that leaves the same text; in particular if that text occurs
      only once, overlaps counted. */
  lemma ReplaceUndoesReplace(content: string, target: string, text: string)
    requires target != "" && text != "" && target != text && Fits(target) && Fits(text)
    requires UniqueIndex(content, target).Ok?
    requires var c := Splice(content, UniqueIndex(content, target).value, |target|, text); UniqueIndex(c, text).Ok?
    ensures var at := UniqueIndex(content, target).value;
            var c := Splice(content, at, |target|, text);
            var i := UniqueIndex(c, text).value;
            && Applied(content, Replace(Str(target), Str(text))) == Ok(c)
            && i <= at < i + |text|
            && (Applied(c, Replace(Str(text), Str(target))) == Ok(content)
                <==> text[..at - i] + target == target + text[|text| - (at - i)..])
            && ((forall j: nat | OccursAt(c, text, j) :: j == at) ==>
                  Applied(c, Replace(Str(text), Str(target))) == Ok(content))
  {
    hide UniqueIndex, Applied;
    ReplacedAt(content, target, text);
    var at := UniqueIndex(content, target).value;
    var c := Splice(content, at, |target|, text);
    var pre, z := content[..at], content[at + |target|..];
    assert content == pre + target + z && c == pre + text + z;
    assert OccursAt(c, text, at) by { assert c[at..at + |text|] == text; }
    RestoredIff(pre, target, text, z);
  }

  lemma ReplacedAt(content: string, target: string, text: string)
    requires target != "" && target != text && Fits(target) && Fits(text) && UniqueIndex(content, target).Ok?
    ensures var i := UniqueIndex(content, target).value;
            && OccursAt(content, target, i)
            && (forall j: nat | OccursAt(content, target, j) :: i <= j < i + |target|)
            && Applied(content, Replace(Str(target), Str(text))) == Ok(content[..i] + text + content[i + |target|..])
  {
    hide OccursAt;
  }

  lemma AroundCopy(pre: string, target: string, text: string, z: string, i: nat)
    requires i <= |pre| < i + |text| && OccursAt(pre + text + z, text, i)
    ensures var c, d := pre + text + z, |pre| - i;
            c[..i] + target + c[i + |text|..] == pre + target + z
            <==> text[..d] + target == target + text[|text| - d..]
  {
    var d := |pre| - i;
    FoundBefore(pre, text, z, i);
    assert pre + target + z == pre[..i] + (text[..d] + target) + z;
    CancelMiddle(pre[..i], target + text[|text| - d..], text[..d] + target, z);
    assert pre[..i] + target + (text[|text| - d..] + z) == pre[..i] + (target + text[|text| - d..]) + z;
  }

  lemma RestoredIff(pre: string, target: string, text: string, z: string)
    requires target != "" && text != "" && target != text && Fits(target) && Fits(text)
    requires UniqueIndex(pre + text + z, text).Ok?
    requires OccursAt(pre + text + z, text, |pre|)
    ensures var c, i := pre + text + z, UniqueIndex(pre + text + z, text).value;
            && i <= |pre| < i + |text|
            && (Applied(c, Replace(Str(text), Str(target))) == Ok(pre + target + z)
                <==> text[..|pre| - i] + target == target + text[|text| - (|pre| - i)..])
            && ((forall j: nat | OccursAt(c, text, j) :: j == |pre|) ==>
                  Applied(c, Replace(Str(text), Str(target))) == Ok(pre + target + z))
  {
    hide UniqueIndex, OccursAt, Applied;
    var c, i := pre + text + z, UniqueIndex(pre + text + z, text).value;
    ReplacedAt(c, text, target);
    AroundCopy(pre, target, text, z, i);
    if i == |pre| {
      assert text[..0] + target == target + text[|text|..];
    }
  }

  // Fields and batches

  /** A field must be a string of at most 120 000 characters, and not be empty where a text is required. */
  lemma FragmentIff(f: Field, required: bool)
    ensures Fragment(f, required).Ok? <==> f.Str? && (required ==> f.s != "") && |f.s| <= 120_000
    ensures Fragment(f, required).Ok? ==> Fragment(f, required).value == f.s
  {
  }

  /** The documents of a batch, from the one given on, each what its edit makes of the one before. */
  ghost predicate Stages(content: string, edits: seq<Edit>, stages: seq<string>) {
    && |stages| == |edits| + 1 && stages[0] == content
    && forall k: nat | k < |edits| :: StageFollows(edits, stages, k)
  }

  ghost predicate StageFollows(edits: seq<Edit>, stages: seq<string>, k: nat)
    requires k < |edits| && |stages| == |edits| + 1
  {
    Applied(stages[k], edits[k]) == Ok(stages[k + 1]) && |stages[k + 1]| <= 120_000
  }

  lemma {:induction false} StagesOfBatch(content: string, edits: seq<Edit>, result: string)
    ensures AppliedAll(content, edits) == Ok(result)
       <==> exists stages :: Stages(content, edits, stages) && stages[|edits|] == result
    decreases |edits|
  {
    hide Applied;
    if edits == [] {
      assert content == result ==> Stages(content, edits, [content]);
    } else {
      var r := AppliedWithinLimit(content, edits[0]);
      if r.Ok? {
        StagesOfBatch(r.value, edits[1..], result);
        if rest :| Stages(r.value, edits[1..], rest) && rest[|edits| - 1] == result {
          var stages := [content] + rest;
          forall k: nat | k < |edits| ensures StageFollows(edits, stages, k) {
            if k > 0 { assert StageFollows(edits[1..], rest, k - 1); }
          }
          assert Stages(content, edits, stages);
        }
      }
      if stages :| Stages(content, edits, stages) && stages[|edits|] == result {
        assert StageFollows(edits, stages, 0);
        forall k: nat | k < |edits| - 1 ensures StageFollows(edits[1..], stages[1..], k) {
          assert StageFollows(edits, stages, k + 1);
        }
        assert Stages(r.value, edits[1..], stages[1..]) && stages[1..][|edits| - 1] == result;
      }
    }
  }

  /** A call accepts from 1 to 32 edits that make one document of at most 120 000 characters after another, of
      which the last differs from the first. */
  lemma EditedIff(markdown: string, edits: seq<Edit>, result: string)
    ensures Edited(markdown, edits) == Ok(result)
       <==> 1 <= |edits| <= 32 && result != markdown
            && exists stages :: Stages(markdown, edits, stages) && stages[|edits|] == result
  {
    hide Applied, Stages, AppliedAll;
    StagesOfBatch(markdown, edits, result);
  }

  // Headings and sections

  lemma {:induction false} HashesAre(s: string)
    ensures forall i | 0 <= i < Hashes(s) :: s[i] == '#'
    ensures Hashes(s) < |s| ==> s[Hashes(s)] != '#'
    decreases |s|
  {
    if s != "" && s[0] == '#' {
      HashesAre(s[1..]);
    }
  }

  lemma {:induction false} SpacesAre(s: string, i: nat)
    requires i <= |s|
    ensures forall j | i <= j < SkipSpaces(s, i) :: IsSpace(s[j])
    ensures SkipSpaces(s, i) < |s| ==> !IsSpace(s[SkipSpaces(s, i)])
    decreases |s| - i
  {
    if i < |s| && IsSpace(s[i]) {
      SpacesAre(s, i + 1);
    }
  }

  /** From one to six number signs, whitespace, and something else. */
  predicate HeadingOf(s: string, n: nat, k: nat) {
    && 1 <= n <= 6 && n < k < |s| && (forall i | 0 <= i < n :: s[i] == '#')
    && (forall i | n <= i < k :: IsSpace(s[i])) && !IsSpace(s[k])
  }

  lemma HeadingLevelIff(s: string, n: nat)
    requires n > 0
    ensures HeadingLevel(s) == n <==> exists k: nat :: HeadingOf(s, n, k)
  {
    HashesAre(s);
    SpacesAre(s, Hashes(s));
    if HeadingLevel(s) == n {
      assert HeadingOf(s, n, SkipSpaces(s, n));
    }
    if k: nat :| HeadingOf(s, n, k) {
      assert s[n] != '#';
      assert Hashes(s) == n;
      assert SkipSpaces(s, n) == k;
    }
  }

  /** A section is named by a heading of one line. */
  lemma IsHeadingIff(s: string)
    ensures IsHeading(s)
       <==> exists n: nat, k: nat :: HeadingOf(s, n, k) && forall i | k < i < |s| :: s[i] != '\n'
  {
    HashesAre(s);
    SpacesAre(s, Hashes(s));
    if IsHeading(s) {
      assert HeadingOf(s, Hashes(s), SkipSpaces(s, Hashes(s)));
    }
    if n: nat, k: nat :| HeadingOf(s, n, k) && forall i | k < i < |s| :: s[i] != '\n' {
      HeadingLevelIff(s, n);
      assert s[n] != '#';
      assert Hashes(s) == n && SkipSpaces(s, n) == k;
    }
  }

  lemma {:induction false} LineTextIs(line: string)
    ensures |LineText(line)| <= |line| && LineText(line) == line[..|LineText(line)|]
    ensures forall i | |LineText(line)| <= i < |line| :: line[i] == '\n' || line[i] == '\r'
    ensures LineText(line) != "" ==> var c := line[|LineText(line)| - 1]; c != '\n' && c != '\r'
    decreases |line|
  {
    if line != "" && (line[|line| - 1] == '\n' || line[|line| - 1] == '\r') {
      LineTextIs(line[..|line| - 1]);
    }
  }

  /** A section is found for a heading that is the text of exactly one line. Its body goes from behind that line
      up to the next line that is a heading of the same or a smaller level, or the end. */
  ghost predicate SectionAt(content: string, heading: string, lines: seq<string>, h: nat, end: nat) {
    && AreLines(lines) && Join(lines) == content && h < end <= |lines|
    && (forall i | 0 <= i < |lines| :: LineText(lines[i]) == heading <==> i == h)
    && (forall i | h < i < end :: !(1 <= HeadingLevel(LineText(lines[i])) <= HeadingLevel(heading)))
    && (end < |lines| ==> 1 <= HeadingLevel(LineText(lines[end])) <= HeadingLevel(heading))
  }

  lemma {:induction false} OneMatch(lines: seq<string>, heading: string)
    ensures Matches(lines, heading) == 1
       <==> FirstMatch(lines, heading) < |lines|
            && forall i | 0 <= i < |lines| && LineText(lines[i]) == heading :: i == FirstMatch(lines, heading)
    decreases |lines|
  {
    hide LineText;
    if lines != [] {
      var rest := lines[1..];
      OneMatch(rest, heading);
      if IsHeadingLine(lines[0], heading) {
        assert Matches(lines, heading) == 1 <==> Matches(rest, heading) == 0;
        assert forall i | 0 < i < |lines| :: lines[i] == rest[i - 1];
      } else {
        assert Matches(lines, heading) == Matches(rest, heading);
        assert FirstMatch(lines, heading) == 1 + FirstMatch(rest, heading);
        assert forall i | 0 < i < |lines| :: lines[i] == rest[i - 1];
        assert forall i | 0 <= i < |rest| :: rest[i] == lines[i + 1];
      }
    }
  }

  lemma {:induction false} SectionEndIs(lines: seq<string>, i: nat, level: nat, end: nat)
    requires i <= end <= |lines| && (end < |lines| ==> EndsSection(lines[end], level))
    requires forall j | i <= j < end :: !EndsSection(lines[j], level)
    ensures SectionEnd(lines, i, level) == end
    decreases end - i
  {
    if i < end { SectionEndIs(lines, i + 1, level, end); }
  }

  lemma SectionIff(content: string, heading: string, s: Section)
    requires IsHeading(heading)
    ensures Locate(content, heading) == Ok(s)
       <==> exists lines, h, end :: SectionAt(content, heading, lines, h, end)
              && s == Section(Join(lines[..h + 1]), Join(lines[h + 1..end]), Join(lines[end..]))
  {
    hide HeadingLevel, LineText, Join, IsHeading;
    var lines := SplitLines(content);
    OneMatch(lines, heading);
    var h := FirstMatch(lines, heading);
    if Locate(content, heading).Ok? {
      var end := SectionEnd(lines, h + 1, HeadingLevel(heading));
      assert SectionAt(content, heading, lines, h, end);
    }
    forall l, g: nat, e: nat | SectionAt(content, heading, l, g, e)
      ensures Locate(content, heading) == Ok(Section(Join(l[..g + 1]), Join(l[g + 1..e]), Join(l[e..])))
    {
      SplitOfJoin(l);
      assert l == lines && IsHeadingLine(lines[g], heading) && h == g;
      SectionEndIs(lines, h + 1, HeadingLevel(heading), e);
    }
  }

  /** A section's replacement keeps what is before and behind it, and gives the new body a final newline unless
      it is empty or has one. */
  lemma SectionReplacedIff(content: string, heading: string, body: string, result: string)
    requires IsHeading(heading) && Fits(heading) && Fits(body)
    ensures SectionReplaced(content, Str(heading), Str(body)) == Ok(result)
       <==> exists s :: Locate(content, heading) == Ok(s)
              && result == s.before + body
                   + (if body == "" || body[|body| - 1] == '\n' then "" else "\n") + s.after
  {
    hide Locate, IsHeading;
    IsNotEmpty(heading);
    var found := Locate(content, heading);
    if found.Ok? {
      var s := found.value;
      var newline := if body == "" || body[|body| - 1] == '\n' then "" else "\n";
      assert Terminated(body) == body + newline;
      assert s.before + Terminated(body) + s.after == s.before + body + newline + s.after;
    }
  }

  lemma IsNotEmpty(heading: string)
    requires IsHeading(heading)
    ensures heading != ""
  {
  }
}
