/** src/ai_layer/application/epic_spec_editor.py: document edits by unique anchor and by section. */
module SpecEditor {
  import opened Text

  const MAX_EPIC_SPEC_CHARS := 120_000
  const MAX_EPIC_SPEC_EDIT_OPERATIONS := 32

  /** An untyped field of an edit: a string, or anything else, absence included. */
  datatype Field = Str(s: string) | NotStr

  datatype Edit =
    | Replace(target: Field, replacement: Field)
    | Delete(target: Field)
    | InsertBefore(target: Field, text: Field)
    | InsertAfter(target: Field, text: Field)
    | ReplaceSection(heading: Field, content: Field)
    | UnknownOperation
    | NotAnObject

  datatype EditError =
    | NotAString | Required | TooLong | BadHeading | MatchCount(n: nat) | NoOp | BadOperation | BadEdit
    | NoEdits | TooManyEdits | ResultTooLong | NoNetChange

  datatype Result<+T> = Ok(value: T) | Err(error: EditError) {
    predicate IsFailure() { Err? }
    function PropagateFailure<U>(): Result<U>
      requires Err?
    {
      Err(error)
    }
    function Extract(): T
      requires Ok?
    {
      value
    }
  }

  /** `_fragment` */
  function Fragment(f: Field, required: bool): Result<string> {
    if f.NotStr? then Err(NotAString)
    else if required && f.s == "" then Err(Required)
    else if |f.s| > MAX_EPIC_SPEC_CHARS then Err(TooLong)
    else Ok(f.s)
  }

  // Unique anchors

  /** `_unique_index` */
  function UniqueIndex(content: string, target: string): (r: Result<nat>)
    requires target != ""
    ensures r.Ok? ==>
              && OccursAt(content, target, r.value)
              && forall j: nat | OccursAt(content, target, j) :: r.value <= j < r.value + |target|
  {
    var n := Count(content, target, 0);
    if n != 1 then Err(MatchCount(n))
    else
      CountIsOne(content, target);
      Ok(Find(content, target, 0))
  }

  /** `content.replace(target, replacement, 1)` at the given occurrence. */
  function Splice(content: string, i: nat, n: nat, replacement: string): string
    requires i + n <= |content|
  {
    content[..i] + replacement + content[i + n..]
  }

  // Sections

  /** Number of leading `#` characters. */
  function Hashes(s: string): (n: nat)
    ensures n <= |s|
  {
    if s != "" && s[0] == '#' then 1 + Hashes(s[1..]) else 0
  }

  /** Index of the first character at or after `i` that is not whitespace, or `|s|`. */
  function SkipSpaces(s: string, i: nat): (r: nat)
    requires i <= |s|
    ensures i <= r <= |s|
    decreases |s| - i
  {
    if i < |s| && IsSpace(s[i]) then SkipSpaces(s, i + 1) else i
  }

  /** Level of the heading that `^(#{1,6})\s+\S` matches at the start of `s`, or 0 if it does not. */
  function HeadingLevel(s: string): nat {
    var n := Hashes(s);
    if 1 <= n <= 6 && n < SkipSpaces(s, n) < |s| then n else 0
  }

  /** `(#{1,6})\s+\S.*` matches all of `s`: nothing after the first word character is a newline. */
  predicate IsHeading(s: string) {
    HeadingLevel(s) > 0 && forall i | SkipSpaces(s, Hashes(s)) < i < |s| :: s[i] != '\n'
  }

  /** `line.rstrip("\r\n")` */
  function LineText(line: string): string {
    if line != "" && (line[|line| - 1] == '\n' || line[|line| - 1] == '\r') then LineText(line[..|line| - 1]) else line
  }

  predicate IsHeadingLine(line: string, heading: string) {
    LineText(line) == heading
  }

  function Matches(lines: seq<string>, heading: string): (n: nat)
    ensures n > 0 <==> exists i :: 0 <= i < |lines| && IsHeadingLine(lines[i], heading)
  {
    if lines == [] then 0
    else
      var n := Matches(lines[1..], heading);
      assert n > 0 <==> exists i :: 0 < i < |lines| && IsHeadingLine(lines[i], heading) by {
        if i :| 0 < i < |lines| && IsHeadingLine(lines[i], heading) {
          assert lines[1..][i - 1] == lines[i];
        }
      }
      (if IsHeadingLine(lines[0], heading) then 1 else 0) + n
  }

  function FirstMatch(lines: seq<string>, heading: string): (i: nat)
    ensures i <= |lines| && (i < |lines| ==> IsHeadingLine(lines[i], heading))
    ensures forall j | 0 <= j < i :: !IsHeadingLine(lines[j], heading)
  {
    if lines == [] || IsHeadingLine(lines[0], heading) then 0 else 1 + FirstMatch(lines[1..], heading)
  }

  /** A line that ends a section of the given level. */
  predicate EndsSection(line: string, level: nat) {
    1 <= HeadingLevel(LineText(line)) <= level
  }

  /** First line at or after `i` that ends the section, or the end of the document. */
  function SectionEnd(lines: seq<string>, i: nat, level: nat): (end: nat)
    requires i <= |lines|
    ensures i <= end <= |lines| && (end < |lines| ==> EndsSection(lines[end], level))
    ensures forall j | i <= j < end :: !EndsSection(lines[j], level)
    decreases |lines| - i
  {
    if i == |lines| || EndsSection(lines[i], level) then i else SectionEnd(lines, i + 1, level)
  }

  /** A document split at one section; `before` includes the heading line. */
  datatype Section = Section(before: string, body: string, after: string)

  function Locate(content: string, heading: string): Result<Section> {
    if !IsHeading(heading) then Err(BadHeading)
    else
      var lines := SplitLines(content);
      var n := Matches(lines, heading);
      if n != 1 then Err(MatchCount(n))
      else
        var h := FirstMatch(lines, heading);
        var end := SectionEnd(lines, h + 1, HeadingLevel(heading));
        Ok(Section(Join(lines[..h + 1]), Join(lines[h + 1..end]), Join(lines[end..])))
  }

  /** The body is given a final newline unless it is empty. */
  function Terminated(body: string): string {
    if body != "" && !EndsLine(body) then body + "\n" else body
  }

  /** What `_replace_section` promises, with the checks in its order. */
  function SectionReplaced(content: string, heading: Field, body: Field): Result<string> {
    var h :- Fragment(heading, true);
    var s :- Locate(content, h);
    var b :- Fragment(body, false);
    Ok(s.before + Terminated(b) + s.after)
  }

  /** The reading half of the lens: the body of a section. */
  function ReadSection(content: string, heading: string): Result<string> {
    var s :- Locate(content, heading);
    Ok(s.body)
  }

  // Batches

  function Applied(content: string, e: Edit): Result<string> {
    match e
    case Replace(target, replacement) =>
      var t :- Fragment(target, true);
      var r :- Fragment(replacement, false);
      if t == r then Err(NoOp) else
      var i :- UniqueIndex(content, t);
      Ok(Splice(content, i, |t|, r))
    case Delete(target) =>
      var t :- Fragment(target, true);
      var i :- UniqueIndex(content, t);
      Ok(Splice(content, i, |t|, ""))
    case InsertBefore(target, text) =>
      var t :- Fragment(target, true);
      var x :- Fragment(text, true);
      var i :- UniqueIndex(content, t);
      Ok(Splice(content, i, |t|, x + t))
    case InsertAfter(target, text) =>
      var t :- Fragment(target, true);
      var x :- Fragment(text, true);
      var i :- UniqueIndex(content, t);
      Ok(Splice(content, i, |t|, t + x))
    case ReplaceSection(heading, body) => SectionReplaced(content, heading, body)
    case UnknownOperation => Err(BadOperation)
    case NotAnObject => Err(BadEdit)
  }

  function AppliedWithinLimit(content: string, e: Edit): Result<string> {
    var r :- Applied(content, e);
    if |r| > MAX_EPIC_SPEC_CHARS then Err(ResultTooLong) else Ok(r)
  }

  /** One edit after another, the first error ending the batch. */
  function AppliedAll(content: string, edits: seq<Edit>): Result<string>
    decreases |edits|
  {
    if edits == [] then Ok(content)
    else
      var r :- AppliedWithinLimit(content, edits[0]);
      AppliedAll(r, edits[1..])
  }

  function Edited(markdown: string, edits: seq<Edit>): Result<string> {
    if edits == [] then Err(NoEdits)
    else if |edits| > MAX_EPIC_SPEC_EDIT_OPERATIONS then Err(TooManyEdits)
    else
      var r :- AppliedAll(markdown, edits);
      if r == markdown then Err(NoNetChange) else Ok(r)
  }

  // The code's loops

  method FindSectionStart(lines: seq<string>, heading: string) returns (matches: seq<nat>)
    ensures |matches| == Matches(lines, heading)
    ensures |matches| == 1 ==> matches[0] == FirstMatch(lines, heading) < |lines|
  {
    matches := [];
    for i := 0 to |lines|
      invariant |matches| + Matches(lines[i..], heading) == Matches(lines, heading)
      invariant |matches| >= 1 ==> matches[0] == FirstMatch(lines, heading) < |lines|
      invariant |matches| == 0 ==> forall j | 0 <= j < i :: !IsHeadingLine(lines[j], heading)
    {
      assert lines[i..][1..] == lines[i + 1..];
      if IsHeadingLine(lines[i], heading) {
        matches := matches + [i];
      }
    }
    assert lines[|lines|..] == [];
  }

  /** `_replace_section` */
  method ReplaceSectionText(content: string, heading: Field, body: Field) returns (r: Result<string>)
    ensures r == SectionReplaced(content, heading, body)
  {
    var headingText :- Fragment(heading, true);
    if !IsHeading(headingText) {
      return Err(BadHeading);
    }
    var lines := SplitLines(content);
    var matches := FindSectionStart(lines, headingText);
    if |matches| != 1 {
      return Err(MatchCount(|matches|));
    }
    var start, level := matches[0], HeadingLevel(headingText);
    var end := |lines|;
    var i := start + 1;
    while i < |lines|
      invariant start < i <= |lines| && end == |lines|
      invariant SectionEnd(lines, start + 1, level) == SectionEnd(lines, i, level)
    {
      var candidate := LineText(lines[i]);
      if HeadingLevel(candidate) != 0 && HeadingLevel(candidate) <= level {
        end := i;
        break;
      }
      i := i + 1;
    }
    var normalized :- Fragment(body, false);
    if normalized != "" && !EndsLine(normalized) {
      normalized := normalized + "\n";
    }
    r := Ok(Join(lines[..start + 1]) + normalized + Join(lines[end..]));
  }

  /** `apply_spec_edits` */
  method ApplySpecEdits(markdown: string, edits: seq<Edit>) returns (r: Result<string>)
    ensures r == Edited(markdown, edits)
  {
    if edits == [] {
      return Err(NoEdits);
    }
    if |edits| > MAX_EPIC_SPEC_EDIT_OPERATIONS {
      return Err(TooManyEdits);
    }
    var result := markdown;
    for k := 0 to |edits|
      invariant AppliedAll(markdown, edits) == AppliedAll(result, edits[k..])
    {
      assert edits[k..][0] == edits[k] && edits[k..][1..] == edits[k + 1..];
      match edits[k] {
        case Replace(target, replacement) =>
          var t :- Fragment(target, true);
          var x :- Fragment(replacement, false);
          if t == x {
            return Err(NoOp);
          }
          var i :- UniqueIndex(result, t);
          result := Splice(result, i, |t|, x);
        case Delete(target) =>
          var t :- Fragment(target, true);
          var i :- UniqueIndex(result, t);
          result := Splice(result, i, |t|, "");
        case InsertBefore(target, text) =>
          var t :- Fragment(target, true);
          var x :- Fragment(text, true);
          var i :- UniqueIndex(result, t);
          result := Splice(result, i, |t|, x + t);
        case InsertAfter(target, text) =>
          var t :- Fragment(target, true);
          var x :- Fragment(text, true);
          var i :- UniqueIndex(result, t);
          result := Splice(result, i, |t|, t + x);
        case ReplaceSection(heading, body) =>
          result :- ReplaceSectionText(result, heading, body);
        case UnknownOperation =>
          return Err(BadOperation);
        case NotAnObject =>
          return Err(BadEdit);
      }
      if |result| > MAX_EPIC_SPEC_CHARS {
        return Err(ResultTooLong);
      }
    }
    assert edits[|edits|..] == [];
    if result == markdown {
      return Err(NoNetChange);
    }
    r := Ok(result);
  }
}
