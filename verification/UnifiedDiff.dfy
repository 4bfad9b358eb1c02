/** The parser of unified diffs behind the comparison page (app/services/diff_service.py), with the counts
    the page reports. */
module UnifiedDiff {
  import opened Basics
  import opened Text
  import opened Folds

  datatype Kind = Add | Remove | Context

  /** One displayed line. The content is HTML. */
  datatype Entry = Entry(kind: Kind, oldNum: Option<int>, newNum: Option<int>, content: string)

  datatype Hunk = Hunk(header: string, context: string, lines: seq<Entry>)

  // ----- html.escape -----

  function EscapeHtmlChar(c: char): (e: string)
    ensures e != ""
  {
    match c
    case '&' => "&amp;"
    case '<' => "&lt;"
    case '>' => "&gt;"
    case '\"' => "&quot;"
    case '\'' => "&#x27;"
    case _ => [c]
  }

  function EscapeHtml(s: string): string {
    if s == "" then "" else EscapeHtmlChar(s[0]) + EscapeHtml(s[1..])
  }

  // ----- the hunk header -----

  datatype Header = Header(oldStart: nat, newStart: nat, context: string)

  /** Skips an optional comma and count. */
  function SkipCount(s: string): string {
    if StartsWith(s, ",") && DigitRun(s[1..]) > 0 then s[1 + DigitRun(s[1..])..] else s
  }

  /** A number, then an optional comma and count: the number and what follows. */
  function ReadRange(s: string): Option<(nat, string)> {
    var k := DigitRun(s);
    if k == 0 then None else Some((ParseNat(s[..k]), SkipCount(s[k..])))
  }

  /** What follows the prefix, if it is there. */
  function After(s: string, prefix: string): Option<string> {
    if StartsWith(s, prefix) then Some(s[|prefix|..]) else None
  }

  /** `.*$` matches all of it: no line break but one at the very end. */
  predicate OnlyLastBreak(s: string) {
    forall i :: 0 <= i < |s| - 1 ==> s[i] != '\n'
  }

  /** The old and new start numbers and the trailing context of `@@ -a,b +c,d @@ context`, counts optional. */
  function ParseHeader(line: string): Option<Header> {
    match After(line, "@@ -")
    case None => None
    case Some(r1) =>
      match ReadRange(r1)
      case None => None
      case Some((oldStart, r2)) =>
        match After(r2, " +")
        case None => None
        case Some(r3) =>
          match ReadRange(r3)
          case None => None
          case Some((newStart, r4)) =>
            match After(r4, " @@")
            case None => None
            case Some(context) =>
              if OnlyLastBreak(context) then Some(Header(oldStart, newStart, Strip(context))) else None
  }

  // ----- the parser -----

  datatype State = State(hunks: seq<Hunk>, current: Option<Hunk>, oldNum: int, newNum: int)

  const START := State([], None, 0, 0)

  predicate IsHunkHeader(line: string) {
    StartsWith(line, "@@")
  }

  predicate IsFileHeader(line: string) {
    !IsHunkHeader(line) && (StartsWith(line, "---") || StartsWith(line, "+++"))
  }

  function Finish(s: State): seq<Hunk> {
    if s.current.Some? then s.hunks + [s.current.value] else s.hunks
  }

  function WithEntry(s: State, e: Entry): State
    requires s.current.Some?
  {
    s.(current := Some(s.current.value.(lines := s.current.value.lines + [e])))
  }

  /** The start numbers and context a header opens a hunk with; 1, 1 and none if it is malformed. */
  function HeaderOrDefault(line: string): Header {
    match ParseHeader(line)
    case Some(h) => h
    case None => Header(1, 1, "")
  }

  function ParseLine(s: State, line: string): State {
    if IsHunkHeader(line) then
      var h := HeaderOrDefault(line);
      State(Finish(s), Some(Hunk(line, h.context, [])), h.oldStart, h.newStart)
    else if IsFileHeader(line) || s.current.None? then s
    else if StartsWith(line, "+") then
      WithEntry(s, Entry(Add, None, Some(s.newNum), EscapeHtml(line[1..]))).(newNum := s.newNum + 1)
    else if StartsWith(line, "-") then
      WithEntry(s, Entry(Remove, Some(s.oldNum), None, EscapeHtml(line[1..]))).(oldNum := s.oldNum + 1)
    else
      var content := if StartsWith(line, " ") then line[1..] else line;
      WithEntry(s, Entry(Context, Some(s.oldNum), Some(s.newNum), EscapeHtml(content)))
        .(oldNum := s.oldNum + 1, newNum := s.newNum + 1)
  }

  function ParseLines(lines: seq<string>, s: State): State {
    FoldLeft(ParseLine, lines, s)
  }

  lemma ParseSnoc(lines: seq<string>, line: string, s: State)
    ensures ParseLines(lines + [line], s) == ParseLine(ParseLines(lines, s), line)
  {
    FoldSnoc(ParseLine, lines, line, s);
  }

  function Parse(lines: seq<string>): seq<Hunk> {
    Finish(ParseLines(lines, START))
  }

  method ParseUnifiedDiff(diffLines: seq<string>) returns (hunks: seq<Hunk>)
    ensures hunks == Parse(diffLines)
  {
    hunks := [];
    var currentHunk: Option<Hunk> := None;
    var oldLineNum, newLineNum := 0, 0;
    for i := 0 to |diffLines|
      invariant ParseLines(diffLines[..i], START) == State(hunks, currentHunk, oldLineNum, newLineNum)
    {
      assert diffLines[..i + 1][..i] == diffLines[..i];
      var line := diffLines[i];
      if StartsWith(line, "@@") {
        if currentHunk.Some? {
          hunks := hunks + [currentHunk.value];
        }
        var parsed, context := ParseHeader(line), "";
        if parsed.Some? {
          oldLineNum, newLineNum, context := parsed.value.oldStart, parsed.value.newStart, parsed.value.context;
        } else {
          oldLineNum, newLineNum := 1, 1;
        }
        currentHunk := Some(Hunk(line, context, []));
      } else if StartsWith(line, "---") || StartsWith(line, "+++") {
        continue;
      } else if currentHunk.Some? {
        var h := currentHunk.value;
        if StartsWith(line, "+") {
          currentHunk := Some(h.(lines := h.lines + [Entry(Add, None, Some(newLineNum), EscapeHtml(line[1..]))]));
          newLineNum := newLineNum + 1;
        } else if StartsWith(line, "-") {
          currentHunk := Some(h.(lines := h.lines + [Entry(Remove, Some(oldLineNum), None, EscapeHtml(line[1..]))]));
          oldLineNum := oldLineNum + 1;
        } else {
          var content := if StartsWith(line, " ") then line[1..] else line;
          var entry := Entry(Context, Some(oldLineNum), Some(newLineNum), EscapeHtml(content));
          currentHunk := Some(h.(lines := h.lines + [entry]));
          oldLineNum, newLineNum := oldLineNum + 1, newLineNum + 1;
        }
      }
    }
    assert diffLines[..|diffLines|] == diffLines;
    if currentHunk.Some? {
      hunks := hunks + [currentHunk.value];
    }
  }

  // ----- the reported counts -----

  predicate CountsAsAdded(line: string) {
    StartsWith(line, "+") && !StartsWith(line, "+++")
  }

  predicate CountsAsRemoved(line: string) {
    StartsWith(line, "-") && !StartsWith(line, "---")
  }

  function Added(lines: seq<string>): nat {
    if lines == [] then 0
    else Added(lines[..|lines| - 1]) + if CountsAsAdded(lines[|lines| - 1]) then 1 else 0
  }

  function Removed(lines: seq<string>): nat {
    if lines == [] then 0
    else Removed(lines[..|lines| - 1]) + if CountsAsRemoved(lines[|lines| - 1]) then 1 else 0
  }

  function EntriesOf(entries: seq<Entry>, kind: Kind): nat {
    if entries == [] then 0
    else EntriesOf(entries[..|entries| - 1], kind) + if entries[|entries| - 1].kind == kind then 1 else 0
  }

  function Shown(hunks: seq<Hunk>, kind: Kind): nat {
    if hunks == [] then 0
    else Shown(hunks[..|hunks| - 1], kind) + EntriesOf(hunks[|hunks| - 1].lines, kind)
  }

  /** Some line is a hunk header. */
  predicate HasHunk(lines: seq<string>) {
    lines != [] && (HasHunk(lines[..|lines| - 1]) || IsHunkHeader(lines[|lines| - 1]))
  }

  /** Every changed line comes after some hunk header. */
  predicate HeadersFirst(lines: seq<string>) {
    if lines == [] then true
    else
      var before, line := lines[..|lines| - 1], lines[|lines| - 1];
      HeadersFirst(before) && (CountsAsAdded(line) || CountsAsRemoved(line) ==> HasHunk(before))
  }

  lemma ShownSnoc(hunks: seq<Hunk>, h: Hunk, kind: Kind)
    ensures Shown(hunks + [h], kind) == Shown(hunks, kind) + EntriesOf(h.lines, kind)
  {
    assert (hunks + [h])[..|hunks|] == hunks;
  }

  lemma EntriesSnoc(entries: seq<Entry>, e: Entry, kind: Kind)
    ensures EntriesOf(entries + [e], kind) == EntriesOf(entries, kind) + if e.kind == kind then 1 else 0
  {
    assert (entries + [e])[..|entries|] == entries;
  }

  lemma ShownStep(s: State, line: string, kind: Kind)
    ensures s.current.None? || IsHunkHeader(line) || IsFileHeader(line) ==>
              Shown(Finish(ParseLine(s, line)), kind) == Shown(Finish(s), kind)
    ensures s.current.Some? && !IsHunkHeader(line) && !IsFileHeader(line) ==>
              Shown(Finish(ParseLine(s, line)), kind) == Shown(Finish(s), kind) +
                if kind == (if StartsWith(line, "+") then Add else if StartsWith(line, "-") then Remove else Context)
                then 1 else 0
  {
    var s' := ParseLine(s, line);
    if IsHunkHeader(line) {
      ShownSnoc(Finish(s), s'.current.value, kind);
    } else if s.current.Some? && !IsFileHeader(line) {
      var h, h' := s.current.value, s'.current.value;
      ShownSnoc(s.hunks, h, kind);
      ShownSnoc(s.hunks, h', kind);
      EntriesSnoc(h.lines, h'.lines[|h.lines|], kind);
    }
  }

  lemma OpenStep(s: State, line: string)
    ensures ParseLine(s, line).current.Some? <==> s.current.Some? || IsHunkHeader(line)
  {
  }

  lemma {:induction false} OpenIff(lines: seq<string>)
    ensures ParseLines(lines, START).current.Some? <==> HasHunk(lines)
  {
    if lines != [] {
      OpenIff(lines[..|lines| - 1]);
      OpenStep(ParseLines(lines[..|lines| - 1], START), lines[|lines| - 1]);
    }
  }

  /** The counts and the parser look at a line in the same way. */
  lemma Classified(line: string)
    ensures CountsAsAdded(line) <==> !IsHunkHeader(line) && !IsFileHeader(line) && StartsWith(line, "+")
    ensures CountsAsRemoved(line) <==>
              !IsHunkHeader(line) && !IsFileHeader(line) && !StartsWith(line, "+") && StartsWith(line, "-")
  {
    if line != "" {
      assert StartsWith(line, "+") ==> line[0] == '+';
      assert StartsWith(line, "-") ==> line[0] == '-';
      assert StartsWith(line, "@@") ==> line[0] == '@';
      assert StartsWith(line, "---") ==> line[0] == '-';
      assert StartsWith(line, "+++") ==> line[0] == '+';
    }
  }

  /** Whatever the diff, the added and removed lines shown are as many as the counts reported, as long as
      no changed line precedes the first hunk header. */
  lemma {:induction false} CountsAgree(lines: seq<string>)
    requires HeadersFirst(lines)
    ensures Shown(Parse(lines), Add) == Added(lines) && Shown(Parse(lines), Remove) == Removed(lines)
  {
    if lines != [] {
      var before, line := lines[..|lines| - 1], lines[|lines| - 1];
      CountsAgree(before);
      OpenIff(before);
      Classified(line);
      ShownStep(ParseLines(before, START), line, Add);
      ShownStep(ParseLines(before, START), line, Remove);
    }
  }
}
