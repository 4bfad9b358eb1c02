/** Edit scripts, their unified rendering (POSIX `diff`, "Diff -u or -U Output Format"), and the proof that
    the parsed rendering carries the right line numbers and rebuilds the new text from the old one. */
module DiffReplay {
  import opened Basics
  import opened Text
  import opened UnifiedDiff
  import Folds

  // ----- edit scripts -----

  datatype Op = Keep(text: string) | Del(text: string) | Ins(text: string)

  /** Unchanged lines that are not shown, then a hunk. */
  datatype Segment = Segment(skip: seq<string>, ops: seq<Op>)

  function OldLines(ops: seq<Op>): seq<string> {
    if ops == [] then []
    else
      var rest, op := OldLines(ops[..|ops| - 1]), ops[|ops| - 1];
      if op.Ins? then rest else rest + [op.text]
  }

  function NewLines(ops: seq<Op>): seq<string> {
    if ops == [] then []
    else
      var rest, op := NewLines(ops[..|ops| - 1]), ops[|ops| - 1];
      if op.Del? then rest else rest + [op.text]
  }

  function OldText(script: seq<Segment>): seq<string> {
    if script == [] then []
    else
      var seg := script[|script| - 1];
      OldText(script[..|script| - 1]) + seg.skip + OldLines(seg.ops)
  }

  function NewText(script: seq<Segment>): seq<string> {
    if script == [] then []
    else
      var seg := script[|script| - 1];
      NewText(script[..|script| - 1]) + seg.skip + NewLines(seg.ops)
  }

  // ----- the unified rendering -----

  /** A range of `length` lines that starts after `start` lines. */
  function RangeText(start: nat, length: nat): string {
    if length == 1 then PrintNat(start + 1)
    else PrintNat(if length == 0 then start else start + 1) + "," + PrintNat(length)
  }

  function HeaderText(oldStart: nat, oldLength: nat, newStart: nat, newLength: nat): string {
    "@@ -" + (RangeText(oldStart, oldLength) + (" +" + (RangeText(newStart, newLength) + " @@")))
  }

  function OpText(op: Op): string {
    match op
    case Keep(text) => " " + text
    case Del(text) => "-" + text
    case Ins(text) => "+" + text
  }

  function OpTexts(ops: seq<Op>): seq<string> {
    if ops == [] then [] else OpTexts(ops[..|ops| - 1]) + [OpText(ops[|ops| - 1])]
  }

  /** The header of the hunk that follows `before` and its own skipped lines. */
  function SegmentHeader(before: seq<Segment>, seg: Segment): string {
    HeaderText(|OldText(before) + seg.skip|, |OldLines(seg.ops)|, |NewText(before) + seg.skip|, |NewLines(seg.ops)|)
  }

  function Body(script: seq<Segment>): seq<string> {
    if script == [] then []
    else
      var before, seg := script[..|script| - 1], script[|script| - 1];
      Body(before) + [SegmentHeader(before, seg)] + OpTexts(seg.ops)
  }

  /** The whole diff; nothing at all when nothing changed. */
  function Render(fromName: string, toName: string, script: seq<Segment>): seq<string> {
    if script == [] then [] else ["--- " + fromName, "+++ " + toName] + Body(script)
  }

  // ----- what the parse should be -----

  /** The display of an operation with `o` old and `n` new lines before it. */
  function EntryFor(op: Op, o: nat, n: nat): Entry {
    match op
    case Keep(text) => Entry(Context, Some(o + 1), Some(n + 1), EscapeHtml(text))
    case Del(text) => Entry(Remove, Some(o + 1), None, EscapeHtml(text))
    case Ins(text) => Entry(Add, None, Some(n + 1), EscapeHtml(text))
  }

  /** The display of a hunk with `o` old and `n` new lines before it. */
  function Expected(ops: seq<Op>, o: nat, n: nat): seq<Entry> {
    if ops == [] then []
    else
      var before := ops[..|ops| - 1];
      Expected(before, o, n) + [EntryFor(ops[|ops| - 1], o + |OldLines(before)|, n + |NewLines(before)|)]
  }

  function ExpectedHunk(before: seq<Segment>, seg: Segment): Hunk {
    Hunk(SegmentHeader(before, seg), "", Expected(seg.ops, |OldText(before) + seg.skip|, |NewText(before) + seg.skip|))
  }

  function ExpectedHunks(script: seq<Segment>): seq<Hunk> {
    if script == [] then []
    else ExpectedHunks(script[..|script| - 1]) + [ExpectedHunk(script[..|script| - 1], script[|script| - 1])]
  }

  /** The rendered line cannot be mistaken for a file header. */
  predicate Honest(op: Op) {
    match op
    case Keep(_) => true
    case Del(text) => !StartsWith(text, "--")
    case Ins(text) => !StartsWith(text, "++")
  }

  predicate AllHonest(ops: seq<Op>) {
    forall i :: 0 <= i < |ops| ==> Honest(ops[i])
  }

  predicate HonestScript(script: seq<Segment>) {
    forall i :: 0 <= i < |script| ==> AllHonest(script[i].ops)
  }

  // ----- reading the header back -----

  lemma AfterPrefix(prefix: string, rest: string)
    ensures After(prefix + rest, prefix) == Some(rest)
  {
  }

  lemma StartsWithCons(c: char, text: string, prefix: string)
    requires prefix != ""
    ensures StartsWith([c] + text, prefix) <==> prefix[0] == c && StartsWith(text, prefix[1..])
  {
    var line := [c] + text;
    if StartsWith(line, prefix) {
      assert forall i :: 0 < i < |prefix| ==> prefix[i] == line[i] == text[i - 1];
    }
  }

  lemma SplitPrefix(a: string, b: string)
    ensures (a + b)[|a|..] == b && (a + b)[..|a|] == a
  {
  }

  lemma ReadDigits(digits: string, rest: string)
    requires digits != "" && AllDigits(digits) && (rest == "" || !IsDigit(rest[0]))
    ensures ReadRange(digits + rest) == Some((ParseNat(digits), SkipCount(rest)))
  {
    DigitRunOf(digits, rest);
    SplitPrefix(digits, rest);
  }

  lemma SkipPrintedCount(count: string, rest: string)
    requires count != "" && AllDigits(count) && (rest == "" || !IsDigit(rest[0]))
    ensures SkipCount("," + (count + rest)) == rest
  {
    var text := "," + (count + rest);
    DigitRunOf(count, rest);
    assert text[1..] == count + rest;
    SplitPrefix("," + count, rest);
    assert text == "," + count + rest;
  }

  /** A printed range is read up to what follows it. */
  lemma RangeRead(start: nat, length: nat, rest: string)
    requires rest != "" && rest[0] == ' '
    ensures ReadRange(RangeText(start, length) + rest) == Some((if length == 0 then start else start + 1, rest))
  {
    var first := if length == 0 then start else start + 1;
    ParsePrintNat(first);
    if length == 1 {
      ReadDigits(PrintNat(first), rest);
    } else {
      var tail := "," + (PrintNat(length) + rest);
      SkipPrintedCount(PrintNat(length), rest);
      ReadDigits(PrintNat(first), tail);
      RangeParts(PrintNat(first), PrintNat(length), rest);
    }
  }

  lemma RangeParts(first: string, count: string, rest: string)
    ensures first + "," + count + rest == first + ("," + (count + rest))
  {
  }

  lemma HeaderRead(oldStart: nat, oldLength: nat, newStart: nat, newLength: nat)
    ensures HeaderOrDefault(HeaderText(oldStart, oldLength, newStart, newLength))
         == Header(if oldLength == 0 then oldStart else oldStart + 1,
                   if newLength == 0 then newStart else newStart + 1, "")
    ensures IsHunkHeader(HeaderText(oldStart, oldLength, newStart, newLength))
  {
    var oldRange, newRange := RangeText(oldStart, oldLength), RangeText(newStart, newLength);
    RangeRead(newStart, newLength, " @@");
    RangeRead(oldStart, oldLength, " +" + (newRange + " @@"));
    HeaderParts(oldRange, newRange, if oldLength == 0 then oldStart else oldStart + 1,
                if newLength == 0 then newStart else newStart + 1);
  }

  lemma HeaderParts(oldRange: string, newRange: string, oldStart: nat, newStart: nat)
    requires ReadRange(newRange + " @@") == Some((newStart, " @@"))
    requires ReadRange(oldRange + (" +" + (newRange + " @@"))) == Some((oldStart, " +" + (newRange + " @@")))
    ensures var text := "@@ -" + (oldRange + (" +" + (newRange + " @@")));
            ParseHeader(text) == Some(Header(oldStart, newStart, "")) && IsHunkHeader(text)
  {
    var r3 := newRange + " @@";
    var r1 := oldRange + (" +" + r3);
    AfterPrefix("@@ -", r1);
    AfterPrefix(" +", r3);
    AfterPrefix(" @@", "");
    assert " @@" + "" == " @@";
    HeaderSteps("@@ -" + r1, r1, " +" + r3, r3, " @@", oldStart, newStart);
  }

  lemma HeaderSteps(text: string, r1: string, r2: string, r3: string, r4: string, oldStart: nat, newStart: nat)
    ensures After(text, "@@ -") == Some(r1) && ReadRange(r1) == Some((oldStart, r2)) &&
            After(r2, " +") == Some(r3) && ReadRange(r3) == Some((newStart, r4)) && After(r4, " @@") == Some("") ==>
              ParseHeader(text) == Some(Header(oldStart, newStart, "")) && IsHunkHeader(text)
  {
    assert StartsWith("@@ -", "@@");
  }

  // ----- parsing a hunk -----

  lemma ParseConcat(a: seq<string>, b: seq<string>, s: State)
    ensures ParseLines(a + b, s) == ParseLines(b, ParseLines(a, s))
  {
    Folds.FoldConcat(ParseLine, a, b, s);
  }

  /** What one operation should do to an open hunk. */
  function OpStep(op: Op, s: State): State
    requires s.current.Some?
  {
    match op
    case Keep(t) => WithEntry(s, Entry(Context, Some(s.oldNum), Some(s.newNum), EscapeHtml(t)))
                      .(oldNum := s.oldNum + 1, newNum := s.newNum + 1)
    case Del(t) => WithEntry(s, Entry(Remove, Some(s.oldNum), None, EscapeHtml(t))).(oldNum := s.oldNum + 1)
    case Ins(t) => WithEntry(s, Entry(Add, None, Some(s.newNum), EscapeHtml(t))).(newNum := s.newNum + 1)
  }

  function Sign(op: Op): char {
    match op
    case Keep(_) => ' '
    case Del(_) => '-'
    case Ins(_) => '+'
  }

  /** How the parser classifies the line with sign `c` and text `t`. */
  lemma SignedLine(c: char, t: string)
    ensures var line := [c] + t;
            && line[1..] == t
            && (StartsWith(line, "+") <==> c == '+') && (StartsWith(line, "-") <==> c == '-')
            && (StartsWith(line, " ") <==> c == ' ') && (c != '@' ==> !IsHunkHeader(line))
            && (StartsWith(line, "---") <==> c == '-' && StartsWith(t, "--"))
            && (StartsWith(line, "+++") <==> c == '+' && StartsWith(t, "++"))
  {
    StartsWithCons(c, t, "+");
    StartsWithCons(c, t, "-");
    StartsWithCons(c, t, " ");
    StartsWithCons(c, t, "@@");
    StartsWithCons(c, t, "---");
    StartsWithCons(c, t, "+++");
    assert "---"[1..] == "--" && "+++"[1..] == "++";
  }

  lemma OpTextLooks(op: Op)
    ensures var line := OpText(op);
            && line[1..] == op.text && !IsHunkHeader(line)
            && (IsFileHeader(line) <==> !Honest(op))
            && (StartsWith(line, "+") <==> op.Ins?) && (StartsWith(line, "-") <==> op.Del?)
            && (StartsWith(line, " ") <==> op.Keep?)
  {
    SignedLine(Sign(op), op.text);
  }

  lemma ParseOp(op: Op, s: State)
    requires s.current.Some?
    ensures ParseLine(s, OpText(op)) == if Honest(op) then OpStep(op, s) else s
  {
    OpTextLooks(op);
  }

  /** The numbers a hunk is opened with fit it: the start matters only if the side has lines. */
  predicate Opens(ops: seq<Op>, o: nat, n: nat, s: State) {
    && s.current.Some? && s.current.value.lines == []
    && (OldLines(ops) != [] ==> s.oldNum == o + 1)
    && (NewLines(ops) != [] ==> s.newNum == n + 1)
  }

  /** The state after a hunk's operations, all of them displayed. */
  function Displayed(ops: seq<Op>, o: nat, n: nat, s: State): State
    requires s.current.Some?
  {
    State(s.hunks, Some(s.current.value.(lines := Expected(ops, o, n))),
          s.oldNum + |OldLines(ops)|, s.newNum + |NewLines(ops)|)
  }

  lemma DisplayStep(ops: seq<Op>, o: nat, n: nat, s: State)
    requires ops != [] && Opens(ops, o, n, s)
    ensures OpStep(ops[|ops| - 1], Displayed(ops[..|ops| - 1], o, n, s)) == Displayed(ops, o, n, s)
  {
  }

  lemma {:induction false} ParseOps(ops: seq<Op>, o: nat, n: nat, s: State)
    requires Opens(ops, o, n, s) && AllHonest(ops)
    ensures ParseLines(OpTexts(ops), s) == Displayed(ops, o, n, s)
  {
    if ops != [] {
      var before, op := ops[..|ops| - 1], ops[|ops| - 1];
      ParseOps(before, o, n, s);
      ParseSnoc(OpTexts(before), OpText(op), s);
      ParseOp(op, Displayed(before, o, n, s));
      DisplayStep(ops, o, n, s);
    }
  }

  lemma OpAddsLine(op: Op, s: State)
    requires s.current.Some?
    ensures var s' := ParseLine(s, OpText(op));
            && s'.current.Some? && s'.hunks == s.hunks
            && |s'.current.value.lines| == |s.current.value.lines| + if Honest(op) then 1 else 0
  {
    ParseOp(op, s);
  }

  function HonestOps(ops: seq<Op>): (n: nat)
    ensures n <= |ops| && (n == |ops| <==> AllHonest(ops))
  {
    if ops == [] then 0
    else
      var before, op := ops[..|ops| - 1], ops[|ops| - 1];
      HonestOps(before) + if Honest(op) then 1 else 0
  }

  /** A hunk shows as many lines as it has honest operations. */
  lemma {:induction false} ParsedCount(ops: seq<Op>, s: State)
    requires s.current.Some? && s.current.value.lines == []
    ensures var s' := ParseLines(OpTexts(ops), s);
            && s'.current.Some? && s'.hunks == s.hunks && |s'.current.value.lines| == HonestOps(ops)
  {
    if ops != [] {
      var before, op := ops[..|ops| - 1], ops[|ops| - 1];
      ParsedCount(before, s);
      ParseSnoc(OpTexts(before), OpText(op), s);
      OpAddsLine(op, ParseLines(OpTexts(before), s));
    }
  }

  lemma {:induction false} ExpectedCount(ops: seq<Op>, o: nat, n: nat)
    ensures |Expected(ops, o, n)| == |ops|
  {
    if ops != [] {
      ExpectedCount(ops[..|ops| - 1], o, n);
    }
  }

  // ----- parsing a rendering -----

  lemma NamesAreFileHeaders(name: string)
    ensures IsFileHeader("--- " + name) && IsFileHeader("+++ " + name)
  {
    assert "--- " + name == ['-'] + ("-- " + name) && "+++ " + name == ['+'] + ("++ " + name);
    assert ("-- " + name)[..2] == "--" && ("++ " + name)[..2] == "++";
    SignedLine('-', "-- " + name);
    SignedLine('+', "++ " + name);
  }

  lemma ParseFileHeaders(fromName: string, toName: string, rest: seq<string>)
    ensures Parse(["--- " + fromName, "+++ " + toName] + rest) == Parse(rest)
  {
    var a, b := "--- " + fromName, "+++ " + toName;
    NamesAreFileHeaders(fromName);
    NamesAreFileHeaders(toName);
    ParseSnoc([], a, START);
    ParseSnoc([] + [a], b, START);
    assert [] + [a] + [b] == [a, b];
    ParseConcat([a, b], rest, START);
  }

  /** The state after a segment's header. */
  lemma ParseSegmentHeader(before: seq<Segment>, seg: Segment, s: State)
    ensures var o, n := |OldText(before) + seg.skip|, |NewText(before) + seg.skip|;
            var s' := ParseLine(s, SegmentHeader(before, seg));
            && Opens(seg.ops, o, n, s') && s'.hunks == Finish(s)
            && s'.current.value == Hunk(SegmentHeader(before, seg), "", [])
  {
    HeaderRead(|OldText(before) + seg.skip|, |OldLines(seg.ops)|, |NewText(before) + seg.skip|, |NewLines(seg.ops)|);
  }

  /** Parsing one more segment: the hunks before it stay, and its own hunk is what its lines make of it. */
  lemma ParseSegment(before: seq<Segment>, seg: Segment) returns (s: State)
    ensures Opens(seg.ops, |OldText(before) + seg.skip|, |NewText(before) + seg.skip|, s)
    ensures s.current.value == Hunk(SegmentHeader(before, seg), "", []) && s.hunks == Parse(Body(before))
    ensures ParseLines(Body(before + [seg]), START) == ParseLines(OpTexts(seg.ops), s)
  {
    var header := SegmentHeader(before, seg);
    s := ParseLine(ParseLines(Body(before), START), header);
    ParseSegmentHeader(before, seg, ParseLines(Body(before), START));
    ParseSnoc(Body(before), header, START);
    ParseConcat(Body(before) + [header], OpTexts(seg.ops), START);
    assert (before + [seg])[..|before|] == before;
  }

  lemma {:induction false} ParseBody(script: seq<Segment>)
    requires HonestScript(script)
    ensures Parse(Body(script)) == ExpectedHunks(script)
  {
    if script != [] {
      var before, seg := script[..|script| - 1], script[|script| - 1];
      assert before + [seg] == script;
      ParseBody(before);
      var s := ParseSegment(before, seg);
      ParseOps(seg.ops, |OldText(before) + seg.skip|, |NewText(before) + seg.skip|, s);
    }
  }

  /** The rendering of any script is parsed into exactly its hunks, with the right numbers and contents, if
      and only if no removed line starts with `--` and no added line with `++`. */
  lemma {:induction false} ParseRendering(fromName: string, toName: string, script: seq<Segment>)
    ensures Parse(Render(fromName, toName, script)) == ExpectedHunks(script) <==> HonestScript(script)
  {
    if script != [] {
      ParseFileHeaders(fromName, toName, Body(script));
    }
    if HonestScript(script) {
      ParseBody(script);
    } else {
      DishonestBody(script);
    }
  }

  lemma {:induction false} DishonestBody(script: seq<Segment>)
    requires !HonestScript(script)
    ensures Parse(Body(script)) != ExpectedHunks(script)
  {
    var before, seg := script[..|script| - 1], script[|script| - 1];
    assert before + [seg] == script;
    var s := ParseSegment(before, seg);
    ParsedCount(seg.ops, s);
    ExpectedCount(seg.ops, |OldText(before) + seg.skip|, |NewText(before) + seg.skip|);
    var last := ParseLines(OpTexts(seg.ops), s).current.value;
    if AllHonest(seg.ops) {
      assert !HonestScript(before);
      DishonestBody(before);
    }
    DifferentEnds(Parse(Body(before)), last, ExpectedHunks(before), ExpectedHunk(before, seg));
  }

  lemma DifferentEnds<T>(a: seq<T>, x: T, b: seq<T>, y: T)
    ensures a + [x] == b + [y] <==> a == b && x == y
  {
    if a + [x] == b + [y] {
      assert (a + [x])[|a|] == (b + [y])[|b|];
      assert (a + [x])[..|a|] == (b + [y])[..|b|];
    }
  }
}
