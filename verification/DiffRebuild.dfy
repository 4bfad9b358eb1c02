/** What the parsed diff is good for: applied to the old text, entry by entry and checking every number and
    every displayed line on the way, it rebuilds the new text; and its counts balance. */
module DiffRebuild {
  import opened Basics
  import opened Text
  import opened UnifiedDiff
  import opened DiffReplay

  // ----- reading displayed content back -----

  function UnescapeHtml(h: string): string {
    if h == "" then ""
    else if StartsWith(h, "&amp;") then "&" + UnescapeHtml(h[5..])
    else if StartsWith(h, "&lt;") then "<" + UnescapeHtml(h[4..])
    else if StartsWith(h, "&gt;") then ">" + UnescapeHtml(h[4..])
    else if StartsWith(h, "&quot;") then "\"" + UnescapeHtml(h[6..])
    else if StartsWith(h, "&#x27;") then "'" + UnescapeHtml(h[6..])
    else [h[0]] + UnescapeHtml(h[1..])
  }

  lemma UnescapeChar(c: char, rest: string)
    ensures UnescapeHtml(EscapeHtmlChar(c) + rest) == [c] + UnescapeHtml(rest)
  {
    var e := EscapeHtmlChar(c);
    assert (e + rest)[|e|..] == rest && e <= e + rest;
    assert (e + rest)[0] == e[0];
    assert c == '<' || c == '>' ==> (e + rest)[1] == e[1] && "&amp;"[1] == 'a' && "&lt;"[1] == 'l';
    assert c == '\"' || c == '\'' ==> (e + rest)[1] == e[1] && "&quot;"[1] == 'q' && "&gt;"[1] == 'g';
  }

  lemma {:induction false} UnescapeEscapeHtml(s: string)
    ensures UnescapeHtml(EscapeHtml(s)) == s
  {
    if s != "" {
      UnescapeChar(s[0], EscapeHtml(s[1..]));
      UnescapeEscapeHtml(s[1..]);
    }
  }

  /** No displayed content can open a tag or close an attribute. */
  lemma {:induction false} EscapedIsInert(s: string, i: nat)
    requires i < |EscapeHtml(s)|
    ensures EscapeHtml(s)[i] !in {'<', '>', '\"', '\''}
  {
    var e := EscapeHtmlChar(s[0]);
    if i >= |e| {
      EscapedIsInert(s[1..], i - |e|);
    }
  }

  // ----- applying the parsed diff -----

  /** `pos` old lines are used up and `out` is what has been rebuilt. */
  datatype Patch = Patch(pos: nat, out: seq<string>)

  /** Copies old lines up to `k`. */
  function CopyTo(oldText: seq<string>, p: Patch, k: nat): seq<string>
    requires p.pos <= k <= |oldText|
  {
    p.out + oldText[p.pos..k]
  }

  /** Applies one displayed line; None if a number or a displayed old line does not fit. */
  function ApplyEntry(oldText: seq<string>, p: Patch, e: Entry): Option<Patch> {
    var text := UnescapeHtml(e.content);
    match e
    case Entry(Add, None, Some(newNum), _) =>
      var k := p.pos + newNum - 1 - |p.out|;
      if p.pos <= k <= |oldText| then Some(Patch(k, CopyTo(oldText, p, k) + [text])) else None
    case Entry(Remove, Some(oldNum), None, _) =>
      var k := oldNum - 1;
      if p.pos <= k < |oldText| && oldText[k] == text then Some(Patch(k + 1, CopyTo(oldText, p, k))) else None
    case Entry(Context, Some(oldNum), Some(newNum), _) =>
      var k := oldNum - 1;
      if p.pos <= k < |oldText| && oldText[k] == text && newNum - 1 == |p.out| + k - p.pos
      then Some(Patch(k + 1, CopyTo(oldText, p, k) + [text]))
      else None
    case _ => None
  }

  function ApplyEntries(oldText: seq<string>, p: Patch, entries: seq<Entry>): Option<Patch> {
    if entries == [] then Some(p)
    else
      match ApplyEntries(oldText, p, entries[..|entries| - 1])
      case None => None
      case Some(q) => ApplyEntry(oldText, q, entries[|entries| - 1])
  }

  function ApplyHunks(oldText: seq<string>, hunks: seq<Hunk>): Option<Patch> {
    if hunks == [] then Some(Patch(0, []))
    else
      match ApplyHunks(oldText, hunks[..|hunks| - 1])
      case None => None
      case Some(p) => ApplyEntries(oldText, p, hunks[|hunks| - 1].lines)
  }

  /** The new text, if every entry fits the old one. */
  function Replay(oldText: seq<string>, hunks: seq<Hunk>): Option<seq<string>> {
    match ApplyHunks(oldText, hunks)
    case Some(p) => if p.pos <= |oldText| then Some(p.out + oldText[p.pos..]) else None
    case None => None
  }

  // ----- the replay rebuilds the new text -----

  /** Copying what is left of the old lines `o` completes the new lines `n`. */
  predicate InStep(p: Patch, o: seq<string>, n: seq<string>) {
    p.pos <= |o| && n == p.out + o[p.pos..]
  }

  lemma InStepSkip(p: Patch, o: seq<string>, n: seq<string>, skip: seq<string>)
    requires InStep(p, o, n)
    ensures InStep(p, o + skip, n + skip)
  {
    assert (o + skip)[p.pos..] == o[p.pos..] + skip;
  }

  function OldPart(op: Op): seq<string> {
    if op.Ins? then [] else [op.text]
  }

  function NewPart(op: Op): seq<string> {
    if op.Del? then [] else [op.text]
  }

  lemma ApplyOp(oldText: seq<string>, p: Patch, o: seq<string>, n: seq<string>, op: Op) returns (q: Patch)
    requires InStep(p, o, n) && o + OldPart(op) <= oldText
    ensures ApplyEntry(oldText, p, EntryFor(op, |o|, |n|)) == Some(q) && InStep(q, o + OldPart(op), n + NewPart(op))
  {
    UnescapeEscapeHtml(op.text);
    assert oldText[p.pos..|o|] == o[p.pos..];
    assert CopyTo(oldText, p, |o|) == n;
    q := ApplyEntry(oldText, p, EntryFor(op, |o|, |n|)).value;
  }

  lemma {:induction false} ApplyOps(oldText: seq<string>, p: Patch, o: seq<string>, n: seq<string>, ops: seq<Op>)
      returns (q: Patch)
    requires InStep(p, o, n) && o + OldLines(ops) <= oldText
    ensures ApplyEntries(oldText, p, Expected(ops, |o|, |n|)) == Some(q)
    ensures InStep(q, o + OldLines(ops), n + NewLines(ops))
  {
    if ops == [] {
      q := p;
      assert o + OldLines(ops) == o && n + NewLines(ops) == n;
    } else {
      var before, op := ops[..|ops| - 1], ops[|ops| - 1];
      var o', n' := o + OldLines(before), n + NewLines(before);
      LinesSnoc(o, n, before, op);
      assert before + [op] == ops;
      var r := ApplyOps(oldText, p, o, n, before);
      q := ApplyOneMore(oldText, p, |o|, |n|, before, r, o', n', op);
    }
  }

  lemma ApplyOneMore(oldText: seq<string>, p: Patch, o: nat, n: nat, ops: seq<Op>,
                     r: Patch, o': seq<string>, n': seq<string>, op: Op) returns (q: Patch)
    requires ApplyEntries(oldText, p, Expected(ops, o, n)) == Some(r) && InStep(r, o', n')
    requires |o'| == o + |OldLines(ops)| && |n'| == n + |NewLines(ops)| && o' + OldPart(op) <= oldText
    ensures ApplyEntries(oldText, p, Expected(ops + [op], o, n)) == Some(q)
    ensures InStep(q, o' + OldPart(op), n' + NewPart(op))
  {
    q := ApplyOp(oldText, r, o', n', op);
    ApplySnoc(oldText, p, Expected(ops, o, n), r, EntryFor(op, |o'|, |n'|), q);
    assert (ops + [op])[..|ops|] == ops;
  }

  lemma LinesSnoc(o: seq<string>, n: seq<string>, ops: seq<Op>, op: Op)
    ensures o + OldLines(ops + [op]) == o + OldLines(ops) + OldPart(op)
    ensures n + NewLines(ops + [op]) == n + NewLines(ops) + NewPart(op)
  {
    assert (ops + [op])[..|ops|] == ops;
  }

  lemma ApplySnoc(oldText: seq<string>, p: Patch, entries: seq<Entry>, r: Patch, e: Entry, q: Patch)
    requires ApplyEntries(oldText, p, entries) == Some(r) && ApplyEntry(oldText, r, e) == Some(q)
    ensures ApplyEntries(oldText, p, entries + [e]) == Some(q)
  {
    assert (entries + [e])[..|entries|] == entries;
  }

  lemma {:induction false} ApplyScript(oldText: seq<string>, script: seq<Segment>) returns (q: Patch)
    requires OldText(script) <= oldText
    ensures ApplyHunks(oldText, ExpectedHunks(script)) == Some(q) && InStep(q, OldText(script), NewText(script))
  {
    if script == [] {
      q := Patch(0, []);
    } else {
      var before, seg := script[..|script| - 1], script[|script| - 1];
      var p := ApplyScript(oldText, before);
      InStepSkip(p, OldText(before), NewText(before), seg.skip);
      q := ApplyOps(oldText, p, OldText(before) + seg.skip, NewText(before) + seg.skip, seg.ops);
      HunksSnocApply(oldText, ExpectedHunks(before), ExpectedHunk(before, seg));
    }
  }

  lemma HunksSnocApply(oldText: seq<string>, hunks: seq<Hunk>, h: Hunk)
    requires ApplyHunks(oldText, hunks).Some?
    ensures ApplyHunks(oldText, hunks + [h]) == ApplyEntries(oldText, ApplyHunks(oldText, hunks).value, h.lines)
  {
    assert (hunks + [h])[..|hunks|] == hunks;
  }

  /** Parsing the rendering of an honest script and replaying it rebuilds the new text, lines after the last
      hunk included. */
  lemma {:induction false} ReplayRebuilds(fromName: string, toName: string, script: seq<Segment>, tail: seq<string>)
    requires HonestScript(script)
    ensures Replay(OldText(script) + tail, Parse(Render(fromName, toName, script))) == Some(NewText(script) + tail)
  {
    ParseRendering(fromName, toName, script);
    var oldText := OldText(script) + tail;
    var q := ApplyScript(oldText, script);
    InStepSkip(q, OldText(script), NewText(script), tail);
  }

  // ----- the counts -----

  lemma {:induction false} HeadersFirstConcat(a: seq<string>, b: seq<string>)
    requires HeadersFirst(a) && HasHunk(a)
    ensures HeadersFirst(a + b) && HasHunk(a + b)
  {
    if b == [] {
      assert a + b == a;
    } else {
      HeadersFirstConcat(a, b[..|b| - 1]);
      assert (a + b)[..|a + b| - 1] == a + b[..|b| - 1];
    }
  }

  /** Something that cannot be counted does no harm at the end. */
  lemma HeadersFirstSnoc(a: seq<string>, line: string)
    requires HeadersFirst(a) && !CountsAsAdded(line) && !CountsAsRemoved(line)
    ensures HeadersFirst(a + [line]) && (IsHunkHeader(line) ==> HasHunk(a + [line]))
  {
    assert (a + [line])[..|a|] == a;
  }

  lemma {:induction false} BodyHeadersFirst(names: seq<string>, script: seq<Segment>)
    requires HeadersFirst(names)
    ensures HeadersFirst(names + Body(script))
  {
    if script == [] {
      assert names + Body(script) == names;
    } else {
      var before, seg := script[..|script| - 1], script[|script| - 1];
      var header := SegmentHeader(before, seg);
      BodyHeadersFirst(names, before);
      HeaderNotCounted(before, seg);
      HeadersFirstSnoc(names + Body(before), header);
      HeadersFirstConcat(names + Body(before) + [header], OpTexts(seg.ops));
      Assoc(names, Body(before), [header]);
      Assoc(names, Body(before) + [header], OpTexts(seg.ops));
    }
  }

  lemma HeaderNotCounted(before: seq<Segment>, seg: Segment)
    ensures var header := SegmentHeader(before, seg);
            IsHunkHeader(header) && !CountsAsAdded(header) && !CountsAsRemoved(header)
  {
    HeaderRead(|OldText(before) + seg.skip|, |OldLines(seg.ops)|, |NewText(before) + seg.skip|, |NewLines(seg.ops)|);
    assert SegmentHeader(before, seg)[0] == "@@"[0];
  }

  lemma NameNotCounted(name: string)
    ensures !CountsAsAdded("--- " + name) && !CountsAsRemoved("--- " + name)
    ensures !CountsAsAdded("+++ " + name) && !CountsAsRemoved("+++ " + name)
  {
    assert "--- " + name == ['-'] + ("-- " + name) && "+++ " + name == ['+'] + ("++ " + name);
    assert ("-- " + name)[..2] == "--" && ("++ " + name)[..2] == "++";
    SignedLine('-', "-- " + name);
    SignedLine('+', "++ " + name);
  }

  lemma NamesHeadersFirst(fromName: string, toName: string)
    ensures var names := ["--- " + fromName, "+++ " + toName];
            HeadersFirst(names) && Added(names) == 0 && Removed(names) == 0
  {
    var a, b := "--- " + fromName, "+++ " + toName;
    NameNotCounted(fromName);
    NameNotCounted(toName);
    HeadersFirstSnoc([], a);
    HeadersFirstSnoc([] + [a], b);
    OneCount(a);
    OneCount(b);
    CountConcat([a], [b]);
    assert [] + [a] + [b] == [a, b] && [a] + [b] == [a, b];
  }

  /** On every rendering, honest or not, the page shows exactly as many added and removed lines as it
      reports. */
  lemma RenderingCounts(fromName: string, toName: string, script: seq<Segment>)
    ensures var lines := Render(fromName, toName, script);
            Shown(Parse(lines), Add) == Added(lines) && Shown(Parse(lines), Remove) == Removed(lines)
  {
    if script != [] {
      NamesHeadersFirst(fromName, toName);
      BodyHeadersFirst(["--- " + fromName, "+++ " + toName], script);
    }
    CountsAgree(Render(fromName, toName, script));
  }

  lemma {:induction false} CountConcat(a: seq<string>, b: seq<string>)
    ensures Added(a + b) == Added(a) + Added(b) && Removed(a + b) == Removed(a) + Removed(b)
  {
    if b == [] {
      assert a + b == a;
    } else {
      CountConcat(a, b[..|b| - 1]);
      assert (a + b)[..|a + b| - 1] == a + b[..|b| - 1];
    }
  }

  lemma OneCount(line: string)
    ensures Added([line]) == (if CountsAsAdded(line) then 1 else 0)
    ensures Removed([line]) == (if CountsAsRemoved(line) then 1 else 0)
  {
    assert [line][..0] == [];
  }

  lemma {:induction false} OpsBalance(ops: seq<Op>)
    requires AllHonest(ops)
    ensures |NewLines(ops)| + Removed(OpTexts(ops)) == |OldLines(ops)| + Added(OpTexts(ops))
  {
    if ops != [] {
      var before, op := ops[..|ops| - 1], ops[|ops| - 1];
      OpsBalance(before);
      CountConcat(OpTexts(before), [OpText(op)]);
      OneCount(OpText(op));
      SignedLine(Sign(op), op.text);
    }
  }

  lemma {:induction false} BodyBalance(script: seq<Segment>)
    requires HonestScript(script)
    ensures |NewText(script)| + Removed(Body(script)) == |OldText(script)| + Added(Body(script))
  {
    if script != [] {
      var before, seg := script[..|script| - 1], script[|script| - 1];
      var header := SegmentHeader(before, seg);
      BodyBalance(before);
      OpsBalance(seg.ops);
      HeaderNotCounted(before, seg);
      OneCount(header);
      CountConcat(Body(before), [header]);
      CountConcat(Body(before) + [header], OpTexts(seg.ops));
    }
  }

  /** Old lines plus reported additions are new lines plus reported removals. */
  lemma {:induction false} CountsBalance(fromName: string, toName: string, script: seq<Segment>, tail: seq<string>)
    requires HonestScript(script)
    ensures var lines := Render(fromName, toName, script);
            |OldText(script) + tail| + Added(lines) == |NewText(script) + tail| + Removed(lines)
  {
    if script != [] {
      NamesHeadersFirst(fromName, toName);
      CountConcat(["--- " + fromName, "+++ " + toName], Body(script));
      BodyBalance(script);
    }
  }
}
