/** The normal form of a device configuration (app/services/backup_diagnostics.py): line endings unified, right
    ends stripped, volatile lines dropped, runs of blank lines squeezed. What is volatile is a parameter. */
module ConfigLines {
  import opened Text

  // ----- lines -----

  /** `s.replace(from, to)`. */
  function Replace(s: string, from: string, to: string): string
    requires from != ""
  {
    if s == "" then ""
    else if StartsWith(s, from) then to + Replace(s[|from|..], from, to)
    else [s[0]] + Replace(s[1..], from, to)
  }

  function UnifyEnds(s: string): string {
    Replace(Replace(s, "\r\n", "\n"), "\r", "\n")
  }

  function Lines(content: string): (lines: seq<string>)
    ensures lines != []
  {
    Split(UnifyEnds(content), '\n')
  }

  // ----- the normal form -----

  predicate Blank(line: string) {
    Strip(line) == ""
  }

  /** The lines that are not volatile, right ends stripped. */
  function Stable(lines: seq<string>, volatile: string -> bool): seq<string> {
    if lines == [] then []
    else
      var rest, line := Stable(lines[..|lines| - 1], volatile), RStrip(lines[|lines| - 1]);
      if volatile(line) then rest else rest + [line]
  }

  predicate EndsBlank(lines: seq<string>) {
    lines != [] && Blank(lines[|lines| - 1])
  }

  function Compact(lines: seq<string>): (r: seq<string>)
    ensures |r| <= |lines|
  {
    if lines == [] then []
    else
      var before, line := lines[..|lines| - 1], lines[|lines| - 1];
      if Blank(line) && EndsBlank(before) then Compact(before) else Compact(before) + [line]
  }

  function NormalForm(lines: seq<string>, volatile: string -> bool): seq<string> {
    Compact(Stable(lines, volatile))
  }

  /** Every input line is either kept or counted as dropped. */
  method NormalizeConfigLines(content: string, volatile: string -> bool) returns (compact: seq<string>, dropped: nat)
    ensures compact == NormalForm(Lines(content), volatile)
    ensures |compact| + dropped == |Lines(content)|
  {
    var lines := Split(UnifyEnds(content), '\n');
    var normalized, volatileLines := DropVolatile(lines, volatile);
    var blanks;
    compact, blanks := SqueezeBlanks(normalized);
    dropped := volatileLines + blanks;
  }

  /** The first loop. */
  method DropVolatile(lines: seq<string>, volatile: string -> bool) returns (normalized: seq<string>, dropped: nat)
    ensures normalized == Stable(lines, volatile) && |normalized| + dropped == |lines|
  {
    normalized, dropped := [], 0;
    for i := 0 to |lines|
      invariant normalized == Stable(lines[..i], volatile) && |normalized| + dropped == i
    {
      assert lines[..i + 1][..i] == lines[..i];
      var line := RStrip(lines[i]);
      if volatile(line) {
        dropped := dropped + 1;
        continue;
      }
      normalized := normalized + [line];
    }
    assert lines[..|lines|] == lines;
  }

  /** The second loop. */
  method SqueezeBlanks(normalized: seq<string>) returns (compact: seq<string>, dropped: nat)
    ensures compact == Compact(normalized) && |compact| + dropped == |normalized|
  {
    compact, dropped := [], 0;
    var blankStreak: nat := 0;
    for i := 0 to |normalized|
      invariant compact == Compact(normalized[..i]) && |compact| + dropped == i
      invariant blankStreak > 0 <==> EndsBlank(normalized[..i])
    {
      assert normalized[..i + 1][..i] == normalized[..i];
      var line := normalized[i];
      if Blank(line) {
        blankStreak := blankStreak + 1;
        if blankStreak > 1 {
          dropped := dropped + 1;
          continue;
        }
      } else {
        blankStreak := 0;
      }
      compact := compact + [line];
    }
    assert normalized[..|normalized|] == normalized;
  }

  // ----- what compaction keeps -----

  predicate NoAdjacentBlanks(lines: seq<string>) {
    forall i :: 0 <= i < |lines| - 1 ==> !(Blank(lines[i]) && Blank(lines[i + 1]))
  }

  function NonBlank(lines: seq<string>): seq<string> {
    if lines == [] then []
    else
      var rest, line := NonBlank(lines[..|lines| - 1]), lines[|lines| - 1];
      if Blank(line) then rest else rest + [line]
  }

  /** Compaction leaves no two adjacent blank lines, loses no other line, and leaves a blank line last exactly
      when there was one. */
  lemma {:induction false} Compacted(lines: seq<string>)
    ensures var r := Compact(lines);
            NoAdjacentBlanks(r) && NonBlank(r) == NonBlank(lines) && (EndsBlank(r) <==> EndsBlank(lines))
  {
    if lines != [] {
      var before, line := lines[..|lines| - 1], lines[|lines| - 1];
      Compacted(before);
      assert (Compact(before) + [line])[..|Compact(before)|] == Compact(before);
    }
  }

  /** Compaction changes nothing if and only if no two blank lines are adjacent. */
  lemma {:induction false} CompactFixed(lines: seq<string>)
    ensures Compact(lines) == lines <==> NoAdjacentBlanks(lines)
  {
    Compacted(lines);
    if NoAdjacentBlanks(lines) {
      NothingToCompact(lines);
    }
  }

  lemma {:induction false} NothingToCompact(lines: seq<string>)
    requires NoAdjacentBlanks(lines)
    ensures Compact(lines) == lines
  {
    if lines != [] {
      var before, line := lines[..|lines| - 1], lines[|lines| - 1];
      assert forall i :: 0 <= i < |before| ==> before[i] == lines[i];
      NothingToCompact(before);
      assert lines == before + [line];
    }
  }

  // ----- what the filter keeps -----

  predicate Settled(line: string, volatile: string -> bool) {
    RStrip(line) == line && !volatile(line)
  }

  lemma RStripOnce(s: string)
    ensures RStrip(RStrip(s)) == RStrip(s)
  {
  }

  lemma {:induction false} StableSettled(lines: seq<string>, volatile: string -> bool)
    ensures forall i :: 0 <= i < |Stable(lines, volatile)| ==> Settled(Stable(lines, volatile)[i], volatile)
  {
    if lines != [] {
      StableSettled(lines[..|lines| - 1], volatile);
      RStripOnce(lines[|lines| - 1]);
    }
  }

  lemma {:induction false} StableShorter(lines: seq<string>, volatile: string -> bool)
    ensures |Stable(lines, volatile)| <= |lines|
  {
    if lines != [] {
      StableShorter(lines[..|lines| - 1], volatile);
    }
  }

  lemma {:induction false} StableFixed(lines: seq<string>, volatile: string -> bool)
    ensures Stable(lines, volatile) == lines <==> forall i :: 0 <= i < |lines| ==> Settled(lines[i], volatile)
  {
    StableSettled(lines, volatile);
    if lines != [] && (forall i :: 0 <= i < |lines| ==> Settled(lines[i], volatile)) {
      StableFixed(lines[..|lines| - 1], volatile);
    }
  }

  lemma {:induction false} StableConcat(a: seq<string>, b: seq<string>, volatile: string -> bool)
    ensures Stable(a + b, volatile) == Stable(a, volatile) + Stable(b, volatile)
  {
    if b == [] {
      assert a + b == a;
    } else {
      StableConcat(a, b[..|b| - 1], volatile);
      assert (a + b)[..|a + b| - 1] == a + b[..|b| - 1];
    }
  }

  lemma {:induction false} CompactFrom(lines: seq<string>, k: nat) returns (j: nat)
    requires k < |Compact(lines)|
    ensures j < |lines| && Compact(lines)[k] == lines[j]
  {
    var before := lines[..|lines| - 1];
    if k < |Compact(before)| {
      j := CompactFrom(before, k);
    } else {
      j := |lines| - 1;
    }
  }

  /** A list of lines is its own normal form if and only if every line is stripped and stable and no two blank
      lines are adjacent. */
  lemma FixedIff(lines: seq<string>, volatile: string -> bool)
    ensures NormalForm(lines, volatile) == lines <==>
              (forall i :: 0 <= i < |lines| ==> Settled(lines[i], volatile)) && NoAdjacentBlanks(lines)
  {
    var stable := Stable(lines, volatile);
    StableShorter(lines, volatile);
    StableFixed(lines, volatile);
    CompactFixed(lines);
    CompactFixed(stable);
    if Compact(stable) == lines {
      Compacted(stable);
      CompactFull(stable);
    }
  }

  lemma {:induction false} CompactFull(lines: seq<string>)
    requires |Compact(lines)| == |lines|
    ensures Compact(lines) == lines
  {
    if lines != [] {
      CompactFull(lines[..|lines| - 1]);
    }
  }

  /** The normal form is a normal form. */
  lemma NormalFormFixed(lines: seq<string>, volatile: string -> bool)
    ensures var r := NormalForm(lines, volatile); NormalForm(r, volatile) == r
  {
    var stable := Stable(lines, volatile);
    var r := Compact(stable);
    StableSettled(lines, volatile);
    Compacted(stable);
    forall k | 0 <= k < |r|
      ensures Settled(r[k], volatile)
    {
      var j := CompactFrom(stable, k);
    }
    FixedIff(r, volatile);
  }

  // ----- what cannot be seen in the normal form -----

  /** A volatile line, wherever it stands and however it is indented on the right, leaves no trace. */
  lemma {:induction false} VolatileInvisible(a: seq<string>, line: string, b: seq<string>, volatile: string -> bool)
    requires volatile(RStrip(line))
    ensures NormalForm(a + [line] + b, volatile) == NormalForm(a + b, volatile)
  {
    StableConcat(a + [line], b, volatile);
    StableConcat(a, b, volatile);
    assert (a + [line])[..|a|] == a;
  }

  /** Trailing blanks leave no trace. */
  lemma {:induction false} TrailingBlanksInvisible(a: seq<string>, b: seq<string>, volatile: string -> bool)
    requires |a| == |b| && forall i :: 0 <= i < |a| ==> RStrip(a[i]) == RStrip(b[i])
    ensures Stable(a, volatile) == Stable(b, volatile) && NormalForm(a, volatile) == NormalForm(b, volatile)
  {
    if a != [] {
      TrailingBlanksInvisible(a[..|a| - 1], b[..|b| - 1], volatile);
    }
  }

  // ----- line endings -----

  predicate OneLine(s: string) {
    forall i :: 0 <= i < |s| ==> s[i] != '\n' && s[i] != '\r'
  }

  predicate LineEnd(s: string) {
    s == "\n" || s == "\r\n" || s == "\r"
  }

  /** Both replacements in one pass. */
  function OnePass(s: string): string {
    if s == "" then ""
    else if StartsWith(s, "\r\n") then "\n" + OnePass(s[2..])
    else if s[0] == '\r' then "\n" + OnePass(s[1..])
    else [s[0]] + OnePass(s[1..])
  }

  lemma ReplaceHead(c: char, s: string)
    ensures Replace([c] + s, "\r", "\n") == (if c == '\r' then "\n" else [c]) + Replace(s, "\r", "\n")
  {
    var t := [c] + s;
    assert StartsWith(t, "\r") <==> t[0] == '\r';
    assert t[1..] == s;
  }

  lemma {:induction false} TwoPassesAreOne(s: string)
    ensures UnifyEnds(s) == OnePass(s)
  {
    if s == "" {
    } else if StartsWith(s, "\r\n") {
      TwoPassesAreOne(s[2..]);
      ReplaceHead('\n', Replace(s[2..], "\r\n", "\n"));
    } else {
      TwoPassesAreOne(s[1..]);
      ReplaceHead(s[0], Replace(s[1..], "\r\n", "\n"));
    }
  }

  lemma {:induction false} OnePassLine(line: string, rest: string)
    requires OneLine(line)
    ensures OnePass(line + rest) == line + OnePass(rest)
  {
    if line == "" {
      assert line + rest == rest;
    } else {
      OnePassLine(line[1..], rest);
      assert (line + rest)[1..] == line[1..] + rest && (line + rest)[0] == line[0];
      assert line == [line[0]] + line[1..];
    }
  }

  /** A line ending, of a kind that does not merge with what follows, becomes one newline. */
  lemma OnePassEnd(end: string, rest: string)
    requires LineEnd(end) && (end == "\r" && rest != "" ==> rest[0] != '\n')
    ensures OnePass(end + rest) == "\n" + OnePass(rest)
  {
    var t := end + rest;
    assert t[|end|..] == rest && t[0] == end[0];
    if end == "\r\n" {
      assert end <= t;
    } else if end == "\r" {
      assert rest != "" ==> t[1] == rest[0];
    }
  }

  lemma OnePassOneLine(line: string)
    requires OneLine(line)
    ensures OnePass(line) == line
  {
    OnePassLine(line, "");
    assert line + "" == line;
  }

  lemma JoinStart(lines: seq<string>, end: string)
    requires lines != [] && OneLine(lines[0]) && end == "\r"
    ensures Join(lines, end) != "" ==> Join(lines, end)[0] != '\n'
  {
  }

  /** Whatever the uniform line ending, the lines come out as they went in. */
  lemma {:induction false} LinesOfJoin(lines: seq<string>, end: string)
    requires lines != [] && LineEnd(end) && AllOneLine(lines)
    ensures Lines(Join(lines, end)) == lines
  {
    TwoPassesAreOne(Join(lines, end));
    if |lines| == 1 {
      OnePassOneLine(lines[0]);
      SplitHead(lines[0], '\n', "");
    } else {
      var line, rest := lines[0], Join(lines[1..], end);
      LinesOfJoin(lines[1..], end);
      TwoPassesAreOne(rest);
      if end == "\r" {
        JoinStart(lines[1..], end);
      }
      Assoc(line, end, rest);
      OnePassLine(line, end + rest);
      OnePassEnd(end, rest);
      Assoc(line, "\n", OnePass(rest));
      SplitHead(line, '\n', OnePass(rest));
    }
  }

  /** No line holds a line ending. */
  lemma {:induction false} LinesAreLines(s: string)
    ensures forall i :: 0 <= i < |Split(OnePass(s), '\n')| ==> OneLine(Split(OnePass(s), '\n')[i])
  {
    if s != "" {
      var k := if StartsWith(s, "\r\n") then 2 else 1;
      var c := if s[0] == '\r' then '\n' else s[0];
      LinesAreLines(s[k..]);
      assert OnePass(s) == [c] + OnePass(s[k..]);
      assert ([c] + OnePass(s[k..]))[1..] == OnePass(s[k..]);
    }
  }

  /** Texts whose lines differ only in trailing blanks have one normal form, whatever line ending each uses. */
  lemma EndsInvisible(a: seq<string>, aEnd: string, b: seq<string>, bEnd: string,
                                         volatile: string -> bool)
    requires a != [] && |a| == |b| && LineEnd(aEnd) && LineEnd(bEnd)
    requires forall i :: 0 <= i < |a| ==> OneLine(a[i]) && OneLine(b[i]) && RStrip(a[i]) == RStrip(b[i])
    ensures NormalForm(Lines(Join(a, aEnd)), volatile) == NormalForm(Lines(Join(b, bEnd)), volatile)
  {
    LinesOfJoin(a, aEnd);
    LinesOfJoin(b, bEnd);
    TrailingBlanksInvisible(a, b, volatile);
  }

  /** A volatile line inserted anywhere in a text leaves no trace. */
  lemma VolatileTextInvisible(a: seq<string>, line: string, b: seq<string>, end: string, volatile: string -> bool)
    requires a + b != [] && LineEnd(end) && OneLine(line) && volatile(RStrip(line))
    requires AllOneLine(a) && AllOneLine(b)
    ensures NormalForm(Lines(Join(a + [line] + b, end)), volatile) == NormalForm(Lines(Join(a + b, end)), volatile)
  {
    OneLineConcat(a, [line]);
    OneLineConcat(a + [line], b);
    OneLineConcat(a, b);
    LinesOfJoin(a + [line] + b, end);
    LinesOfJoin(a + b, end);
    VolatileInvisible(a, line, b, volatile);
  }

  predicate AllOneLine(lines: seq<string>) {
    forall i :: 0 <= i < |lines| ==> OneLine(lines[i])
  }

  lemma OneLineConcat(a: seq<string>, b: seq<string>)
    requires AllOneLine(a) && AllOneLine(b)
    ensures AllOneLine(a + b)
  {
  }

  lemma {:induction false} StableOneLine(lines: seq<string>, volatile: string -> bool)
    requires forall i :: 0 <= i < |lines| ==> OneLine(lines[i])
    ensures forall i :: 0 <= i < |Stable(lines, volatile)| ==> OneLine(Stable(lines, volatile)[i])
  {
    if lines != [] {
      StableOneLine(lines[..|lines| - 1], volatile);
    }
  }

  /** A nonempty normal form, written out with any line ending and normalised again, comes back unchanged. */
  lemma Idempotent(content: string, end: string, volatile: string -> bool)
    requires LineEnd(end) && NormalForm(Lines(content), volatile) != []
    ensures var r := NormalForm(Lines(content), volatile); NormalForm(Lines(Join(r, end)), volatile) == r
  {
    var lines := Lines(content);
    var stable := Stable(lines, volatile);
    var r := Compact(stable);
    TwoPassesAreOne(content);
    LinesAreLines(content);
    StableOneLine(lines, volatile);
    forall k | 0 <= k < |r|
      ensures OneLine(r[k])
    {
      var j := CompactFrom(stable, k);
    }
    LinesOfJoin(r, end);
    NormalFormFixed(lines, volatile);
  }

  lemma {:induction false} StableEmptyIff(lines: seq<string>, volatile: string -> bool)
    ensures Stable(lines, volatile) == [] <==> forall i :: 0 <= i < |lines| ==> volatile(RStrip(lines[i]))
  {
    if lines != [] {
      var before := lines[..|lines| - 1];
      StableEmptyIff(before, volatile);
      assert forall i :: 0 <= i < |before| ==> before[i] == lines[i];
    }
  }

  lemma {:induction false} CompactEmptyIff(lines: seq<string>)
    ensures Compact(lines) == [] <==> lines == []
  {
    if |lines| > 1 {
      CompactEmptyIff(lines[..|lines| - 1]);
    }
  }

  /** The normal form is empty exactly when every line is volatile. */
  lemma EmptyIff(lines: seq<string>, volatile: string -> bool)
    ensures NormalForm(lines, volatile) == [] <==> forall i :: 0 <= i < |lines| ==> volatile(RStrip(lines[i]))
  {
    StableEmptyIff(lines, volatile);
    CompactEmptyIff(Stable(lines, volatile));
  }

  /** As long as blank lines are not volatile, normalising is idempotent exactly on the texts with some line that is not
      volatile; otherwise the normal form is empty and, written out, one blank line. */
  lemma IdempotentIff(content: string, end: string, volatile: string -> bool)
    requires LineEnd(end) && !volatile("")
    ensures var r := NormalForm(Lines(content), volatile);
            NormalForm(Lines(Join(r, end)), volatile) == r <==>
              exists i :: 0 <= i < |Lines(content)| && !volatile(RStrip(Lines(content)[i]))
  {
    EmptyIff(Lines(content), volatile);
    if NormalForm(Lines(content), volatile) != [] {
      Idempotent(content, end, volatile);
    } else {
      assert Lines("") == [""];
      assert [""][..0] == [];
    }
  }
}
