/** The older dump reader (migrate_ajust_data.py): it reads the first INSERT only, matches the keyword
    in any case, and unescapes with two replacements. It is compared with the newer reader. */
module LegacySqlReader {
  import opened Text
  import opened SqlDump
  import opened SqlRoundTrip

  // ----- scalars -----

  /** `s.replace(ab, c)` for a two-character pattern. */
  function ReplacePair(s: string, a: char, b: char, c: char): string {
    if |s| < 2 then s
    else if s[0] == a && s[1] == b then [c] + ReplacePair(s[2..], a, b, c)
    else [s[0]] + ReplacePair(s[1..], a, b, c)
  }

  /** First every `\'` becomes a quote, then every doubled backslash a single one. */
  function TwoPassUnescape(s: string): string {
    ReplacePair(ReplacePair(s, '\\', '\'', '\''), '\\', '\\', '\\')
  }

  /** `Raw` stands for anything that is handed to `float`, whether or not that succeeds. */
  function ParseValue(val: string): Scalar {
    if val == "NULL" then Null
    else if IsQuoted(val) then Str(TwoPassUnescape(Unquoted(val)))
    else if val != "" && AllDigits(val) then Int(ParseNat(val))
    else Raw(val)
  }

  // ----- the statement -----

  /** The end of the statement, or its start when no semicolon ends it. */
  function StatementEnd(text: string, start: nat): (end: nat)
    requires start <= |text|
    ensures start <= end <= |text|
  {
    var r := ScanEnd(text, start, OUTSIDE);
    if r < |text| then r else start
  }

  method FindEnd(text: string, start: nat) returns (end: nat)
    requires start <= |text|
    ensures end == StatementEnd(text, start)
  {
    var depth, inString, escapeNext := 0, false, false;
    end := start;
    var i := start;
    while i < |text|
      invariant start <= i <= |text| && end == start
      invariant ScanEnd(text, i, Lex(inString, escapeNext, depth)) == ScanEnd(text, start, OUTSIDE)
    {
      var ch := text[i];
      if escapeNext {
        escapeNext := false;
      } else if ch == '\\' {
        escapeNext := true;
      } else if ch == '\'' && !inString {
        inString := true;
      } else if ch == '\'' && inString {
        inString := false;
      } else if ch == '(' && !inString {
        depth := depth + 1;
      } else if ch == ')' && !inString {
        depth := depth - 1;
      } else if ch == ';' && !inString && depth == 0 {
        end := i;
        break;
      }
      i := i + 1;
    }
  }

  // ----- the rows -----

  /** Like the newer tokeniser's step, except that closing a row leaves the value in place. */
  function TokStepOld<T>(t: Tok<T>, ch: char, conv: string -> T): Tok<T> {
    var t' := t.(lex := LexStep(t.lex, ch));
    var depth := t'.lex.depth;
    if t.lex.esc || ch == '\\' then t'.(value := t.value + [ch])
    else if ch == '(' && !t.lex.inStr && depth == 1 then t'.(value := "", row := [])
    else if ch == ')' && !t.lex.inStr && depth == 0 then
      var row := if t.value != "" || t.row != [] then t.row + [conv(Strip(t.value))] else t.row;
      t'.(row := row, rows := t.rows + [row])
    else if ch == ',' && !t.lex.inStr && depth == 1 then
      t'.(value := "", row := t.row + [conv(Strip(t.value))])
    else if depth >= 1 then t'.(value := t.value + [ch])
    else t'
  }

  function TokRunOld<T>(text: string, t: Tok<T>, conv: string -> T): Tok<T> {
    if text == "" then t
    else TokStepOld(TokRunOld(text[..|text| - 1], t, conv), text[|text| - 1], conv)
  }

  method ParseRows(values: string) returns (rows: seq<seq<Scalar>>)
    ensures rows == TokRunOld(values, Fresh(), ParseValue).rows
  {
    rows := [];
    var currentRow: seq<Scalar>, currentValue := [], "";
    var inString, escapeNext, depth := false, false, 0;
    for i := 0 to |values|
      invariant TokRunOld(values[..i], Fresh(), ParseValue) ==
                Tok(Lex(inString, escapeNext, depth), currentValue, currentRow, rows)
    {
      assert values[..i + 1][..i] == values[..i];
      var ch := values[i];
      if escapeNext {
        currentValue := currentValue + [ch];
        escapeNext := false;
        continue;
      }
      if ch == '\\' {
        escapeNext := true;
        currentValue := currentValue + [ch];
        continue;
      }
      if ch == '\'' && !inString {
        inString := true;
      } else if ch == '\'' && inString {
        inString := false;
      } else if ch == '(' && !inString {
        depth := depth + 1;
        if depth == 1 {
          currentRow, currentValue := [], "";
          continue;
        }
      } else if ch == ')' && !inString {
        depth := depth - 1;
        if depth == 0 {
          if currentValue != "" || currentRow != [] {
            currentRow := currentRow + [ParseValue(Strip(currentValue))];
          }
          rows := rows + [currentRow];
          continue;
        }
      } else if ch == ',' && !inString && depth == 1 {
        currentRow := currentRow + [ParseValue(Strip(currentValue))];
        currentValue := "";
        continue;
      }
      if depth >= 1 {
        currentValue := currentValue + [ch];
      }
    }
    assert values[..|values|] == values;
  }

  /** The values of the statement whose keyword ends at `at`. */
  function BlockAt(text: string, at: nat): string
    requires at <= |text|
  {
    var start := SkipSpace(text, at);
    text[start..StatementEnd(text, start)]
  }

  /** The value block of the first INSERT, if there is one. */
  function LegacyBlock(text: string, needle: string): string {
    var idx := Find(Lower(text), Lower(needle), 0);
    if idx == -1 then "" else BlockAt(text, idx + |needle|)
  }

  function LegacyRows(text: string, needle: string): seq<seq<Scalar>> {
    TokRunOld(LegacyBlock(text, needle), Fresh(), ParseValue).rows
  }

  /** The table name is taken to hold no character that is special in a regular expression. */
  method ParseSqlInsert(text: string, table: string) returns (rows: seq<seq<Scalar>>)
    ensures rows == LegacyRows(text, Needle(table))
  {
    var needle := Needle(table);
    var idx := Find(Lower(text), Lower(needle), 0);
    if idx == -1 { return []; }
    var block := ReadBlock(text, idx + |needle|);
    rows := ParseRows(block);
  }

  method ReadBlock(text: string, at: nat) returns (block: string)
    requires at <= |text|
    ensures block == BlockAt(text, at)
  {
    var start := SkipSpace(text, at);
    var end := FindEnd(text, start);
    block := text[start..end];
  }

  // ----- the two tokenisers agree on every text -----

  /** Equal wherever the next character can still look. */
  predicate Alike<T(==)>(t: Tok<T>, u: Tok<T>) {
    && t.lex == u.lex && t.rows == u.rows
    && (t.lex.depth >= 1 ==> t.value == u.value && t.row == u.row)
  }

  lemma {:induction false} TokenisersAgree<T>(text: string, conv: string -> T)
    ensures Alike(TokRun(text, Fresh(), conv), TokRunOld(text, Fresh(), conv))
  {
    if text != "" {
      TokenisersAgree(text[..|text| - 1], conv);
    }
  }

  // ----- the two ways to unescape -----

  /** What two replacements make of one escaped character. */
  function TwoPassImage(mode: Escapes, c: char): string {
    if c == '\\' || c == '\'' then [c] else EscapeChar(mode, c)
  }

  function TwoPassImages(mode: Escapes, s: string): string {
    if s == "" then "" else TwoPassImage(mode, s[0]) + TwoPassImages(mode, s[1..])
  }

  /** After the first replacement: quotes are bare, the rest is still escaped. */
  function HalfUnescaped(mode: Escapes, s: string): string {
    if s == "" then ""
    else (if s[0] == '\'' then "'" else EscapeChar(mode, s[0])) + HalfUnescaped(mode, s[1..])
  }

  lemma {:induction false} FirstPass(mode: Escapes, s: string)
    ensures ReplacePair(EscapeText(mode, s), '\\', '\'', '\'') == HalfUnescaped(mode, s)
  {
    if s != "" {
      FirstPass(mode, s[1..]);
      var e, rest := EscapeChar(mode, s[0]), EscapeText(mode, s[1..]);
      assert rest != "" ==> rest[0] != '\'';
      ReplaceUnit(e, rest, '\\', '\'', '\'');
    }
  }

  lemma {:induction false} SecondPass(mode: Escapes, s: string)
    ensures ReplacePair(HalfUnescaped(mode, s), '\\', '\\', '\\') == TwoPassImages(mode, s)
  {
    if s != "" {
      SecondPass(mode, s[1..]);
      var unit := if s[0] == '\'' then "'" else EscapeChar(mode, s[0]);
      ReplaceUnit(unit, HalfUnescaped(mode, s[1..]), '\\', '\\', '\\');
    }
  }

  /** A replacement treats an escape pair, or a character that starts none, on its own. */
  lemma ReplaceUnit(unit: string, rest: string, a: char, b: char, c: char)
    requires |unit| == 1 || |unit| == 2
    requires |unit| == 1 ==> unit[0] != a
    requires |unit| == 2 && unit != [a, b] ==> unit[1] != a || (rest != "" ==> rest[0] != b)
    ensures ReplacePair(unit + rest, a, b, c) == (if unit == [a, b] then [c] else unit) + ReplacePair(rest, a, b, c)
  {
    assert (unit + rest)[|unit|..] == rest;
    if |unit| == 2 && unit != [a, b] {
      var tail := [unit[1]] + rest;
      assert (unit + rest)[1..] == tail && tail[1..] == rest;
      assert ReplacePair(tail, a, b, c) == [unit[1]] + ReplacePair(rest, a, b, c);
      assert unit == [unit[0]] + [unit[1]];
      Assoc([unit[0]], [unit[1]], ReplacePair(rest, a, b, c));
    }
  }

  predicate ReadableString(mode: Escapes, s: string) {
    forall i :: 0 <= i < |s| ==> s[i] == '\\' || s[i] == '\'' || EscapeChar(mode, s[i]) == [s[i]]
  }

  lemma {:induction false} ImagesAreString(mode: Escapes, s: string)
    ensures |TwoPassImages(mode, s)| >= |s|
    ensures |TwoPassImages(mode, s)| == |s| <==> ReadableString(mode, s)
    ensures ReadableString(mode, s) ==> TwoPassImages(mode, s) == s
  {
    if s != "" {
      ImagesAreString(mode, s[1..]);
      assert ReadableString(mode, s) <==> ReadableString(mode, s[..1]) && ReadableString(mode, s[1..]) by {
        assert forall i :: 1 <= i < |s| ==> s[i] == s[1..][i - 1];
      }
      assert s == [s[0]] + s[1..];
    }
  }

  /** The older reader recovers an escaped string exactly when the writer escaped nothing but quotes and
      backslashes; on those strings its two replacements equal the one-pass unescape. */
  lemma TwoPassRecoversIff(mode: Escapes, s: string)
    ensures TwoPassUnescape(EscapeText(mode, s)) == s <==> ReadableString(mode, s)
    ensures ReadableString(mode, s) ==> TwoPassUnescape(EscapeText(mode, s)) == Unescape(EscapeText(mode, s))
  {
    FirstPass(mode, s);
    SecondPass(mode, s);
    ImagesAreString(mode, s);
    UnescapeEscape(mode, s);
  }

  // ----- whole dumps -----

  /** Values that the older reader understands: no negative number, no decimal, no exotic escape. */
  predicate Readable(mode: Escapes, v: Scalar) {
    match v
    case Null => true
    case Int(i) => i >= 0
    case Str(s) => ReadableString(mode, s)
    case _ => false
  }

  predicate ReadableRows(mode: Escapes, rows: seq<seq<Scalar>>) {
    forall i, j :: 0 <= i < |rows| && 0 <= j < |rows[i]| ==> Readable(mode, rows[i][j])
  }

  lemma ParseValueRecovers(mode: Escapes, v: Scalar)
    requires Readable(mode, v)
    ensures Printable(v) && ParseValue(PrintValue(mode, v)) == v
  {
    match v
    case Null =>
    case Int(i) => ParsePrintNat(i); IntTextIsPlain(i);
    case Str(s) =>
      TwoPassRecoversIff(mode, s);
      assert Unquoted(PrintValue(mode, v)) == EscapeText(mode, s);
  }

  lemma LegacyTokRows(mode: Escapes, ins: Insert)
    requires ReadableRows(mode, ins.rows) && IsSeparator(ins.sep)
    ensures TokRunOld(Body(mode, ins), Fresh(), ParseValue).rows == ins.rows
  {
    forall i, j | 0 <= i < |ins.rows| && 0 <= j < |ins.rows[i]|
      ensures Printable(ins.rows[i][j]) && ParseValue(PrintValue(mode, ins.rows[i][j])) == ins.rows[i][j]
    {
      ParseValueRecovers(mode, ins.rows[i][j]);
    }
    TokRows(mode, ins.rows, ins.sep, ParseValue);
    TokenisersAgree(Body(mode, ins), ParseValue);
  }

  /** Given a dump, the older reader returns the rows of its first statement, whatever follows. */
  lemma LegacyReadsFirstStatement(mode: Escapes, table: string, inserts: seq<Insert>, tail: string)
    requires inserts != [] && AllWellFormed(inserts, Needle(table))
    requires IsGap(Lower(inserts[0].gap), Lower(Needle(table)))
    requires ReadableRows(mode, inserts[0].rows)
    ensures LegacyRows(DumpText(mode, Needle(table), inserts, tail), Needle(table)) == inserts[0].rows
  {
    var needle, ins := Needle(table), inserts[0];
    var text := DumpText(mode, needle, inserts, tail);
    var rest := DumpText(mode, needle, inserts[1..], tail);
    assert text[0..] == text;
    LegacyTokRows(mode, ins);
    PrintedBody(mode, ins);
    LegacyStatement(needle, AsStatement(mode, ins), rest, text);
  }

  lemma LegacyStatement(needle: string, st: Statement, rest: string, text: string)
    requires needle != "" && IsGap(Lower(st.gap), Lower(needle)) && AllSpace(st.lead) && IsBody(st.body)
    requires StatementAt(needle, st, rest, text, 0)
    ensures LegacyBlock(text, needle) == st.body
  {
    LegacyFind(needle, st, rest, text);
    LegacyBlockAt(needle, st, rest, text);
    BlockFound(text, needle, |st.gap|, st.body);
  }

  lemma BlockFound(text: string, needle: string, at: nat, body: string)
    requires Find(Lower(text), Lower(needle), 0) == at
    requires at + |needle| <= |text| && BlockAt(text, at + |needle|) == body
    ensures LegacyBlock(text, needle) == body
  {
  }

  lemma LegacyBlockAt(needle: string, st: Statement, rest: string, text: string)
    requires AllSpace(st.lead) && IsBody(st.body) && StatementAt(needle, st, rest, text, 0)
    ensures |st.gap| + |needle| <= |text| && BlockAt(text, |st.gap| + |needle|) == st.body
  {
    var at, start, end := StatementScanned(needle, st, rest, text, 0);
  }

  lemma LegacyFind(needle: string, st: Statement, rest: string, text: string)
    requires needle != "" && IsGap(Lower(st.gap), Lower(needle)) && StatementAt(needle, st, rest, text, 0)
    ensures Find(Lower(text), Lower(needle), 0) == |st.gap|
  {
    var at, _, _ := Layout(needle, st, rest, text, 0);
    var shown := st.gap + needle;
    assert Lower(text)[0..|shown|] == Lower(st.gap) + Lower(needle) by {
      assert text[0..|shown|] == shown;
      assert forall i :: 0 <= i < |shown| ==> text[0..|shown|][i] == text[i];
    }
    FindStatement(Lower(text), 0, Lower(st.gap), Lower(needle));
  }

  /** On a dump that the older reader can read, the two readers return the same rows exactly when the
      statements after the first hold none. */
  lemma ReadersAgreeIff(mode: Escapes, table: string, inserts: seq<Insert>, tail: string)
    requires inserts != [] && AllWellFormed(inserts, Needle(table)) && !Contains(tail, Needle(table))
    requires IsGap(Lower(inserts[0].gap), Lower(Needle(table)))
    requires ReadableRows(mode, inserts[0].rows)
    ensures var text := DumpText(mode, Needle(table), inserts, tail);
            LegacyRows(text, Needle(table)) == TableRows(text, table) <==> AllRows(inserts[1..]) == []
  {
    RoundTrip(mode, table, inserts, tail);
    LegacyReadsFirstStatement(mode, table, inserts, tail);
    var first, rest := inserts[0].rows, AllRows(inserts[1..]);
    assert AllRows(inserts) == first + rest;
    if rest != [] {
      assert |first + rest| > |first|;
    } else {
      assert first + rest == first;
    }
  }
}
