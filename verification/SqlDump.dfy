/** The reader of MySQL dumps (scripts/migrate_old_system_full.py): a statement scanner finds where
    an INSERT ends, a tokeniser splits its rows, and a scalar reader interprets each value. */
module SqlDump {
  import opened Text

  /** A column value. `Dec` keeps the digits of a decimal, which the program hands to `float`;
      `Raw` is the text of anything else. */
  datatype Scalar = Null | Int(i: int) | Str(s: string) | Dec(text: string) | Raw(text: string)

  // ----- scalars -----

  /** The character that a backslash followed by `c` stands for. */
  function EscapeMeaning(c: char): char {
    match c
    case '0' => '\0'
    case 'b' => '\U{8}'
    case 'n' => '\n'
    case 'r' => '\r'
    case 't' => '\t'
    case 'Z' => '\U{1A}'
    case _ => c
  }

  function Unescape(value: string): string {
    if value == "" then ""
    else if value[0] == '\\' && |value| > 1 then [EscapeMeaning(value[1])] + Unescape(value[2..])
    else [value[0]] + Unescape(value[1..])
  }

  method MysqlUnescape(value: string) returns (out: string)
    ensures out == Unescape(value)
  {
    out := "";
    var i := 0;
    while i < |value|
      invariant 0 <= i <= |value|
      invariant out + Unescape(value[i..]) == Unescape(value)
    {
      var ch := value[i];
      UnescapeNext(value, i, out);
      if ch == '\\' && i + 1 < |value| {
        out := out + [EscapeMeaning(value[i + 1])];
        i := i + 2;
      } else {
        out := out + [ch];
        i := i + 1;
      }
    }
  }

  lemma UnescapeNext(value: string, i: nat, out: string)
    requires i < |value|
    ensures out + Unescape(value[i..]) ==
            if value[i] == '\\' && i + 1 < |value|
            then out + [EscapeMeaning(value[i + 1])] + Unescape(value[i + 2..])
            else out + [value[i]] + Unescape(value[i + 1..])
  {
    assert value[i..][1..] == value[i + 1..];
    if i + 1 < |value| {
      assert value[i..][2..] == value[i + 2..];
    }
  }

  /** `-?\d+` */
  predicate IsIntText(raw: string) {
    var digits := if StartsWith(raw, "-") then raw[1..] else raw;
    digits != "" && AllDigits(digits)
  }

  /** `-?\d+\.\d+` */
  predicate IsDecText(raw: string) {
    var unsigned := if StartsWith(raw, "-") then raw[1..] else raw;
    var k := DigitRun(unsigned);
    0 < k < |unsigned| - 1 && unsigned[k] == '.' && AllDigits(unsigned[k + 1..])
  }

  function ParseInt(raw: string): int
    requires IsIntText(raw)
  {
    if StartsWith(raw, "-") then -(ParseNat(raw[1..]) as int) else ParseNat(raw)
  }

  predicate IsQuoted(raw: string) {
    raw != "" && raw[0] == '\'' && raw[|raw| - 1] == '\''
  }

  /** `raw[1:-1]`, which is empty when `raw` is a lone quote. */
  function Unquoted(raw: string): string {
    if |raw| < 2 then "" else raw[1..|raw| - 1]
  }

  function ParseScalar(text: string): Scalar {
    var raw := Strip(text);
    if raw == "NULL" then Null
    else if IsQuoted(raw) then Str(Unescape(Unquoted(raw)))
    else if IsIntText(raw) then Int(ParseInt(raw))
    else if IsDecText(raw) then Dec(raw)
    else Raw(raw)
  }

  // ----- the lexical state of the scanner -----

  datatype Lex = Lex(inStr: bool, esc: bool, depth: int)

  /** Outside any string, escape or parenthesis. */
  const OUTSIDE := Lex(false, false, 0)

  /** The scanner's step. */
  function LexStep(l: Lex, ch: char): Lex {
    if l.esc then l.(esc := false)
    else if ch == '\\' then l.(esc := true)
    else if ch == '\'' then l.(inStr := !l.inStr)
    else if !l.inStr && ch == '(' then l.(depth := l.depth + 1)
    else if !l.inStr && ch == ')' then l.(depth := l.depth - 1)
    else l
  }

  /** The lexical state after reading all of `text`. */
  function LexRun(text: string, l: Lex): Lex {
    if text == "" then l else LexStep(LexRun(text[..|text| - 1], l), text[|text| - 1])
  }

  /** The states before each character of the text, and after the last. */
  predicate LexStates(states: seq<Lex>, text: string) {
    |states| == |text| + 1 && forall k :: 0 <= k <= |text| ==> states[k] == LexRun(text[..k], OUTSIDE)
  }

  lemma LexStatesSnoc(states: seq<Lex>, text: string, ch: char)
    requires LexStates(states, text)
    ensures LexStates(states + [LexStep(states[|text|], ch)], text + [ch])
  {
    var more, longer := states + [LexStep(states[|text|], ch)], text + [ch];
    assert text[..|text|] == text && longer[..|text|] == text && longer[..|text| + 1] == longer;
    forall k | 0 <= k <= |text|
      ensures more[k] == LexRun(longer[..k], OUTSIDE)
    {
      assert longer[..k] == text[..k];
    }
  }

  // ----- the statement scanner -----

  predicate EndsStatement(l: Lex, ch: char) {
    ch == ';' && !l.esc && !l.inStr && l.depth == 0
  }

  /** Where the statement whose values start at `i` ends: at the first `;` outside strings and
      parentheses, or at the end of the text. */
  function ScanEnd(text: string, i: nat, l: Lex): (r: nat)
    requires i <= |text|
    ensures i <= r <= |text|
    decreases |text| - i
  {
    if i == |text| || EndsStatement(l, text[i]) then i
    else ScanEnd(text, i + 1, LexStep(l, text[i]))
  }

  lemma {:induction false} LexRunHead(text: string, l: Lex)
    requires text != ""
    ensures LexRun(text, l) == LexRun(text[1..], LexStep(l, text[0]))
  {
    if |text| > 1 {
      LexRunHead(text[..|text| - 1], l);
      assert text[..|text| - 1][1..] == text[1..][..|text| - 2];
    } else {
      assert text[..0] == "" && text[1..] == "";
    }
  }

  /** The scanner stops at the first position where a `;` ends the statement, and nowhere else. */
  lemma {:induction false} ScanEndIsFirst(text: string, i: nat, l: Lex)
    requires i <= |text|
    ensures var r := ScanEnd(text, i, l);
            && (r < |text| ==> EndsStatement(LexRun(text[i..r], l), text[r]))
            && forall j :: i <= j < r ==> !EndsStatement(LexRun(text[i..j], l), text[j])
    decreases |text| - i
  {
    assert text[i..i] == "";
    if i < |text| && !EndsStatement(l, text[i]) {
      var r := ScanEnd(text, i, l);
      var l' := LexStep(l, text[i]);
      ScanEndIsFirst(text, i + 1, l');
      forall j | i < j <= r
        ensures LexRun(text[i..j], l) == LexRun(text[i + 1..j], l')
      {
        LexRunHead(text[i..j], l);
        assert text[i..j][1..] == text[i + 1..j];
      }
    }
  }

  function SkipSpace(text: string, i: nat): (r: nat)
    requires i <= |text|
    ensures i <= r <= |text|
    decreases |text| - i
  {
    if i < |text| && IsSpace(text[i]) then SkipSpace(text, i + 1) else i
  }

  function Needle(table: string): string {
    "INSERT INTO `" + table + "` VALUES"
  }

  /** `done` followed by the value blocks of every INSERT into the table found at or after `pos`. */
  function Blocks(text: string, needle: string, pos: nat, done: seq<string>): seq<string>
    requires needle != ""
    decreases |text| + 1 - pos
  {
    var idx := Find(text, needle, pos);
    if idx == -1 then done
    else
      var start := SkipSpace(text, idx + |needle|);
      var end := ScanEnd(text, start, OUTSIDE);
      Blocks(text, needle, end + 1, done + [text[start..end]])
  }

  lemma NextBlock(text: string, needle: string, pos: nat, at: nat, start: nat, end: nat, done: seq<string>)
    requires needle != "" && Find(text, needle, pos) != -1 && at == Find(text, needle, pos) + |needle|
    requires start == SkipSpace(text, at) && end == ScanEnd(text, start, OUTSIDE)
    ensures Blocks(text, needle, pos, done) == Blocks(text, needle, end + 1, done + [text[start..end]])
  {
  }

  lemma NoMoreBlocks(text: string, needle: string, pos: nat, done: seq<string>)
    requires needle != "" && Find(text, needle, pos) == -1
    ensures Blocks(text, needle, pos, done) == done
  {
  }

  method SkipBlanks(text: string, from: nat) returns (start: nat)
    requires from <= |text|
    ensures start == SkipSpace(text, from)
  {
    start := from;
    while start < |text| && IsSpace(text[start])
      invariant from <= start <= |text|
      invariant SkipSpace(text, start) == SkipSpace(text, from)
    {
      start := start + 1;
    }
  }

  /** `states` are the loop's flags and depth before each character, and after the last. */
  method FindStatementEnd(text: string, start: nat) returns (end: nat, ghost states: seq<Lex>)
    requires start <= |text|
    ensures start <= end <= |text| && end == ScanEnd(text, start, OUTSIDE)
    ensures LexStates(states, text[start..end])
  {
    var inStr, esc, depth := false, false, 0;
    end := start;
    states := [OUTSIDE];
    assert text[start..start] == "";
    while end < |text|
      invariant start <= end <= |text|
      invariant ScanEnd(text, end, Lex(inStr, esc, depth)) == ScanEnd(text, start, OUTSIDE)
      invariant LexStates(states, text[start..end]) && states[end - start] == Lex(inStr, esc, depth)
    {
      ghost var before := Lex(inStr, esc, depth);
      var ch := text[end];
      if esc {
        esc := false;
      } else if ch == '\\' {
        esc := true;
      } else if ch == '\'' && !esc {
        inStr := !inStr;
      } else if !inStr {
        if ch == '(' {
          depth := depth + 1;
        } else if ch == ')' {
          depth := depth - 1;
        } else if ch == ';' && depth == 0 {
          break;
        }
      }
      assert Lex(inStr, esc, depth) == LexStep(before, ch);
      LexStatesSnoc(states, text[start..end], ch);
      assert text[start..end + 1] == text[start..end] + [ch];
      states := states + [Lex(inStr, esc, depth)];
      end := end + 1;
    }
  }

  method FindBlock(text: string, from: nat) returns (start: nat, end: nat)
    requires from <= |text|
    ensures from <= start <= end <= |text|
    ensures start == SkipSpace(text, from) && end == ScanEnd(text, start, OUTSIDE)
  {
    start := SkipBlanks(text, from);
    ghost var states;
    end, states := FindStatementEnd(text, start);
  }

  method IterInsertValueBlocks(text: string, table: string) returns (blocks: seq<string>)
    ensures blocks == Blocks(text, Needle(table), 0, [])
  {
    blocks := IterBlocks(text, Needle(table));
  }

  method IterBlocks(text: string, needle: string) returns (blocks: seq<string>)
    requires needle != ""
    ensures blocks == Blocks(text, needle, 0, [])
  {
    var pos: nat := 0;
    blocks := [];
    while true
      invariant Blocks(text, needle, pos, blocks) == Blocks(text, needle, 0, [])
      decreases |text| + 1 - pos
    {
      var found, block, next := OneBlock(text, needle, pos, blocks);
      if !found {
        break;
      }
      blocks, pos := blocks + [block], next;
    }
  }

  /** One turn of the loop, after `done`: the next block and where the search resumes. */
  method OneBlock(text: string, needle: string, pos: nat, ghost done: seq<string>)
      returns (found: bool, block: string, next: nat)
    requires needle != ""
    ensures found ==> pos < next && pos <= |text|
    ensures Blocks(text, needle, pos, done) == if found then Blocks(text, needle, next, done + [block]) else done
  {
    var idx := Find(text, needle, pos);
    if idx == -1 {
      NoMoreBlocks(text, needle, pos, done);
      return false, "", pos;
    }
    block, next := BlockFrom(text, needle, pos, idx + |needle|, done);
    return true, block, next;
  }

  /** The block of the statement whose keyword ends at `at`. */
  method BlockFrom(text: string, needle: string, pos: nat, at: nat, ghost done: seq<string>)
      returns (block: string, next: nat)
    requires needle != "" && Find(text, needle, pos) != -1 && at == Find(text, needle, pos) + |needle|
    ensures at < next && Blocks(text, needle, pos, done) == Blocks(text, needle, next, done + [block])
  {
    var start, end := FindBlock(text, at);
    NextBlock(text, needle, pos, at, start, end, done);
    return text[start..end], end + 1;
  }

  // ----- the row tokeniser -----

  /** Tokeniser state: lexical state, the value and row being read, the rows already closed.
      A value's text is turned into a `T` when it is closed. */
  datatype Tok<T> = Tok(lex: Lex, value: string, row: seq<T>, rows: seq<seq<T>>)

  function Fresh<T>(): Tok<T> {
    Tok(OUTSIDE, "", [], [])
  }

  /** The tokeniser's own step on its flags and depth. */
  function TokLexStep(l: Lex, ch: char): Lex {
    if l.esc then Lex(l.inStr, false, l.depth)
    else if ch == '\\' then Lex(l.inStr, true, l.depth)
    else
      var inStr := if ch == '\'' then !l.inStr else l.inStr;
      var depth := if inStr then l.depth
                   else if ch == '(' then l.depth + 1
                   else if ch == ')' then l.depth - 1
                   else l.depth;
      Lex(inStr, false, depth)
  }

  function TokStep<T>(t: Tok<T>, ch: char, conv: string -> T): Tok<T> {
    var t' := t.(lex := TokLexStep(t.lex, ch));
    var depth := t'.lex.depth;
    if t.lex.esc || ch == '\\' then t'.(value := t.value + [ch])
    else if !t'.lex.inStr && ch == '(' && depth == 1 then t'.(value := "", row := [])
    else if !t'.lex.inStr && ch == ')' && depth == 0 then
      var row := if t.value != "" || t.row != [] then t.row + [conv(Strip(t.value))] else t.row;
      t'.(value := "", row := row, rows := t.rows + [row])
    else if !t'.lex.inStr && ch == ',' && depth == 1 then
      t'.(value := "", row := t.row + [conv(Strip(t.value))])
    else if depth >= 1 then t'.(value := t.value + [ch])
    else t'
  }

  function TokRun<T>(text: string, t: Tok<T>, conv: string -> T): Tok<T> {
    if text == "" then t
    else TokStep(TokRun(text[..|text| - 1], t, conv), text[|text| - 1], conv)
  }

  /** The scanner's step and the tokeniser's, written separately, agree on strings, escapes and nesting after every
      prefix of every text. */
  lemma {:induction false} ScannerAndTokeniserAgree<T>(text: string, t: Tok<T>, conv: string -> T)
    ensures TokRun(text, t, conv).lex == LexRun(text, t.lex)
  {
    if text != "" {
      ScannerAndTokeniserAgree(text[..|text| - 1], t, conv);
    }
  }

  function ParseValues(block: string): seq<seq<Scalar>> {
    TokRun(block, Fresh(), ParseScalar).rows
  }

  /** `states` are the loop's flags and depth before each character, and after the last. */
  method ParseValuesBlock(values: string) returns (rows: seq<seq<Scalar>>, ghost states: seq<Lex>)
    ensures rows == ParseValues(values)
    ensures LexStates(states, values)
  {
    rows := [];
    var currentRow: seq<Scalar>, currentValue := [], "";
    var inStr, esc, depth := false, false, 0;
    states := [];
    for i := 0 to |values|
      invariant TokRun(values[..i], Fresh(), ParseScalar) ==
                Tok(Lex(inStr, esc, depth), currentValue, currentRow, rows)
      invariant |states| == i && forall k :: 0 <= k < i ==> states[k] == LexRun(values[..k], OUTSIDE)
    {
      assert values[..i + 1][..i] == values[..i];
      ScannerAndTokeniserAgree(values[..i], Fresh(), ParseScalar);
      states := states + [Lex(inStr, esc, depth)];
      var ch := values[i];
      if esc {
        currentValue := currentValue + [ch];
        esc := false;
        continue;
      }
      if ch == '\\' {
        currentValue := currentValue + [ch];
        esc := true;
        continue;
      }
      if ch == '\'' && !esc {
        inStr := !inStr;
      }
      if !inStr {
        if ch == '(' {
          depth := depth + 1;
          if depth == 1 {
            currentRow, currentValue := [], "";
            continue;
          }
        } else if ch == ')' {
          depth := depth - 1;
          if depth == 0 {
            if currentValue != "" || currentRow != [] {
              currentRow := currentRow + [ParseScalar(Strip(currentValue))];
            }
            rows := rows + [currentRow];
            currentValue := "";
            continue;
          }
        } else if ch == ',' && depth == 1 {
          currentRow := currentRow + [ParseScalar(Strip(currentValue))];
          currentValue := "";
          continue;
        }
      }
      if depth >= 1 {
        currentValue := currentValue + [ch];
      }
    }
    assert values[..|values|] == values;
    ScannerAndTokeniserAgree(values, Fresh(), ParseScalar);
    states := states + [Lex(inStr, esc, depth)];
  }

  /** One statement: the scanning loop finds its end and the tokenising loop reads its values. The two loops, each with
      its own flags, go through the same lexical states, character by character. */
  method ScanThenTokenise(text: string, start: nat)
      returns (end: nat, rows: seq<seq<Scalar>>, ghost scanned: seq<Lex>, ghost tokenised: seq<Lex>)
    requires start <= |text|
    ensures start <= end <= |text| && end == ScanEnd(text, start, OUTSIDE) && rows == ParseValues(text[start..end])
    ensures LexStates(scanned, text[start..end]) && scanned == tokenised
  {
    end, scanned := FindStatementEnd(text, start);
    rows, tokenised := ParseValuesBlock(text[start..end]);
    assert forall k :: 0 <= k < |scanned| ==> scanned[k] == tokenised[k];
  }

  function Rows(blocks: seq<string>): seq<seq<Scalar>> {
    if blocks == [] then [] else Rows(blocks[..|blocks| - 1]) + ParseValues(blocks[|blocks| - 1])
  }

  lemma RowsUpTo(blocks: seq<string>, i: nat)
    requires i < |blocks|
    ensures Rows(blocks[..i + 1]) == Rows(blocks[..i]) + ParseValues(blocks[i])
  {
    assert blocks[..i + 1][..i] == blocks[..i];
  }

  function TableRows(text: string, table: string): seq<seq<Scalar>> {
    Rows(Blocks(text, Needle(table), 0, []))
  }

  method ParseTableRows(text: string, table: string) returns (allRows: seq<seq<Scalar>>)
    ensures allRows == TableRows(text, table)
  {
    allRows := [];
    var blocks := IterInsertValueBlocks(text, table);
    for i := 0 to |blocks|
      invariant allRows == Rows(blocks[..i])
    {
      var rows;
      ghost var states;
      rows, states := ParseValuesBlock(blocks[i]);
      RowsUpTo(blocks, i);
      allRows := allRows + rows;
    }
    assert blocks[..|blocks|] == blocks;
  }
}
