/** A printer of MySQL dumps and the proof that the reader inverts it: every row comes back, in order,
    whatever its strings hold. Escapes follow "String Literals", section 9.1.1 of the MySQL 5.7
    Reference Manual. */
module SqlRoundTrip {
  import opened Text
  import opened SqlDump

  // ----- printing values -----

  /** Which characters the writer of the dump escapes: `Full` is what mysqldump does, `Minimal` escapes
      only what must be. */
  datatype Escapes = Full | Minimal

  function EscapeChar(mode: Escapes, c: char): (e: string)
    ensures if c == '\'' || c == '\\' || |e| == 2
            then |e| == 2 && e[0] == '\\' && EscapeMeaning(e[1]) == c
            else e == [c]
  {
    if c == '\\' || c == '\'' then ['\\', c]
    else if mode == Minimal then [c]
    else match c
      case '\0' => "\\0"
      case '\n' => "\\n"
      case '\r' => "\\r"
      case '\U{1A}' => "\\Z"
      case '\"' => "\\\""
      case _ => [c]
  }

  function EscapeText(mode: Escapes, s: string): string {
    if s == "" then "" else EscapeChar(mode, s[0]) + EscapeText(mode, s[1..])
  }

  lemma {:induction false} UnescapeEscape(mode: Escapes, s: string)
    ensures Unescape(EscapeText(mode, s)) == s
  {
    if s != "" {
      UnescapeEscape(mode, s[1..]);
      UnescapeChar(mode, s[0], EscapeText(mode, s[1..]));
    }
  }

  lemma UnescapeChar(mode: Escapes, c: char, rest: string)
    ensures Unescape(EscapeChar(mode, c) + rest) == [c] + Unescape(rest)
  {
    var e := EscapeChar(mode, c);
    assert (e + rest)[|e|..] == rest;
  }

  /** A character that means nothing to scanner and tokeniser outside a string. */
  predicate IsPlain(c: char) {
    c !in {'(', ')', '\'', '\\', ',', ';'}
  }

  predicate AllPlain(s: string) {
    forall i :: 0 <= i < |s| ==> IsPlain(s[i])
  }

  /** The values the printer can write. A decimal must be one; a raw text must be readable as nothing else. */
  predicate Printable(v: Scalar) {
    match v
    case Dec(text) => IsDecText(text)
    case Raw(text) =>
      && text != "" && AllPlain(text) && Trimmed(text) && text != "NULL"
      && !IsIntText(text) && !IsDecText(text)
    case _ => true
  }

  function PrintInt(i: int): string {
    if i < 0 then "-" + PrintNat(-i) else PrintNat(i)
  }

  function PrintValue(mode: Escapes, v: Scalar): string {
    match v
    case Null => "NULL"
    case Int(i) => PrintInt(i)
    case Str(s) => "'" + EscapeText(mode, s) + "'"
    case Dec(text) => text
    case Raw(text) => text
  }

  // ----- reading one value back -----

  lemma DecTextIsPlain(text: string)
    requires IsDecText(text)
    ensures text != "" && AllPlain(text) && Trimmed(text) && !IsIntText(text) && text != "NULL"
  {
    var unsigned := if StartsWith(text, "-") then text[1..] else text;
    DecDigits(unsigned, DigitRun(unsigned));
  }

  lemma DecDigits(unsigned: string, k: nat)
    requires 0 < k < |unsigned| - 1 && unsigned[k] == '.'
    requires AllDigits(unsigned[..k]) && AllDigits(unsigned[k + 1..])
    ensures forall i :: 0 <= i < |unsigned| ==> i == k || IsDigit(unsigned[i])
  {
    forall i | 0 <= i < |unsigned| && i != k
      ensures IsDigit(unsigned[i])
    {
      if i < k {
        assert unsigned[..k][i] == unsigned[i];
      } else {
        assert unsigned[k + 1..][i - k - 1] == unsigned[i];
      }
    }
  }

  lemma IntTextIsPlain(i: int)
    ensures var s := PrintInt(i); s != "" && AllPlain(s) && Trimmed(s) && s[0] != '\'' && s != "NULL"
    ensures IsIntText(PrintInt(i)) && ParseInt(PrintInt(i)) == i
  {
    if i < 0 {
      var digits := PrintNat(-i);
      ParsePrintNat(-i);
      assert ("-" + digits)[1..] == digits;
    } else {
      var digits := PrintNat(i);
      ParsePrintNat(i);
    }
  }

  /** A printed value is trimmed, and the scalar reader inverts the printer. */
  lemma ParsePrintValue(mode: Escapes, v: Scalar)
    requires Printable(v)
    ensures PrintValue(mode, v) != "" && Trimmed(PrintValue(mode, v))
    ensures ParseScalar(PrintValue(mode, v)) == v
  {
    var text := PrintValue(mode, v);
    match v
    case Null =>
    case Int(i) => IntTextIsPlain(i);
    case Str(s) =>
      UnescapeEscape(mode, s);
      assert Unquoted(text) == EscapeText(mode, s);
    case Dec(t) =>
      DecTextIsPlain(t);
      assert IsPlain(t[0]);
    case Raw(t) =>
      assert IsPlain(t[0]);
  }

  // ----- running the tokeniser over printed text -----

  lemma {:induction false} TokRunConcat<T>(a: string, b: string, t: Tok<T>, conv: string -> T)
    ensures TokRun(a + b, t, conv) == TokRun(b, TokRun(a, t, conv), conv)
  {
    if b == "" {
      assert a + b == a;
    } else {
      TokRunConcat(a, b[..|b| - 1], t, conv);
      assert (a + b)[..|a + b| - 1] == a + b[..|b| - 1];
    }
  }

  lemma TokRunOne<T>(c: char, t: Tok<T>, conv: string -> T)
    ensures TokRun([c], t, conv) == TokStep(t, c, conv)
  {
    assert [c][..0] == "";
  }

  /** Inside a row, outside and inside a string. */
  const IN_ROW := Lex(false, false, 1)
  const IN_STRING := Lex(true, false, 1)

  /** Plain text inside a row is collected into the current value. */
  lemma {:induction false} TokPlain<T>(text: string, t: Tok<T>, conv: string -> T)
    requires AllPlain(text) && t.lex == IN_ROW
    ensures TokRun(text, t, conv) == t.(value := t.value + text)
  {
    if text != "" {
      TokPlain(text[..|text| - 1], t, conv);
    }
  }

  /** Escaped text inside a string is collected, and the string stays open. */
  lemma {:induction false} TokEscaped<T>(mode: Escapes, s: string, t: Tok<T>, conv: string -> T)
    requires t.lex == IN_STRING
    ensures TokRun(EscapeText(mode, s), t, conv) == t.(value := t.value + EscapeText(mode, s))
  {
    if s != "" {
      var e, rest := EscapeChar(mode, s[0]), EscapeText(mode, s[1..]);
      TokEscapedChar(mode, s[0], t, conv);
      var t' := t.(value := t.value + e);
      TokEscaped(mode, s[1..], t', conv);
      TokRunConcat(e, rest, t, conv);
      assert t.value + e + rest == t.value + (e + rest);
    }
  }

  lemma TokEscapedChar<T>(mode: Escapes, c: char, t: Tok<T>, conv: string -> T)
    requires t.lex == IN_STRING
    ensures TokRun(EscapeChar(mode, c), t, conv) == t.(value := t.value + EscapeChar(mode, c))
  {
    var e := EscapeChar(mode, c);
    if |e| == 2 {
      TokRunOne(e[0], t, conv);
      TokRunOne(e[1], TokStep(t, e[0], conv), conv);
      TokRunConcat([e[0]], [e[1]], t, conv);
      assert e == [e[0]] + [e[1]];
      assert t.value + [e[0]] + [e[1]] == t.value + e;
    } else {
      TokRunOne(c, t, conv);
    }
  }

  lemma TokValue<T>(mode: Escapes, v: Scalar, t: Tok<T>, conv: string -> T)
    requires Printable(v) && t.lex == IN_ROW
    ensures TokRun(PrintValue(mode, v), t, conv) == t.(value := t.value + PrintValue(mode, v))
  {
    match v
    case Null => TokPlain("NULL", t, conv);
    case Int(i) => IntTextIsPlain(i); TokPlain(PrintInt(i), t, conv);
    case Str(s) => TokQuoted(mode, s, t, conv);
    case Dec(text) => DecTextIsPlain(text); TokPlain(text, t, conv);
    case Raw(text) => TokPlain(text, t, conv);
  }

  lemma TokQuoted<T>(mode: Escapes, s: string, t: Tok<T>, conv: string -> T)
    requires t.lex == IN_ROW
    ensures TokRun("'" + EscapeText(mode, s) + "'", t, conv) == t.(value := t.value + ("'" + EscapeText(mode, s) + "'"))
  {
    var e := EscapeText(mode, s);
    var inside := t.(lex := IN_STRING, value := t.value + "'");
    TokRunOne('\'', t, conv);
    TokEscaped(mode, s, inside, conv);
    var read := inside.(value := inside.value + e);
    TokRunOne('\'', read, conv);
    TokRunConcat("'", e, t, conv);
    TokRunConcat("'" + e, "'", t, conv);
    Regroup(t.value, "'", e, "'");
  }

  lemma Regroup(a: string, b: string, c: string, d: string)
    ensures a + b + c + d == a + (b + c + d)
  {
  }

  // ----- rows -----

  /** Texts put one after the other with `sep` between them. */
  function Joined(texts: seq<string>, sep: string): string {
    if |texts| == 0 then ""
    else if |texts| == 1 then texts[0]
    else Joined(texts[..|texts| - 1], sep) + sep + texts[|texts| - 1]
  }

  function ValueTexts(mode: Escapes, row: seq<Scalar>): seq<string> {
    seq(|row|, i requires 0 <= i < |row| => PrintValue(mode, row[i]))
  }

  function Fields(mode: Escapes, row: seq<Scalar>): string {
    Joined(ValueTexts(mode, row), ",")
  }

  function RowTexts(mode: Escapes, rows: seq<seq<Scalar>>): seq<string> {
    seq(|rows|, i requires 0 <= i < |rows| => RowText(mode, rows[i]))
  }

  function RowText(mode: Escapes, row: seq<Scalar>): string {
    "(" + Fields(mode, row) + ")"
  }

  /** Between rows the writer may put commas and white space. */
  predicate IsSeparator(sep: string) {
    forall i :: 0 <= i < |sep| ==> sep[i] == ',' || IsSpace(sep[i])
  }

  function RowsText(mode: Escapes, rows: seq<seq<Scalar>>, sep: string): string {
    Joined(RowTexts(mode, rows), sep)
  }

  lemma LastField(mode: Escapes, row: seq<Scalar>)
    requires row != []
    ensures var n := |row| - 1;
            && row == row[..n] + [row[n]]
            && Fields(mode, row) == if n == 0 then PrintValue(mode, row[0])
                                    else Fields(mode, row[..n]) + "," + PrintValue(mode, row[n])
  {
    assert ValueTexts(mode, row)[..|row| - 1] == ValueTexts(mode, row[..|row| - 1]);
  }

  lemma LastRow(mode: Escapes, rows: seq<seq<Scalar>>, sep: string)
    requires rows != []
    ensures var n := |rows| - 1;
            && rows == rows[..n] + [rows[n]]
            && RowsText(mode, rows, sep) == if n == 0 then RowText(mode, rows[0])
                                            else RowsText(mode, rows[..n], sep) + sep + RowText(mode, rows[n])
  {
    assert RowTexts(mode, rows)[..|rows| - 1] == RowTexts(mode, rows[..|rows| - 1]);
  }

  predicate PrintableRow(row: seq<Scalar>) {
    forall i :: 0 <= i < |row| ==> Printable(row[i])
  }

  /** The reader `conv` recovers every value of the row from its text. */
  predicate Recovers(conv: string -> Scalar, mode: Escapes, row: seq<Scalar>) {
    forall i :: 0 <= i < |row| ==> conv(PrintValue(mode, row[i])) == row[i]
  }

  /** A comma closes the value before it. */
  lemma TokComma(mode: Escapes, row: seq<Scalar>, t: Tok<Scalar>, conv: string -> Scalar)
    requires row != [] && PrintableRow(row) && Recovers(conv, mode, row)
    requires t.lex == IN_ROW
    ensures TokRun(",", t.(value := PrintValue(mode, row[|row| - 1]), row := row[..|row| - 1]), conv)
         == t.(value := "", row := row)
  {
    var n := |row| - 1;
    var full := t.(value := PrintValue(mode, row[n]), row := row[..n]);
    TokRunOne(',', full, conv);
    ParsePrintValue(mode, row[n]);
    StripTrimmed(full.value);
    assert row[..n] + [row[n]] == row;
  }

  lemma {:induction false} TokFields(mode: Escapes, row: seq<Scalar>, t: Tok<Scalar>, conv: string -> Scalar)
    requires row != [] && PrintableRow(row) && Recovers(conv, mode, row)
    requires t.lex == IN_ROW && t.value == "" && t.row == []
    ensures TokRun(Fields(mode, row), t, conv)
         == t.(value := PrintValue(mode, row[|row| - 1]), row := row[..|row| - 1])
  {
    var n := |row| - 1;
    var last := PrintValue(mode, row[n]);
    LastField(mode, row);
    if n == 0 {
      TokValue(mode, row[0], t, conv);
      assert t.value + last == last;
    } else {
      var before := row[..n];
      TokFields(mode, before, t, conv);
      TokComma(mode, before, t, conv);
      var t2 := t.(value := "", row := before);
      TokValue(mode, row[n], t2, conv);
      assert "" + last == last;
      TokRunConcat(Fields(mode, before), ",", t, conv);
      TokRunConcat(Fields(mode, before) + ",", last, t, conv);
    }
  }

  /** Reading a printed row closes exactly that row. */
  lemma TokRow(mode: Escapes, row: seq<Scalar>, t: Tok<Scalar>, conv: string -> Scalar)
    requires PrintableRow(row) && Recovers(conv, mode, row)
    requires t.lex == OUTSIDE
    ensures TokRun(RowText(mode, row), t, conv) == Tok(OUTSIDE, "", row, t.rows + [row])
  {
    var inside := Tok(IN_ROW, "", [], t.rows);
    TokRunOne('(', t, conv);
    var fields := Fields(mode, row);
    TokRunConcat("(", fields, t, conv);
    TokRunConcat("(" + fields, ")", t, conv);
    if row == [] {
      TokRunOne(')', inside, conv);
    } else {
      TokFields(mode, row, inside, conv);
      TokRowClose(mode, row, t.rows, conv);
    }
  }

  lemma TokRowClose(mode: Escapes, row: seq<Scalar>, rows: seq<seq<Scalar>>, conv: string -> Scalar)
    requires row != [] && PrintableRow(row) && Recovers(conv, mode, row)
    ensures TokRun(")", Tok(IN_ROW, PrintValue(mode, row[|row| - 1]), row[..|row| - 1], rows), conv)
         == Tok(OUTSIDE, "", row, rows + [row])
  {
    var n := |row| - 1;
    var full := Tok(IN_ROW, PrintValue(mode, row[n]), row[..n], rows);
    TokRunOne(')', full, conv);
    ParsePrintValue(mode, row[n]);
    StripTrimmed(full.value);
    assert row[..n] + [row[n]] == row;
  }

  lemma {:induction false} TokSeparator<T>(sep: string, t: Tok<T>, conv: string -> T)
    requires IsSeparator(sep) && t.lex == OUTSIDE
    ensures TokRun(sep, t, conv) == t
  {
    if sep != "" {
      TokSeparator(sep[..|sep| - 1], t, conv);
    }
  }

  predicate PrintableRows(rows: seq<seq<Scalar>>) {
    forall i :: 0 <= i < |rows| ==> PrintableRow(rows[i])
  }

  predicate RecoversRows(conv: string -> Scalar, mode: Escapes, rows: seq<seq<Scalar>>) {
    forall i :: 0 <= i < |rows| ==> Recovers(conv, mode, rows[i])
  }

  /** Reading printed rows gives those rows and ends outside every string and parenthesis. */
  lemma {:induction false} TokRows(mode: Escapes, rows: seq<seq<Scalar>>, sep: string, conv: string -> Scalar)
    requires PrintableRows(rows) && RecoversRows(conv, mode, rows) && IsSeparator(sep)
    ensures TokRun(RowsText(mode, rows, sep), Fresh(), conv).lex == OUTSIDE
    ensures TokRun(RowsText(mode, rows, sep), Fresh(), conv).rows == rows
  {
    if rows != [] {
      var before, last := rows[..|rows| - 1], rows[|rows| - 1];
      LastRow(mode, rows, sep);
      if before == [] {
        TokRow(mode, last, Fresh(), conv);
      } else {
        TokRows(mode, before, sep, conv);
        TokNextRow(mode, RowsText(mode, before, sep), sep, last, before, conv);
      }
    }
  }

  lemma TokNextRow(mode: Escapes, text: string, sep: string, row: seq<Scalar>, done: seq<seq<Scalar>>,
                   conv: string -> Scalar)
    requires PrintableRow(row) && Recovers(conv, mode, row) && IsSeparator(sep)
    requires TokRun(text, Fresh(), conv).lex == OUTSIDE && TokRun(text, Fresh(), conv).rows == done
    ensures TokRun(text + sep + RowText(mode, row), Fresh(), conv).lex == OUTSIDE
    ensures TokRun(text + sep + RowText(mode, row), Fresh(), conv).rows == done + [row]
  {
    TokRow(mode, row, TokRun(text, Fresh(), conv), conv);
    TokAppendRow(text, sep, RowText(mode, row), row, done, conv);
  }

  lemma TokAppendRow<T>(text: string, sep: string, rowText: string, row: seq<T>, done: seq<seq<T>>, conv: string -> T)
    requires IsSeparator(sep)
    requires TokRun(text, Fresh(), conv).lex == OUTSIDE
    requires TokRun(rowText, TokRun(text, Fresh(), conv), conv) == Tok(OUTSIDE, "", row, done + [row])
    ensures TokRun(text + sep + rowText, Fresh(), conv) == Tok(OUTSIDE, "", row, done + [row])
  {
    TokSeparator(sep, TokRun(text, Fresh(), conv), conv);
    TokRunConcat(text, sep, Fresh(), conv);
    TokRunConcat(text + sep, rowText, Fresh(), conv);
  }

  lemma ParseScalarRecovers(mode: Escapes, rows: seq<seq<Scalar>>)
    requires PrintableRows(rows)
    ensures RecoversRows(ParseScalar, mode, rows)
  {
    forall i, j | 0 <= i < |rows| && 0 <= j < |rows[i]|
      ensures ParseScalar(PrintValue(mode, rows[i][j])) == rows[i][j]
    {
      assert PrintableRow(rows[i]);
      ParsePrintValue(mode, rows[i][j]);
    }
  }

  // ----- the statement scanner over printed rows -----

  /** The scanner started in `l` does not stop inside `text`. */
  predicate Quiet(text: string, l: Lex) {
    forall j :: 0 <= j < |text| ==> !EndsStatement(LexRun(text[..j], l), text[j])
  }

  lemma {:induction false} LexRunConcat(a: string, b: string, l: Lex)
    ensures LexRun(a + b, l) == LexRun(b, LexRun(a, l))
  {
    if b == "" {
      assert a + b == a;
    } else {
      LexRunConcat(a, b[..|b| - 1], l);
      assert (a + b)[..|a + b| - 1] == a + b[..|b| - 1];
    }
  }

  lemma QuietConcat(a: string, b: string, l: Lex)
    requires Quiet(a, l) && Quiet(b, LexRun(a, l))
    ensures Quiet(a + b, l)
  {
    forall j | 0 <= j < |a + b|
      ensures !EndsStatement(LexRun((a + b)[..j], l), (a + b)[j])
    {
      if j < |a| {
        assert (a + b)[..j] == a[..j];
      } else {
        assert (a + b)[..j] == a + b[..j - |a|];
        LexRunConcat(a, b[..j - |a|], l);
      }
    }
  }

  lemma QuietWithoutSemicolon(text: string, l: Lex)
    requires forall i :: 0 <= i < |text| ==> text[i] != ';'
    ensures Quiet(text, l)
  {
  }

  /** A semicolon inside a string does not end the statement. */
  lemma {:induction false} QuietEscaped(mode: Escapes, s: string)
    ensures Quiet(EscapeText(mode, s), IN_STRING)
    ensures LexRun(EscapeText(mode, s), IN_STRING) == IN_STRING
  {
    if s != "" {
      var e, rest := EscapeChar(mode, s[0]), EscapeText(mode, s[1..]);
      QuietEscaped(mode, s[1..]);
      QuietEscapedChar(mode, s[0]);
      QuietConcat(e, rest, IN_STRING);
      LexRunConcat(e, rest, IN_STRING);
    }
  }

  lemma QuietEscapedChar(mode: Escapes, c: char)
    ensures Quiet(EscapeChar(mode, c), IN_STRING) && LexRun(EscapeChar(mode, c), IN_STRING) == IN_STRING
  {
    var e := EscapeChar(mode, c);
    assert e[..0] == "";
    if |e| == 2 {
      assert e[..1][..0] == "" && e[..1] == [e[0]];
    }
  }

  lemma QuietValue(mode: Escapes, v: Scalar)
    requires Printable(v)
    ensures Quiet(PrintValue(mode, v), IN_ROW) && LexRun(PrintValue(mode, v), IN_ROW) == IN_ROW
  {
    var text := PrintValue(mode, v);
    var t: Tok<string> := Fresh().(lex := IN_ROW);
    TokValue(mode, v, t, s => s);
    ScannerAndTokeniserAgree(text, t, (s: string) => s);
    match v
    case Null => QuietWithoutSemicolon(text, IN_ROW);
    case Int(i) => IntTextIsPlain(i); QuietWithoutSemicolon(text, IN_ROW);
    case Str(s) => QuietQuoted(mode, s);
    case Dec(d) => DecTextIsPlain(d); QuietWithoutSemicolon(text, IN_ROW);
    case Raw(r) => QuietWithoutSemicolon(text, IN_ROW);
  }

  lemma QuietQuoted(mode: Escapes, s: string)
    ensures Quiet("'" + EscapeText(mode, s) + "'", IN_ROW)
  {
    var e := EscapeText(mode, s);
    var quote := "'";
    assert quote[..0] == "";
    assert LexRun(quote, IN_ROW) == IN_STRING;
    QuietEscaped(mode, s);
    QuietConcat(quote, e, IN_ROW);
    LexRunConcat(quote, e, IN_ROW);
    QuietConcat(quote + e, quote, IN_ROW);
  }

  lemma {:induction false} QuietFields(mode: Escapes, row: seq<Scalar>)
    requires PrintableRow(row)
    ensures Quiet(Fields(mode, row), IN_ROW) && LexRun(Fields(mode, row), IN_ROW) == IN_ROW
  {
    if row != [] {
      var n := |row| - 1;
      var last := PrintValue(mode, row[n]);
      LastField(mode, row);
      QuietValue(mode, row[n]);
      if n > 0 {
        var before := Fields(mode, row[..n]);
        var comma := ",";
        assert comma[..0] == "";
        assert LexRun(comma, IN_ROW) == IN_ROW;
        QuietFields(mode, row[..n]);
        QuietConcat(before, comma, IN_ROW);
        LexRunConcat(before, comma, IN_ROW);
        QuietConcat(before + comma, last, IN_ROW);
        LexRunConcat(before + comma, last, IN_ROW);
      }
    }
  }

  lemma QuietRow(mode: Escapes, row: seq<Scalar>)
    requires PrintableRow(row)
    ensures Quiet(RowText(mode, row), OUTSIDE) && LexRun(RowText(mode, row), OUTSIDE) == OUTSIDE
  {
    var fields := Fields(mode, row);
    var left, right := "(", ")";
    assert left[..0] == "" && right[..0] == "";
    assert LexRun(left, OUTSIDE) == IN_ROW && LexRun(right, IN_ROW) == OUTSIDE;
    QuietFields(mode, row);
    QuietConcat(left, fields, OUTSIDE);
    LexRunConcat(left, fields, OUTSIDE);
    QuietConcat(left + fields, right, OUTSIDE);
    LexRunConcat(left + fields, right, OUTSIDE);
  }

  lemma {:induction false} QuietSeparator(sep: string)
    requires IsSeparator(sep)
    ensures Quiet(sep, OUTSIDE) && LexRun(sep, OUTSIDE) == OUTSIDE
  {
    QuietWithoutSemicolon(sep, OUTSIDE);
    if sep != "" {
      QuietSeparator(sep[..|sep| - 1]);
    }
  }

  lemma {:induction false} QuietRows(mode: Escapes, rows: seq<seq<Scalar>>, sep: string)
    requires PrintableRows(rows) && IsSeparator(sep)
    ensures Quiet(RowsText(mode, rows, sep), OUTSIDE) && LexRun(RowsText(mode, rows, sep), OUTSIDE) == OUTSIDE
  {
    if rows != [] {
      var n := |rows| - 1;
      var last := RowText(mode, rows[n]);
      LastRow(mode, rows, sep);
      QuietRow(mode, rows[n]);
      if n > 0 {
        var before := RowsText(mode, rows[..n], sep);
        QuietRows(mode, rows[..n], sep);
        QuietSeparator(sep);
        QuietConcat(before, sep, OUTSIDE);
        LexRunConcat(before, sep, OUTSIDE);
        QuietConcat(before + sep, last, OUTSIDE);
        LexRunConcat(before + sep, last, OUTSIDE);
      }
    }
  }

  // ----- whole dumps -----

  /** One INSERT of the table: the text since the previous statement, the white space before the rows,
      the text between rows, and the rows. */
  datatype Insert = Insert(gap: string, lead: string, sep: string, rows: seq<seq<Scalar>>)

  /** The statement's own text is the first occurrence of the needle after the previous statement. */
  predicate IsGap(gap: string, needle: string)
    requires needle != ""
  {
    !Contains(gap + needle[..|needle| - 1], needle)
  }

  predicate WellFormed(ins: Insert, needle: string)
    requires needle != ""
  {
    && IsGap(ins.gap, needle)
    && AllSpace(ins.lead) && IsSeparator(ins.sep) && PrintableRows(ins.rows)
  }

  function Body(mode: Escapes, ins: Insert): string {
    RowsText(mode, ins.rows, ins.sep)
  }

  function DumpText(mode: Escapes, needle: string, inserts: seq<Insert>, tail: string): string {
    if inserts == [] then tail
    else
      var ins := inserts[0];
      ins.gap + (needle + (ins.lead + (Body(mode, ins) + (";" + DumpText(mode, needle, inserts[1..], tail)))))
  }

  function AllRows(inserts: seq<Insert>): seq<seq<Scalar>> {
    if inserts == [] then [] else inserts[0].rows + AllRows(inserts[1..])
  }

  /** `find` lands on the statement's own keyword. */
  lemma FindStatement(text: string, from: nat, gap: string, needle: string)
    requires needle != "" && IsGap(gap, needle)
    requires from + |gap| + |needle| <= |text| && text[from..from + |gap| + |needle|] == gap + needle
    ensures Find(text, needle, from) == from + |gap|
  {
    var at := from + |gap|;
    var shown := gap + needle;
    FindIsFirst(text, needle, from);
    SubSlice(text, from, from + |shown|, |gap|, |shown|);
    assert shown[|gap|..|shown|] == needle;
    assert OccursAt(text, needle, at);
    forall r: nat | from <= r < at
      ensures !OccursAt(text, needle, r)
    {
      NotInGap(gap, needle, r - from);
      SubSlice(text, from, from + |shown|, r - from, r - from + |needle|);
    }
  }

  lemma NotInGap(gap: string, needle: string, k: nat)
    requires needle != "" && IsGap(gap, needle) && k < |gap|
    ensures (gap + needle)[k..k + |needle|] != needle
  {
    var window := gap + needle[..|needle| - 1];
    assert !OccursAt(window, needle, k);
    assert window[k..k + |needle|] == (gap + needle)[k..k + |needle|];
  }

  lemma {:induction false} SkipLead(text: string, i: nat, j: nat)
    requires i <= j <= |text| && AllSpace(text[i..j])
    requires j < |text| ==> !IsSpace(text[j])
    ensures SkipSpace(text, i) == j
    decreases j - i
  {
    if i < j {
      assert text[i..j][0] == text[i];
      assert text[i..j][1..] == text[i + 1..j];
      SkipLead(text, i + 1, j);
    }
  }

  /** The scan of a statement stops at exactly its own final semicolon. */
  lemma ScanStopsAtOwnSemicolon(text: string, start: nat, end: nat, body: string)
    requires start <= end < |text| && text[end] == ';' && text[start..end] == body
    requires Quiet(body, OUTSIDE) && LexRun(body, OUTSIDE) == OUTSIDE
    ensures ScanEnd(text, start, OUTSIDE) == end
  {
    ScanEndIsFirst(text, start, OUTSIDE);
    forall r | start <= r < end
      ensures !EndsStatement(LexRun(text[start..r], OUTSIDE), text[r])
    {
      SubSlice(text, start, end, 0, r - start);
      assert body[..r - start] == text[start..r];
      assert text[r] == body[r - start];
    }
  }

  function Bodies(mode: Escapes, inserts: seq<Insert>): seq<string> {
    if inserts == [] then [] else [Body(mode, inserts[0])] + Bodies(mode, inserts[1..])
  }

  predicate AllWellFormed(inserts: seq<Insert>, needle: string)
    requires needle != ""
  {
    forall i :: 0 <= i < |inserts| ==> WellFormed(inserts[i], needle)
  }

  /** A statement as text: what precedes it, white space after the keyword, and its rows. */
  datatype Statement = Statement(gap: string, lead: string, body: string)

  /** The statement lies at `pos`, followed by `rest`. */
  predicate StatementAt(needle: string, st: Statement, rest: string, text: string, pos: nat) {
    pos <= |text| && text[pos..] == st.gap + (needle + (st.lead + (st.body + (";" + rest))))
  }

  /** Where the parts of a statement lie in the text. */
  lemma Layout(needle: string, st: Statement, rest: string, text: string, pos: nat)
    returns (at: nat, start: nat, end: nat)
    requires StatementAt(needle, st, rest, text, pos)
    ensures at == pos + |st.gap| + |needle| && at <= start <= end < |text|
    ensures text[pos..at] == st.gap + needle && text[at..start] == st.lead && text[start..end] == st.body
    ensures text[end] == ';' && text[end + 1..] == rest
  {
    var after := st.lead + (st.body + (";" + rest));
    at := pos + |st.gap| + |needle|;
    Assoc(st.gap, needle, after);
    Cut(text, pos, st.gap + needle, after);
    start, end := LayoutBody(st.lead, st.body, rest, text, at);
  }

  lemma LayoutBody(lead: string, body: string, rest: string, text: string, at: nat)
    returns (start: nat, end: nat)
    requires at <= |text| && text[at..] == lead + (body + (";" + rest))
    ensures at <= start <= end < |text|
    ensures text[at..start] == lead && text[start..end] == body && text[end] == ';' && text[end + 1..] == rest
  {
    Cut(text, at, lead, body + (";" + rest));
    start := at + |lead|;
    Cut(text, start, body, ";" + rest);
    end := start + |body|;
    Cut(text, end, ";", rest);
    assert text[end..end + 1][0] == ";"[0];
  }

  /** A body that the scanner passes without stopping and that begins with no white space. */
  predicate IsBody(body: string) {
    Quiet(body, OUTSIDE) && LexRun(body, OUTSIDE) == OUTSIDE && (body != "" ==> !IsSpace(body[0]))
  }

  lemma StatementFound(needle: string, st: Statement, rest: string, text: string, pos: nat)
    requires needle != "" && IsGap(st.gap, needle) && StatementAt(needle, st, rest, text, pos)
    ensures Find(text, needle, pos) == pos + |st.gap|
  {
    var at, _, _ := Layout(needle, st, rest, text, pos);
    FindStatement(text, pos, st.gap, needle);
  }

  lemma StatementScanned(needle: string, st: Statement, rest: string, text: string, pos: nat)
    returns (at: nat, start: nat, end: nat)
    requires AllSpace(st.lead) && IsBody(st.body) && StatementAt(needle, st, rest, text, pos)
    ensures at == pos + |st.gap| + |needle| && at <= start <= end < |text|
    ensures SkipSpace(text, at) == start && ScanEnd(text, start, OUTSIDE) == end
    ensures text[start..end] == st.body && text[end + 1..] == rest
  {
    at, start, end := Layout(needle, st, rest, text, pos);
    assert start < end ==> text[start] == text[start..end][0];
    SkipLead(text, at, start);
    ScanStopsAtOwnSemicolon(text, start, end, st.body);
  }

  /** One turn of the outer loop: the statement at `pos` yields its own body and the search resumes
      right after its semicolon. */
  lemma OneStatement(needle: string, st: Statement, rest: string, text: string, pos: nat, done: seq<string>)
    returns (next: nat)
    requires needle != "" && IsGap(st.gap, needle) && AllSpace(st.lead) && IsBody(st.body)
    requires StatementAt(needle, st, rest, text, pos)
    ensures pos < next <= |text| && text[next..] == rest
    ensures Blocks(text, needle, pos, done) == Blocks(text, needle, next, done + [st.body])
  {
    var at, start, end := StatementScanned(needle, st, rest, text, pos);
    StatementFound(needle, st, rest, text, pos);
    NextBlock(text, needle, pos, at, start, end, done);
    next := end + 1;
  }

  function AsStatement(mode: Escapes, ins: Insert): Statement {
    Statement(ins.gap, ins.lead, Body(mode, ins))
  }

  lemma PrintedBody(mode: Escapes, ins: Insert)
    requires IsSeparator(ins.sep) && PrintableRows(ins.rows)
    ensures IsBody(Body(mode, ins))
  {
    QuietRows(mode, ins.rows, ins.sep);
    if ins.rows != [] {
      StartsWithRow(mode, ins.rows, ins.sep);
    }
  }

  lemma {:induction false} StartsWithRow(mode: Escapes, rows: seq<seq<Scalar>>, sep: string)
    requires rows != []
    ensures RowsText(mode, rows, sep) != "" && RowsText(mode, rows, sep)[0] == '('
  {
    LastRow(mode, rows, sep);
    if |rows| > 1 {
      StartsWithRow(mode, rows[..|rows| - 1], sep);
    }
  }

  lemma NothingInTail(text: string, pos: nat, needle: string)
    requires pos <= |text|
    ensures Find(text, needle, pos) != -1 ==> Contains(text[pos..], needle)
  {
    FindIsFirst(text, needle, pos);
    var r := Find(text, needle, pos);
    if r != -1 {
      SubSlice(text, pos, |text|, r - pos, r - pos + |needle|);
      assert text[pos..|text|] == text[pos..];
      var k: nat := r - pos;
      assert OccursAt(text[pos..], needle, k);
    }
  }

  /** The scanner splits a dump into exactly the bodies of its statements. */
  lemma {:induction false} DumpBlocks(mode: Escapes, needle: string, inserts: seq<Insert>, tail: string,
                                      text: string, pos: nat, done: seq<string>)
    requires needle != "" && AllWellFormed(inserts, needle) && !Contains(tail, needle)
    requires pos <= |text| && text[pos..] == DumpText(mode, needle, inserts, tail)
    ensures Blocks(text, needle, pos, done) == done + Bodies(mode, inserts)
    decreases |inserts|
  {
    if inserts == [] {
      NothingInTail(text, pos, needle);
      NoMoreBlocks(text, needle, pos, done);
      assert done + [] == done;
    } else {
      var body := Body(mode, inserts[0]);
      PrintedBody(mode, inserts[0]);
      var next := OneStatement(needle, AsStatement(mode, inserts[0]), DumpText(mode, needle, inserts[1..], tail),
                               text, pos, done);
      DumpBlocks(mode, needle, inserts[1..], tail, text, next, done + [body]);
      Assoc(done, [body], Bodies(mode, inserts[1..]));
    }
  }

  lemma {:induction false} RowsOfBodies(mode: Escapes, needle: string, inserts: seq<Insert>, done: seq<string>)
    requires needle != "" && AllWellFormed(inserts, needle)
    ensures Rows(done + Bodies(mode, inserts)) == Rows(done) + AllRows(inserts)
    decreases |inserts|
  {
    if inserts == [] {
      assert done + [] == done;
      assert Rows(done) + [] == Rows(done);
    } else {
      var ins := inserts[0];
      var body := Body(mode, ins);
      ParseScalarRecovers(mode, ins.rows);
      TokRows(mode, ins.rows, ins.sep, ParseScalar);
      assert (done + [body])[..|done|] == done;
      RowsOfBodies(mode, needle, inserts[1..], done + [body]);
      Assoc(done, [body], Bodies(mode, inserts[1..]));
      Assoc(Rows(done), ins.rows, AllRows(inserts[1..]));
    }
  }

  /** Round trip: reading a printed dump gives back every row of the table, in order. */
  lemma RoundTrip(mode: Escapes, table: string, inserts: seq<Insert>, tail: string)
    requires AllWellFormed(inserts, Needle(table)) && !Contains(tail, Needle(table))
    ensures TableRows(DumpText(mode, Needle(table), inserts, tail), table) == AllRows(inserts)
  {
    var needle := Needle(table);
    var text := DumpText(mode, needle, inserts, tail);
    assert text[0..] == text;
    DumpBlocks(mode, needle, inserts, tail, text, 0, []);
    RowsOfBodies(mode, needle, inserts, []);
    assert [] + Bodies(mode, inserts) == Bodies(mode, inserts);
    assert Rows([]) + AllRows(inserts) == AllRows(inserts);
  }

  /** Whatever the table is called, a line break between statements never hides or forges one. */
  lemma LineBreaksAreGaps(table: string, breaks: nat)
    ensures IsGap(seq(breaks, i => '\n'), Needle(table))
  {
    var needle := Needle(table);
    var gap: string := seq(breaks, i => '\n');
    assert needle[0] == 'I';
    var window := gap + needle[..|needle| - 1];
    forall i: nat | i <= |window|
      ensures !OccursAt(window, needle, i)
    {
      if i < |gap| && i + |needle| <= |window| {
        assert window[i..i + |needle|][0] == '\n';
      }
    }
  }
}
