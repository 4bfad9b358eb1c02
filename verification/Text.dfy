/** Strings as the Python code sees them: white space, stripping, substring search,
    decimal numerals and line joining. Everything here is shared by the text readers. */
module Text {

  // ----- white space -----

  /** The characters for which Python's `str.isspace` holds. */
  predicate IsSpace(c: char) {
    || '\t' <= c <= '\r'
    || '\U{1C}' <= c <= ' '
    || c == '\U{85}' || c == '\U{A0}' || c == '\U{1680}'
    || '\U{2000}' <= c <= '\U{200A}'
    || c == '\U{2028}' || c == '\U{2029}' || c == '\U{202F}' || c == '\U{205F}' || c == '\U{3000}'
  }

  predicate AllSpace(s: string) {
    forall i :: 0 <= i < |s| ==> IsSpace(s[i])
  }

  function LStrip(s: string): (r: string)
    ensures |r| <= |s| && (r != "" ==> !IsSpace(r[0]))
  {
    if s != "" && IsSpace(s[0]) then LStrip(s[1..]) else s
  }

  function RStrip(s: string): (r: string)
    ensures r <= s && (r != "" ==> !IsSpace(r[|r| - 1]))
  {
    if s != "" && IsSpace(s[|s| - 1]) then RStrip(s[..|s| - 1]) else s
  }

  function Strip(s: string): string {
    RStrip(LStrip(s))
  }

  /** No white space at either end. */
  predicate Trimmed(s: string) {
    s != "" ==> !IsSpace(s[0]) && !IsSpace(s[|s| - 1])
  }

  lemma StripTrimmed(s: string)
    requires Trimmed(s)
    ensures Strip(s) == s
  {
  }

  lemma {:induction false} RStripTrailing(s: string, blanks: string)
    requires AllSpace(blanks)
    ensures RStrip(s + blanks) == RStrip(s)
  {
    if blanks == "" {
      assert s + blanks == s;
    } else {
      var k := |blanks| - 1;
      assert (s + blanks)[..|s + blanks| - 1] == s + blanks[..k];
      RStripTrailing(s, blanks[..k]);
    }
  }

  // ----- slices -----

  lemma SubSlice<T>(s: seq<T>, from: nat, to: nat, i: nat, j: nat)
    requires from <= to <= |s| && i <= j <= to - from
    ensures s[from..to][i..j] == s[from + i..from + j]
  {
    forall k | 0 <= k < j - i
      ensures s[from..to][i..j][k] == s[from + i..from + j][k]
    {
      assert s[from..to][i + k] == s[from + (i + k)];
    }
  }

  /** Cutting `a` off the front of `s[pos..] == a + b`. */
  lemma Cut<T>(s: seq<T>, pos: nat, a: seq<T>, b: seq<T>)
    requires pos <= |s| && s[pos..] == a + b
    ensures |s| == pos + |a| + |b| && s[pos..pos + |a|] == a && s[pos + |a|..] == b
  {
    assert |s[pos..]| == |a| + |b|;
    forall k | 0 <= k < |a|
      ensures s[pos + k] == a[k]
    {
      assert s[pos..][k] == (a + b)[k];
    }
    forall k | 0 <= k < |b|
      ensures s[pos + |a| + k] == b[k]
    {
      assert s[pos..][|a| + k] == (a + b)[|a| + k];
    }
  }

  lemma Assoc<T>(a: seq<T>, b: seq<T>, c: seq<T>)
    ensures a + b + c == a + (b + c)
  {
  }

  // ----- searching -----

  predicate OccursAt(s: string, needle: string, i: nat) {
    i + |needle| <= |s| && s[i..i + |needle|] == needle
  }

  predicate Contains(s: string, needle: string) {
    exists i: nat :: i <= |s| && OccursAt(s, needle, i)
  }

  /** `s.find(needle, pos)`: the first occurrence at or after `pos`, or -1. */
  function Find(s: string, needle: string, pos: nat): (r: int)
    ensures r == -1 || pos <= r <= |s| - |needle|
    decreases |s| - pos
  {
    if pos > |s| then -1
    else if OccursAt(s, needle, pos) then pos
    else Find(s, needle, pos + 1)
  }

  lemma {:induction false} FindIsFirst(s: string, needle: string, pos: nat)
    ensures var r := Find(s, needle, pos);
            && (r != -1 ==> OccursAt(s, needle, r))
            && forall i: nat :: pos <= i && (r == -1 || i < r) ==> !OccursAt(s, needle, i)
    decreases |s| - pos
  {
    if pos <= |s| && !OccursAt(s, needle, pos) {
      FindIsFirst(s, needle, pos + 1);
    }
  }

  predicate StartsWith(s: string, prefix: string) {
    prefix <= s
  }

  // ----- decimal numerals -----

  predicate IsDigit(c: char) {
    '0' <= c <= '9'
  }

  predicate AllDigits(s: string) {
    forall i :: 0 <= i < |s| ==> IsDigit(s[i])
  }

  function DigitChar(d: nat): (c: char)
    requires d < 10
    ensures IsDigit(c) && DigitValue(c) == d
  {
    '0' + d as char
  }

  function DigitValue(c: char): (d: nat)
    requires IsDigit(c)
    ensures d < 10
  {
    c as int - '0' as int
  }

  function PrintNat(n: nat): (s: string)
    ensures s != "" && AllDigits(s)
  {
    if n < 10 then [DigitChar(n)] else PrintNat(n / 10) + [DigitChar(n % 10)]
  }

  function ParseNat(s: string): nat
    requires AllDigits(s)
  {
    if s == "" then 0 else 10 * ParseNat(s[..|s| - 1]) + DigitValue(s[|s| - 1])
  }

  /** Reading a printed numeral gives the number back. */
  lemma {:induction false} ParsePrintNat(n: nat)
    ensures ParseNat(PrintNat(n)) == n
  {
    if n >= 10 {
      ParsePrintNat(n / 10);
      assert PrintNat(n)[..|PrintNat(n)| - 1] == PrintNat(n / 10);
    } else {
      assert PrintNat(n)[..0] == "";
    }
  }

  /** The number of leading digits. */
  function DigitRun(s: string): (k: nat)
    ensures k <= |s| && AllDigits(s[..k])
    ensures k < |s| ==> !IsDigit(s[k])
  {
    if s != "" && IsDigit(s[0]) then
      var k := DigitRun(s[1..]);
      assert s[..k + 1] == [s[0]] + s[1..][..k];
      k + 1
    else 0
  }

  lemma {:induction false} DigitRunOf(digits: string, rest: string)
    requires AllDigits(digits)
    requires rest == "" || !IsDigit(rest[0])
    ensures DigitRun(digits + rest) == |digits|
  {
    if digits == "" {
      assert digits + rest == rest;
    } else {
      assert (digits + rest)[1..] == digits[1..] + rest;
      DigitRunOf(digits[1..], rest);
    }
  }

  // ----- lower case -----

  function LowerChar(c: char): char {
    if 'A' <= c <= 'Z' then c - 'A' + 'a' else c
  }

  function Lower(s: string): string {
    seq(|s|, i requires 0 <= i < |s| => LowerChar(s[i]))
  }

  // ----- splitting and joining -----

  /** `s.split(sep)` for a one-character separator. */
  function Split(s: string, sep: char): (parts: seq<string>)
    ensures parts != []
  {
    if s == "" then [""]
    else
      var rest := Split(s[1..], sep);
      if s[0] == sep then [""] + rest else [[s[0]] + rest[0]] + rest[1..]
  }

  lemma {:induction false} SplitHead(part: string, sep: char, rest: string)
    requires sep !in part
    ensures Split(part + [sep] + rest, sep) == [part] + Split(rest, sep) && Split(part, sep) == [part]
  {
    if part == "" {
      assert part + [sep] + rest == [sep] + rest;
    } else {
      SplitHead(part[1..], sep, rest);
      assert (part + [sep] + rest)[1..] == part[1..] + [sep] + rest;
      assert part == [part[0]] + part[1..];
    }
  }

  /** `sep.join(parts)`. */
  function Join(parts: seq<string>, sep: string): string {
    if |parts| == 0 then ""
    else if |parts| == 1 then parts[0]
    else parts[0] + sep + Join(parts[1..], sep)
  }
}
