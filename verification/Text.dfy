/** Optional values, in the style of the usual None/Some datatype. */
module Wrappers {
  datatype Option<+T> = None | Some(value: T)
}

/**
 Byte strings.  The program's strings are byte sequences; here a byte b is the
 character with code b, so every statement below holds for bytes in particular.
 */
module Text {
  import opened Wrappers

  // ----- character classes -----

  /** The C locale's isspace. */
  predicate IsSpace(c: char) {
    c == ' ' || '\t' <= c <= '\r'
  }

  /** The set " \t\r\n" that the program's trim helpers strip; narrower than isspace. */
  predicate IsBlank(c: char) {
    c == ' ' || c == '\t' || c == '\r' || c == '\n'
  }

  predicate IsDigit(c: char) {
    '0' <= c <= '9'
  }

  predicate AllDigits(s: string) {
    forall i | 0 <= i < |s| :: IsDigit(s[i])
  }

  function ToLower(c: char): char {
    if 'A' <= c <= 'Z' then c - 'A' + 'a' else c
  }

  function Lower(s: string): string {
    seq(|s|, i requires 0 <= i < |s| => ToLower(s[i]))
  }

  /** What strtol and the %d conversion skip first. */
  function SkipSpaces(s: string): (r: string)
    ensures |r| <= |s|
  {
    if s != "" && IsSpace(s[0]) then SkipSpaces(s[1..]) else s
  }

  /** A string as a C library function sees it: up to the first zero byte. */
  function CString(s: string): string {
    s[..IndexOf(s, '\0')]
  }

  /** The character classes, one by one. */
  lemma CharacterClasses(c: char)
    ensures IsSpace(c) <==> c in " \t\n\U{0B}\U{0C}\r"
    ensures IsBlank(c) <==> c in " \t\r\n"
    ensures IsDigit(c) <==> c in "0123456789"
    ensures ToLower(c) == c || (c in "ABCDEFGHIJKLMNOPQRSTUVWXYZ" && ToLower(c) as int == c as int + 32)
    ensures ToLower(c) !in "ABCDEFGHIJKLMNOPQRSTUVWXYZ"
  {
  }

  // ----- searching -----

  predicate StartsWith(s: string, prefix: string) {
    prefix <= s
  }

  /** std::string::find(needle) != npos. */
  predicate Contains(s: string, needle: string) {
    exists i | 0 <= i <= |s| :: needle <= s[i..]
  }

  lemma ContainsMiddle(a: string, needle: string, b: string)
    ensures Contains(a + (needle + b), needle)
  {
    var s := a + (needle + b);
    assert s[|a|..] == needle + b;
  }

  /** A text is found exactly when it stands somewhere. */
  lemma ContainsIffStands(s: string, needle: string)
    ensures Contains(s, needle) <==> exists a, b :: s == a + (needle + b)
  {
    if Contains(s, needle) {
      var i :| 0 <= i <= |s| && needle <= s[i..];
      var b := s[i..][|needle|..];
      assert s[i..] == needle + b;
      assert s == s[..i] + (needle + b);
    }
    forall a, b | s == a + (needle + b)
      ensures Contains(s, needle)
    {
      ContainsMiddle(a, needle, b);
    }
  }

  /** std::string::find(c); |s| stands for npos. */
  function IndexOf(s: string, c: char): (n: nat)
    ensures n <= |s|
    ensures forall i | 0 <= i < n :: s[i] != c
    ensures n < |s| ==> s[n] == c
  {
    if s == "" || s[0] == c then 0 else 1 + IndexOf(s[1..], c)
  }

  lemma IndexOfIs(s: string, c: char, n: nat)
    requires n <= |s| && forall i | 0 <= i < n :: s[i] != c
    requires n < |s| ==> s[n] == c
    ensures IndexOf(s, c) == n
  {
  }

  // ----- trimming -----

  function TrimLeft(s: string): (r: string)
    ensures |r| <= |s| && r == s[|s| - |r|..]
    ensures r == "" || !IsBlank(r[0])
  {
    if s != "" && IsBlank(s[0]) then TrimLeft(s[1..]) else s
  }

  function TrimRight(s: string): (r: string)
    ensures |r| <= |s| && r == s[..|r|]
    ensures r == "" || !IsBlank(r[|r| - 1])
  {
    if s != "" && IsBlank(s[|s| - 1]) then TrimRight(s[..|s| - 1]) else s
  }

  function Trim(s: string): string {
    TrimRight(TrimLeft(s))
  }

  ghost predicate Trimmed(s: string) {
    s == "" || (!IsBlank(s[0]) && !IsBlank(s[|s| - 1]))
  }

  /** Trimming yields a trimmed string and leaves trimmed strings alone. */
  lemma TrimTrims(s: string)
    ensures Trimmed(Trim(s))
    ensures Trimmed(s) ==> Trim(s) == s
  {
    NothingToTrim(s);
    FirstOfTrimRight(TrimLeft(s));
    hide TrimLeft, TrimRight, IsBlank;
  }

  lemma FirstOfTrimRight(s: string)
    ensures TrimRight(s) != "" ==> s != "" && TrimRight(s)[0] == s[0]
  {
    hide TrimRight, IsBlank;
    var r := TrimRight(s);
    if r != "" {
      assert r[0] == s[..|r|][0];
    }
  }

  lemma NothingToTrim(s: string)
    ensures s == "" || !IsBlank(s[0]) ==> TrimLeft(s) == s
    ensures s == "" || !IsBlank(s[|s| - 1]) ==> TrimRight(s) == s
  {
  }

  // ----- words: what `stream >> word` reads -----

  /** Length of the leading run of non-space characters. */
  function TokenLength(s: string): (n: nat)
    ensures n <= |s|
    ensures s != "" && !IsSpace(s[0]) ==> n > 0
    ensures forall i | 0 <= i < n :: !IsSpace(s[i])
    ensures n < |s| ==> IsSpace(s[n])
  {
    if s == "" || IsSpace(s[0]) then 0 else 1 + TokenLength(s[1..])
  }

  function Words(s: string): (words: seq<string>)
    decreases |s|
  {
    if s == "" then []
    else if IsSpace(s[0]) then Words(s[1..])
    else
      var n := TokenLength(s);
      [s[..n]] + Words(s[n..])
  }

  ghost predicate IsToken(s: string) {
    s != "" && forall i | 0 <= i < |s| :: !IsSpace(s[i])
  }

  lemma TokenLengthIs(s: string, n: nat)
    requires n <= |s|
    requires forall i | 0 <= i < n :: !IsSpace(s[i])
    requires n < |s| ==> IsSpace(s[n])
    ensures TokenLength(s) == n
  {
  }

  lemma {:induction false} WordsAreTokens(s: string)
    ensures forall w | w in Words(s) :: IsToken(w)
    decreases |s|
  {
    if s == "" {
    } else if IsSpace(s[0]) {
      WordsAreTokens(s[1..]);
    } else {
      WordsAreTokens(s[TokenLength(s)..]);
    }
  }

  lemma WordsSkip(s: string)
    requires s != "" && IsSpace(s[0])
    ensures Words(s) == Words(s[1..])
  {
  }

  lemma WordsTake(s: string, n: nat)
    requires 0 < n <= |s|
    requires forall i | 0 <= i < n :: !IsSpace(s[i])
    requires n < |s| ==> IsSpace(s[n])
    ensures Words(s) == [s[..n]] + Words(s[n..])
  {
    TokenLengthIs(s, n);
  }

  /** A whitespace character separates the words on its two sides. */
  lemma {:induction false} WordsSplit(a: string, space: char, b: string)
    requires IsSpace(space)
    ensures Words(a + [space] + b) == Words(a) + Words(b)
    decreases |a|
  {
    hide Words, TokenLength;
    var s := a + [space] + b;
    if a == "" {
      WordsOfEmpty();
      WordsSkip(s);
      assert s[1..] == b;
    } else if IsSpace(a[0]) {
      WordsSkip(s);
      WordsSkip(a);
      assert s[1..] == a[1..] + [space] + b;
      WordsSplit(a[1..], space, b);
    } else {
      var n := TokenLength(a);
      WordsTake(a, n);
      WordsTake(s, n);
      assert s[n..] == a[n..] + [space] + b;
      assert s[..n] == a[..n];
      WordsSplit(a[n..], space, b);
    }
  }

  lemma WordsOfEmpty()
    ensures Words("") == []
  {
  }

  lemma {:induction false} WordsTrimLeft(s: string)
    ensures Words(TrimLeft(s)) == Words(s)
  {
    if s != "" && IsBlank(s[0]) {
      WordsTrimLeft(s[1..]);
    }
  }

  lemma {:induction false} WordsTrimRight(s: string)
    ensures Words(TrimRight(s)) == Words(s)
  {
    if s != "" && IsBlank(s[|s| - 1]) {
      var a := s[..|s| - 1];
      WordsTrimRight(a);
      WordsSplit(a, s[|s| - 1], "");
      assert s == a + [s[|s| - 1]] + "";
    }
  }

  /** Trimming never changes the words. */
  lemma WordsTrim(s: string)
    ensures Words(Trim(s)) == Words(s)
  {
    WordsTrimLeft(s);
    WordsTrimRight(TrimLeft(s));
  }

  lemma WordsOfToken(s: string)
    requires IsToken(s)
    ensures Words(s) == [s]
  {
    TokenLengthIs(s, |s|);
    assert s[..|s|] == s;
  }

  // ----- decimal numbers -----

  function DigitChar(n: nat): (c: char)
    requires n < 10
    ensures IsDigit(c)
  {
    n as char + '0'
  }

  function DigitValue(c: char): nat
    requires IsDigit(c)
  {
    (c - '0') as int
  }

  /** Value of a string of digits. */
  function ValueOf(digits: string): nat
    requires AllDigits(digits)
  {
    if digits == "" then 0
    else ValueOf(digits[..|digits| - 1]) * 10 + DigitValue(digits[|digits| - 1])
  }

  /** std::to_string of an unsigned value. */
  function Decimal(n: nat): (s: string)
    ensures s != "" && AllDigits(s)
    ensures s[0] == '0' ==> |s| == 1
  {
    if n < 10 then [DigitChar(n)] else Decimal(n / 10) + [DigitChar(n % 10)]
  }

  function DecimalInt(i: int): (s: string)
    ensures s != "" && (s[0] == '-' <==> i < 0)
  {
    if i < 0 then "-" + Decimal(-i) else Decimal(i)
  }

  lemma {:induction false} ValueOfDecimal(n: nat)
    ensures ValueOf(Decimal(n)) == n
  {
    if n >= 10 {
      ValueOfDecimal(n / 10);
      assert Decimal(n)[..|Decimal(n)| - 1] == Decimal(n / 10);
    }
  }

  lemma DecimalInjective(a: nat, b: nat)
    requires Decimal(a) == Decimal(b)
    ensures a == b
  {
    ValueOfDecimal(a);
    ValueOfDecimal(b);
  }

  lemma DecimalIntInjective(a: int, b: int)
    requires DecimalInt(a) == DecimalInt(b)
    ensures a == b
  {
    if a < 0 && b < 0 {
      assert Decimal(-a) == DecimalInt(a)[1..] == Decimal(-b);
      DecimalInjective(-a, -b);
    } else if a >= 0 && b >= 0 {
      DecimalInjective(a, b);
    }
  }

  /** Length of the leading run of digits. */
  function DigitSpan(s: string): (n: nat)
    ensures n <= |s| && AllDigits(s[..n])
    ensures forall i | 0 <= i < n :: IsDigit(s[i])
    ensures n < |s| ==> !IsDigit(s[n])
  {
    if s == "" || !IsDigit(s[0]) then 0 else 1 + DigitSpan(s[1..])
  }

  lemma DigitSpanOf(digits: string, rest: string)
    requires AllDigits(digits)
    requires rest == "" || !IsDigit(rest[0])
    ensures DigitSpan(digits + rest) == |digits|
    ensures (digits + rest)[..|digits|] == digits && (digits + rest)[|digits|..] == rest
  {
    var s := digits + rest;
    assert forall i | 0 <= i < |digits| :: s[i] == digits[i];
    assert rest != "" ==> s[|digits|] == rest[0];
  }

  // ----- the order of strings -----

  /** operator< on strings: lexicographic by character code. */
  predicate StringLess(a: string, b: string) {
    if b == "" then false
    else if a == "" then true
    else a[0] < b[0] || (a[0] == b[0] && StringLess(a[1..], b[1..]))
  }

  lemma {:induction false} StringLessTotal(a: string, b: string)
    ensures StringLess(a, b) ==> !StringLess(b, a) && a != b
    ensures StringLess(a, b) || StringLess(b, a) || a == b
  {
    if a != "" && b != "" && a[0] == b[0] {
      StringLessTotal(a[1..], b[1..]);
      assert a == [a[0]] + a[1..] && b == [b[0]] + b[1..];
    }
  }

  lemma {:induction false} StringLessTransitive(a: string, b: string, c: string)
    requires StringLess(a, b) && StringLess(b, c)
    ensures StringLess(a, c)
  {
    if a != "" && a[0] == b[0] == c[0] {
      StringLessTransitive(a[1..], b[1..], c[1..]);
    }
  }

  /** Alphabetical order by bytes: a proper prefix, or smaller at the first difference. */
  ghost predicate Alphabetical(a: string, b: string) {
    exists n: nat :: SmallerAt(a, b, n)
  }

  predicate SmallerAt(a: string, b: string, n: nat) {
    n <= |a| && n < |b| && (forall i | 0 <= i < n :: a[i] == b[i]) && (n == |a| || a[n] < b[n])
  }

  lemma {:induction false} StringLessIsAlphabetical(a: string, b: string)
    ensures StringLess(a, b) <==> Alphabetical(a, b)
  {
    if a != "" && b != "" && a[0] == b[0] {
      StringLessIsAlphabetical(a[1..], b[1..]);
      assert forall i | 1 <= i < |a| :: a[i] == a[1..][i - 1];
      assert forall i | 1 <= i < |b| :: b[i] == b[1..][i - 1];
      if Alphabetical(a[1..], b[1..]) {
        var n: nat :| SmallerAt(a[1..], b[1..], n);
        assert SmallerAt(a, b, n + 1);
      }
      if Alphabetical(a, b) {
        var n: nat :| SmallerAt(a, b, n);
        assert SmallerAt(a[1..], b[1..], n - 1);
      }
    } else if b != "" && (a == "" || a[0] < b[0]) {
      assert SmallerAt(a, b, 0);
    }
  }

  // ----- lines -----

  /** Each line followed by a newline: what writing a vector of lines to a file produces. */
  function WriteLines(lines: seq<string>): string {
    if lines == [] then "" else lines[0] + "\n" + WriteLines(lines[1..])
  }

  /** What repeated std::getline reads: a last line without newline counts when it is not empty. */
  function ReadLines(text: string): seq<string>
    decreases |text|
  {
    if text == "" then [] else
      var n := IndexOf(text, '\n');
      if n == |text| then [text] else [text[..n]] + ReadLines(text[n + 1..])
  }

  ghost predicate NoNewline(s: string) {
    '\n' !in s
  }

  ghost predicate AllSingleLines(lines: seq<string>) {
    forall i | 0 <= i < |lines| :: NoNewline(lines[i])
  }

  lemma {:induction false} ReadLinesAreSingle(text: string)
    ensures AllSingleLines(ReadLines(text))
    decreases |text|
  {
    if text != "" {
      var n := IndexOf(text, '\n');
      if n < |text| {
        ReadLinesAreSingle(text[n + 1..]);
      }
      assert text[..|text|] == text;
    }
  }

  lemma ReadFirstLine(line: string, more: string)
    requires NoNewline(line)
    ensures ReadLines(line + "\n" + more) == [line] + ReadLines(more)
  {
    var text := line + "\n" + more;
    assert text[..|line|] == line;
    IndexOfIs(text, '\n', |line|);
    assert text[|line| + 1..] == more;
  }

  lemma ReadLastLine(line: string)
    requires NoNewline(line) && line != ""
    ensures ReadLines(line) == [line]
  {
    IndexOfIs(line, '\n', |line|);
  }

  /** Reading back written lines gives the same lines. */
  lemma {:induction false} ReadWrittenLines(lines: seq<string>)
    requires AllSingleLines(lines)
    ensures ReadLines(WriteLines(lines)) == lines
  {
    if lines != [] {
      ReadFirstLine(lines[0], WriteLines(lines[1..]));
      ReadWrittenLines(lines[1..]);
    }
  }

  /** A last line without a newline is read too. */
  lemma {:induction false} ReadUnfinishedLine(lines: seq<string>, last: string)
    requires AllSingleLines(lines) && NoNewline(last) && last != ""
    ensures ReadLines(WriteLines(lines) + last) == lines + [last]
  {
    hide ReadLines, NoNewline;
    if lines == [] {
      assert WriteLines(lines) + last == last;
      ReadLastLine(last);
    } else {
      var more := WriteLines(lines[1..]) + last;
      assert WriteLines(lines) + last == lines[0] + "\n" + more;
      ReadFirstLine(lines[0], more);
      ReadUnfinishedLine(lines[1..], last);
      assert [lines[0]] + (lines[1..] + [last]) == lines + [last];
    }
  }

  lemma {:induction false} WriteLinesAppend(a: seq<string>, b: seq<string>)
    ensures WriteLines(a + b) == WriteLines(a) + WriteLines(b)
  {
    if a == [] {
      assert a + b == b;
    } else {
      assert (a + b)[1..] == a[1..] + b;
      WriteLinesAppend(a[1..], b);
    }
  }
}
