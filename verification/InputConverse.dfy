/** Nothing but their encodings decodes to function keys, back-tab and mouse events. */
module InputConverse {
  import opened Wrappers
  import opened Arithmetic
  import opened Text
  import opened Sequences
  import opened InputDecoder
  import opened InputRoundTrip

  // ----- the texts that a mouse report may hold -----

  /** A number as the %d conversion accepts it. */
  datatype Number = Number(blanks: string, sign: string, digits: string)

  predicate IsNumber(n: Number) {
    && (forall i | 0 <= i < |n.blanks| :: n.blanks[i] in " \t\n\U{0B}\U{0C}\r")
    && (n.sign == "" || n.sign == "+" || n.sign == "-")
    && n.digits != "" && forall i | 0 <= i < |n.digits| :: n.digits[i] in "0123456789"
  }

  function TextOfNumber(n: Number): string {
    n.blanks + (n.sign + n.digits)
  }

  function NumberValue(n: Number): int
    requires IsNumber(n)
  {
    ClassesOfNumber(n);
    if n.sign == "-" then 0 - ValueOf(n.digits) else ValueOf(n.digits)
  }

  predicate NoDigitFirst(s: string) {
    s == "" || s[0] !in "0123456789"
  }

  /** Three numbers with a semicolon right behind the first two; anything but a digit may follow the third. */
  ghost predicate ReportText(payload: string, button: int, x: int, y: int) {
    exists a: Number, b: Number, c: Number, tail ::
      && IsNumber(a) && IsNumber(b) && IsNumber(c) && NoDigitFirst(tail)
      && payload == ReportOf(a, b, c, tail)
      && button == NumberValue(a) && x == NumberValue(b) && y == NumberValue(c)
  }

  function ReportOf(a: Number, b: Number, c: Number, tail: string): string {
    TextOfNumber(a) + (";" + (TextOfNumber(b) + (";" + (TextOfNumber(c) + tail))))
  }

  lemma {:induction false} SkipsBlanks(blanks: string, rest: string)
    requires forall i | 0 <= i < |blanks| :: IsSpace(blanks[i])
    requires rest == "" || !IsSpace(rest[0])
    ensures SkipSpaces(blanks + rest) == rest
  {
    if blanks == "" {
      assert blanks + rest == rest;
    } else {
      assert (blanks + rest)[1..] == blanks[1..] + rest;
      SkipsBlanks(blanks[1..], rest);
    }
  }

  lemma {:induction false} SkipsOnlyBlanks(s: string)
    ensures var n := |s| - |SkipSpaces(s)|;
            && 0 <= n <= |s| && SkipSpaces(s) == s[n..] && (forall i | 0 <= i < n :: IsSpace(s[i]))
            && (n < |s| ==> !IsSpace(s[n]))
  {
    if s != "" && IsSpace(s[0]) {
      SkipsOnlyBlanks(s[1..]);
      var n := |s| - |SkipSpaces(s)|;
      assert s[n..] == s[1..][n - 1..];
      assert forall i | 1 <= i < n :: s[i] == s[1..][i - 1];
    }
  }

  lemma ClassesOfNumber(n: Number)
    ensures IsNumber(n) <==>
            && (forall i | 0 <= i < |n.blanks| :: IsSpace(n.blanks[i]))
            && (n.sign == "" || n.sign == "+" || n.sign == "-")
            && n.digits != "" && AllDigits(n.digits)
  {
    forall i | 0 <= i < |n.blanks|
      ensures IsSpace(n.blanks[i]) <==> n.blanks[i] in " \t\n\U{0B}\U{0C}\r"
    {
      CharacterClasses(n.blanks[i]);
    }
    forall i | 0 <= i < |n.digits|
      ensures IsDigit(n.digits[i]) <==> n.digits[i] in "0123456789"
    {
      CharacterClasses(n.digits[i]);
    }
    hide IsSpace, IsDigit;
  }

  lemma NoDigitFirstIs(s: string)
    ensures NoDigitFirst(s) <==> s == "" || !IsDigit(s[0])
  {
    if s != "" {
      CharacterClasses(s[0]);
    }
  }

  /** The conversion reads a number text that no further digit follows. */
  lemma ScanReadsNumber(n: Number, rest: string)
    requires IsNumber(n) && NoDigitFirst(rest)
    ensures ScanInt(TextOfNumber(n) + rest) == Some((NumberValue(n), rest))
  {
    ClassesOfNumber(n);
    NoDigitFirstIs(rest);
    hide IsNumber, NoDigitFirst;
    var body := n.sign + n.digits + rest;
    assert TextOfNumber(n) + rest == n.blanks + body;
    SignedBody(n, rest);
    SkipsBlanks(n.blanks, body);
  }

  lemma UnsignedScans(digits: string, rest: string)
    requires digits != "" && AllDigits(digits) && (rest == "" || !IsDigit(rest[0]))
    ensures ScanSigned(digits + rest) == Some((ValueOf(digits), rest)) && !IsSpace((digits + rest)[0])
  {
    ScanDigits(digits, rest, false);
    hide ScanMagnitude, ValueOf;
    assert (digits + rest)[0] == digits[0] && IsDigit(digits[0]);
  }

  lemma SignedScans(sign: char, digits: string, rest: string)
    requires sign == '+' || sign == '-'
    requires digits != "" && AllDigits(digits) && (rest == "" || !IsDigit(rest[0]))
    ensures ScanSigned([sign] + (digits + rest)) ==
            Some((if sign == '-' then 0 - ValueOf(digits) else ValueOf(digits), rest))
  {
    ScanDigits(digits, rest, sign == '-');
    hide ScanMagnitude, ValueOf;
    assert ([sign] + (digits + rest))[1..] == digits + rest;
  }

  lemma SignedBody(n: Number, rest: string)
    requires IsNumber(n) && NoDigitFirst(rest)
    ensures var body := n.sign + n.digits + rest;
            ScanSigned(body) == Some((NumberValue(n), rest)) && body != "" && !IsSpace(body[0])
  {
    ClassesOfNumber(n);
    NoDigitFirstIs(rest);
    hide ScanSigned, ValueOf, IsNumber, NoDigitFirst, AllDigits, IsDigit;
    if n.sign == "" {
      UnsignedScans(n.digits, rest);
      assert n.sign + n.digits + rest == n.digits + rest;
    } else {
      SignedScans(n.sign[0], n.digits, rest);
      assert n.sign + n.digits + rest == [n.sign[0]] + (n.digits + rest);
    }
  }

  lemma MakeNumber(blanks: string, sign: string, digits: string)
    requires forall i | 0 <= i < |blanks| :: IsSpace(blanks[i])
    requires (sign == "" || sign == "+" || sign == "-") && digits != "" && AllDigits(digits)
    ensures var n := Number(blanks, sign, digits);
            IsNumber(n) && NumberValue(n) == if sign == "-" then 0 - ValueOf(digits) else ValueOf(digits)
  {
    ClassesOfNumber(Number(blanks, sign, digits));
    hide IsNumber, IsSpace, AllDigits, ValueOf;
  }

  lemma SignedParts(t: string) returns (sign: string, digits: string)
    requires ScanSigned(t).Some?
    ensures (sign == "" || sign == "+" || sign == "-") && digits != "" && AllDigits(digits)
    ensures t == sign + digits + ScanSigned(t).value.1
    ensures ScanSigned(t).value.0 == if sign == "-" then 0 - ValueOf(digits) else ValueOf(digits)
    ensures ScanSigned(t).value.1 == "" || !IsDigit(ScanSigned(t).value.1[0])
  {
    sign := if t != "" && (t[0] == '-' || t[0] == '+') then [t[0]] else "";
    var u := t[|sign|..];
    DigitSpanIs(u);
    digits := u[..DigitSpan(u)];
    hide DigitSpan, ValueOf, IsDigit, AllDigits;
    assert t == sign + u;
  }

  /** And nothing else: what it reads is a number text. */
  lemma ScannedIsNumber(s: string)
    requires ScanInt(s).Some?
    ensures exists n: Number :: IsNumber(n) && NumberValue(n) == ScanInt(s).value.0 &&
              s == TextOfNumber(n) + ScanInt(s).value.1
    ensures NoDigitFirst(ScanInt(s).value.1)
  {
    SkipsOnlyBlanks(s);
    hide SkipSpaces;
    var k := |s| - |SkipSpaces(s)|;
    var sign, digits := SignedParts(s[k..]);
    hide ScanSigned;
    var n, rest := Number(s[..k], sign, digits), ScanInt(s).value.1;
    MakeNumber(s[..k], sign, digits);
    NoDigitFirstIs(rest);
    hide IsNumber, NoDigitFirst, IsSpace, AllDigits, ValueOf, NumberValue;
    RegroupNumber(s, k, sign, digits, rest);
  }

  lemma RegroupNumber(s: string, k: nat, sign: string, digits: string, rest: string)
    requires k <= |s| && s[k..] == sign + digits + rest
    ensures s == s[..k] + (sign + digits) + rest
  {
    assert s == s[..k] + s[k..];
  }

  lemma {:induction false} DigitSpanIs(s: string)
    ensures var n := DigitSpan(s);
            n <= |s| && AllDigits(s[..n]) && (n < |s| ==> !IsDigit(s[n]))
  {
    if s != "" && IsDigit(s[0]) {
      DigitSpanIs(s[1..]);
      var n := DigitSpan(s);
      assert forall i | 1 <= i < n :: s[..n][i] == s[1..][..n - 1][i - 1];
    }
  }

  lemma NumberHasNoZeroByte(n: Number)
    requires IsNumber(n)
    ensures '\0' !in TextOfNumber(n)
  {
  }

  lemma CutTail(front: string, tail: string)
    requires '\0' !in front
    ensures CString(front + tail) == front + CString(tail)
    ensures NoDigitFirst(tail) ==> NoDigitFirst(CString(tail))
  {
    var s, m := front + tail, IndexOf(tail, '\0');
    forall i | 0 <= i < |front| + m
      ensures s[i] != '\0'
    {
      assert i < |front| ==> s[i] == front[i];
    }
    IndexOfIs(s, '\0', |front| + m);
    assert s[..|front| + m] == front + tail[..m];
  }

  /** sscanf accepts exactly the report texts. */
  lemma ScanReportIff(payload: string, button: int, x: int, y: int)
    ensures ScanReport(payload) == Some((button, x, y)) <==> ReportText(payload, button, x, y)
  {
    if ReportText(payload, button, x, y) {
      var a: Number, b: Number, c: Number, tail :|
        && IsNumber(a) && IsNumber(b) && IsNumber(c) && NoDigitFirst(tail)
        && payload == ReportOf(a, b, c, tail)
        && button == NumberValue(a) && x == NumberValue(b) && y == NumberValue(c);
      ScanReadsReport(a, b, c, tail);
    }
    if ScanReport(payload) == Some((button, x, y)) {
      ScannedIsReport(payload, button, x, y);
    }
  }

  lemma SemicolonScans(rest: string)
    ensures ScanSemicolon(";" + rest) == Some(rest) && NoDigitFirst(";" + rest)
  {
    assert (";" + rest)[1..] == rest;
  }

  lemma ScanReadsReport(a: Number, b: Number, c: Number, tail: string)
    requires IsNumber(a) && IsNumber(b) && IsNumber(c) && NoDigitFirst(tail)
    ensures ScanReport(ReportOf(a, b, c, tail)) == Some((NumberValue(a), NumberValue(b), NumberValue(c)))
  {
    CutReport(a, b, c, tail);
    hide IsNumber, TextOfNumber, NumberValue, CString, ScanInt, ScanSemicolon, NoDigitFirst;
    var s4 := TextOfNumber(c) + CString(tail);
    var s2 := TextOfNumber(b) + (";" + s4);
    SemicolonScans(s4);
    SemicolonScans(s2);
    ScanReadsNumber(a, ";" + s2);
    ScanReadsNumber(b, ";" + s4);
    ScanReadsNumber(c, CString(tail));
  }

  lemma CutReport(a: Number, b: Number, c: Number, tail: string)
    requires IsNumber(a) && IsNumber(b) && IsNumber(c)
    ensures CString(ReportOf(a, b, c, tail)) == ReportOf(a, b, c, CString(tail))
    ensures NoDigitFirst(tail) ==> NoDigitFirst(CString(tail))
  {
    NumberHasNoZeroByte(a);
    NumberHasNoZeroByte(b);
    NumberHasNoZeroByte(c);
    hide IsNumber, TextOfNumber, CString, NoDigitFirst;
    AddsTail(a, b, c, tail);
    AddsTail(a, b, c, CString(tail));
    assert '\0' !in ReportOf(a, b, c, "");
    CutTail(ReportOf(a, b, c, ""), tail);
  }

  lemma AddsTail(a: Number, b: Number, c: Number, tail: string)
    ensures ReportOf(a, b, c, "") + tail == ReportOf(a, b, c, tail)
  {
    hide TextOfNumber;
    assert TextOfNumber(c) + "" == TextOfNumber(c);
  }

  lemma ScannedIsReport(payload: string, button: int, x: int, y: int)
    requires ScanReport(payload) == Some((button, x, y))
    ensures ReportText(payload, button, x, y)
  {
    var m := IndexOf(payload, '\0');
    var s0, cut := payload[..m], payload[m..];
    assert payload == s0 + cut;
    assert NoDigitFirst(cut);
    hide ScanInt, IsNumber, TextOfNumber, NumberValue, IndexOf, NoDigitFirst;
    ScannedIsNumber(s0);
    var a: Number :| IsNumber(a) && NumberValue(a) == ScanInt(s0).value.0 && s0 == TextOfNumber(a) + ScanInt(s0).value.1;
    var s1 := ScanInt(s0).value.1;
    var s2 := SemicolonParts(s1);
    ScannedIsNumber(s2);
    var b: Number :| IsNumber(b) && NumberValue(b) == ScanInt(s2).value.0 && s2 == TextOfNumber(b) + ScanInt(s2).value.1;
    var s3 := ScanInt(s2).value.1;
    var s4 := SemicolonParts(s3);
    ScannedIsNumber(s4);
    var c: Number :| IsNumber(c) && NumberValue(c) == ScanInt(s4).value.0 && s4 == TextOfNumber(c) + ScanInt(s4).value.1;
    var s5 := ScanInt(s4).value.1;
    hide ScanSemicolon, ScanReport, ReportText;
    ReportWithTail(a, b, c, s5, cut);
    assert s0 == ReportOf(a, b, c, s5);
    NoDigitInTail(s5, cut);
    ReportIs(payload, a, b, c, s5 + cut);
  }

  lemma ReportIs(payload: string, a: Number, b: Number, c: Number, tail: string)
    requires IsNumber(a) && IsNumber(b) && IsNumber(c) && NoDigitFirst(tail) && payload == ReportOf(a, b, c, tail)
    ensures ReportText(payload, NumberValue(a), NumberValue(b), NumberValue(c))
  {
    hide IsNumber, ReportOf, NumberValue, NoDigitFirst;
  }

  lemma NoDigitInTail(s: string, cut: string)
    requires NoDigitFirst(s) && NoDigitFirst(cut)
    ensures NoDigitFirst(s + cut)
  {
  }

  lemma ReportWithTail(a: Number, b: Number, c: Number, s: string, cut: string)
    ensures ReportOf(a, b, c, s) + cut == ReportOf(a, b, c, s + cut)
  {
    AddsTail(a, b, c, s);
    AddsTail(a, b, c, s + cut);
    hide TextOfNumber;
    hide ReportOf;
    Associate(ReportOf(a, b, c, ""), s, cut);
  }

  lemma SemicolonParts(s: string) returns (rest: string)
    requires ScanSemicolon(s).Some?
    ensures rest == ScanSemicolon(s).value && s == ";" + rest
  {
    rest := s[1..];
    assert s == [s[0]] + s[1..];
  }

  // ----- streams of bytes and pauses -----

  predicate ByteKeys(s: seq<int>) {
    forall i | 0 <= i < |s| :: s[i] == ERR || 0 <= s[i] < 256
  }

  /** The payload bytes of a report: no pause and no final letter among them. */
  predicate PlainPayload(p: string) {
    forall i | 0 <= i < |p| :: p[i] != 'M' && p[i] != 'm' && p[i] as int < 256
  }

  lemma PayloadStep(s: seq<int>, n: nat)
    requires n > 0 && s != [] && s[0] != ERR && s[0] != Code('M') && s[0] != Code('m')
    ensures ReadPayload(s, n) ==
            var (payload, final, rest) := ReadPayload(s[1..], n - 1); ([CharOf(s[0])] + payload, final, rest)
  {
  }

  lemma PayloadStops(s: seq<int>, n: nat)
    requires n == 0 || s == [] || s[0] == ERR || s[0] == Code('M') || s[0] == Code('m')
    ensures n > 0 && s != [] && s[0] != ERR ==> ReadPayload(s, n) == ("", Some(s[0]), s[1..])
    ensures n == 0 || s == [] || s[0] == ERR ==> ReadPayload(s, n).1 == None
  {
  }

  lemma SplitFirstChar(c: char, payload: string, p: string)
    ensures [c] + payload == p <==> p != "" && c == p[0] && payload == p[1..]
  {
    if [c] + payload == p {
      assert p[0] == c && p[1..] == payload;
    }
  }

  lemma CodesStep(p: string, more: seq<int>)
    ensures p == "" ==> Codes(p) + more == more
    ensures p != "" ==> Codes(p) + more == [Code(p[0])] + (Codes(p[1..]) + more)
  {
  }

  /** The reader returns a payload exactly when it stands in front of a final letter within its bound. */
  lemma {:induction false} PayloadIff(s: seq<int>, n: nat, p: string, final: int, rest: seq<int>)
    requires ByteKeys(s)
    ensures ReadPayload(s, n) == (p, Some(final), rest) <==>
            && |p| < n && PlainPayload(p) && (final == Code('M') || final == Code('m'))
            && s == Codes(p) + ([final] + rest)
    decreases n
  {
    hide ReadPayload, Codes, PlainPayload, CharOf;
    CodesStep(p, [final] + rest);
    EmptyIsPlain();
    if n > 0 && s != [] && s[0] != ERR && s[0] != Code('M') && s[0] != Code('m') {
      PayloadStep(s, n);
      assert s == [s[0]] + s[1..];
      SplitFirstChar(CharOf(s[0]), ReadPayload(s[1..], n - 1).0, p);
      if p != "" {
        PayloadIff(s[1..], n - 1, p[1..], final, rest);
        PlainStep(p);
        ByteChar(s[0], p[0]);
        SplitFirstKey(s, Code(p[0]), Codes(p[1..]) + ([final] + rest));
      }
    } else {
      PayloadStops(s, n);
      if p != "" {
        PlainStep(p);
        SplitFirstKey(s, Code(p[0]), Codes(p[1..]) + ([final] + rest));
      } else {
        SplitFirstKey(s, final, rest);
      }
    }
  }

  lemma SplitFirstKey(s: seq<int>, key: int, more: seq<int>)
    ensures s == [key] + more <==> s != [] && s[0] == key && s[1..] == more
  {
    if s != [] && s[0] == key && s[1..] == more {
      assert s == [s[0]] + s[1..];
    }
  }

  lemma EmptyIsPlain()
    ensures PlainPayload("")
  {
  }

  lemma PlainStep(p: string)
    requires p != ""
    ensures PlainPayload(p) <==> p[0] != 'M' && p[0] != 'm' && p[0] as int < 256 && PlainPayload(p[1..])
  {
    assert forall i | 1 <= i < |p| :: p[i] == p[1..][i - 1];
    assert forall i | 0 <= i < |p[1..]| :: p[1..][i] == p[i + 1];
  }

  lemma ByteChar(key: int, c: char)
    requires 0 <= key < 256
    ensures CharOf(key) == c <==> key == Code(c)
  {
  }

  /** A mouse report that the decoder accepts stands at the start of the stream. */
  ghost predicate ReportAt(s: seq<int>, p: string, final: int, button: int, x: int, y: int) {
    && [ESC, Code('['), Code('<')] + (Codes(p) + [final]) <= s
    && (final == Code('M') || final == Code('m')) && |p| <= 31 && PlainPayload(p) && ReportText(p, button, x, y)
  }

  ghost predicate ReportStands(s: seq<int>) {
    exists p, final, button, x, y :: ReportAt(s, p, final, button, x, y)
  }

  /** The numbers of a report fit an int: only then does sscanf define them. */
  ghost predicate ReportsFit(s: seq<int>) {
    forall p, final, button, x, y | ReportAt(s, p, final, button, x, y) :: ReportFits(button, x, y)
  }

  predicate OpensReport(s: seq<int>) {
    [ESC, Code('['), Code('<')] <= s
  }

  /** What stands behind a report's opening, as a prefix of the stream and as the reader sees it. */
  lemma ReportAtIff(s: seq<int>, p: string, final: int)
    requires OpensReport(s) && ByteKeys(s)
    ensures (final == Code('M') || final == Code('m')) && |p| <= 31 && PlainPayload(p) &&
            [ESC, Code('['), Code('<')] + (Codes(p) + [final]) <= s <==>
            ReadPayload(s[3..], 32).0 == p && ReadPayload(s[3..], 32).1 == Some(final)
  {
    hide ReadPayload, PlainPayload, Codes;
    var t, body := s[3..], Codes(p) + [final];
    assert s == [ESC, Code('['), Code('<')] + t;
    if [ESC, Code('['), Code('<')] + body <= s {
      var rest := s[3 + |body|..];
      assert t == body + rest;
      Associate(Codes(p), [final], rest);
      PayloadIff(t, 32, p, final, rest);
    }
    PayloadIff(t, 32, p, final, ReadPayload(t, 32).2);
    Associate(Codes(p), [final], ReadPayload(t, 32).2);
    StartsWithPart([ESC, Code('['), Code('<')], body, t);
  }

  lemma StartsWithPart(a: seq<int>, b: seq<int>, t: seq<int>)
    ensures (exists rest :: t == b + rest) ==> a + b <= a + t
    ensures b <= t ==> a + b <= a + t
  {
    forall rest | t == b + rest
      ensures a + b <= a + t
    {
      assert a + t == a + b + rest;
    }
  }

  /** After its opening a report decodes to its event, or to no key when no accepted text stands there. */
  lemma OpenedReport(s: seq<int>)
    requires OpensReport(s) && ByteKeys(s)
    ensures forall p, final, button, x, y | ReportAt(s, p, final, button, x, y) ::
              Decode(s).0 == InputEvent(KEY_MOUSE, Some(Mouse(if x >= 1 then x - 1 else 0, if y >= 1 then y - 1 else 0,
                                                              final == Code('m') && button % 4 == 0)), true)
    ensures !ReportStands(s) ==> Decode(s).0 == InputEvent(ERR, None, true)
  {
    var t := s[3..];
    assert s == [ESC, Code('['), Code('<')] + t;
    DecodeOpened(Code('['), Code('<'), t);
    hide Decode, ReadPayload, ScanReport, ReportText, Codes, PlainPayload;
    forall p, final, button, x, y | ReportAt(s, p, final, button, x, y)
      ensures Decode(s).0 == MouseEvent(button, x, y, final)
    {
      ReportAtIff(s, p, final);
      ScanReportIff(p, button, x, y);
    }
    var (payload, final, rest) := ReadPayload(t, 32);
    if final.Some? && ScanReport(payload).Some? {
      var (button, x, y) := ScanReport(payload).value;
      ReportAtIff(s, payload, final.value);
      ScanReportIff(payload, button, x, y);
      assert ReportAt(s, payload, final.value, button, x, y);
    }
  }

  // ----- function keys and back-tab -----

  /** The table names exactly the ten sequences. */
  lemma TableIff(sequence: string, n: int)
    requires 1 <= n <= 10
    ensures KeyOfSequence(sequence) == KeyF(n) <==> sequence == FunctionText(n)
    ensures KeyOfSequence(sequence) == ESC || exists k | 1 <= k <= 10 :: KeyOfSequence(sequence) == KeyF(k)
  {
  }

  lemma SequenceStep(s: seq<int>, n: nat)
    requires s != [] && n > 0 && s[0] != ERR && s[0] != Code('~') && !IsAlpha(CharOf(s[0]))
    ensures ReadSequence(s, n).0 == [CharOf(s[0])] + ReadSequence(s[1..], n - 1).0
  {
  }

  lemma SequenceStops(s: seq<int>, n: nat)
    requires n > 0 && (s == [] || s[0] == ERR || s[0] == Code('~') || IsAlpha(CharOf(s[0])))
    ensures ReadSequence(s, n).0 == if s == [] || s[0] == ERR then "" else [CharOf(s[0])]
  {
  }

  lemma SequenceEnds(s: seq<int>, n: nat)
    requires ByteKeys(s) && n > 0
    ensures ReadSequence(s, n).0 == ['~'] <==> [Code('~')] <= s
  {
    hide ReadSequence, IsAlpha;
    if s == [] || s[0] == ERR || s[0] == Code('~') || IsAlpha(CharOf(s[0])) {
      SequenceStops(s, n);
    } else {
      SequenceStep(s, n);
      assert ([CharOf(s[0])] + ReadSequence(s[1..], n - 1).0)[0] == CharOf(s[0]);
    }
    if s != [] && s[0] != ERR {
      ByteChar(s[0], '~');
      assert [CharOf(s[0])] == ['~'] <==> CharOf(s[0]) == '~';
    }
  }

  /** The reader returns a digit and a tilde exactly when they stand at the start of the stream. */
  lemma SequenceIff(s: seq<int>, a: char)
    requires ByteKeys(s) && a in "0123456789"
    ensures ReadSequence(s, 8).0 == [a, '~'] <==> [Code(a), Code('~')] <= s
  {
    hide ReadSequence;
    if s == [] || s[0] == ERR || s[0] == Code('~') || IsAlpha(CharOf(s[0])) {
      SequenceStops(s, 8);
    } else {
      SequenceStep(s, 8);
      SequenceEnds(s[1..], 7);
      ByteChar(s[0], a);
      TwoChars(CharOf(s[0]), ReadSequence(s[1..], 7).0, a);
    }
    assert [Code(a), Code('~')] <= s <==> s != [] && s[0] == Code(a) && [Code('~')] <= s[1..];
  }

  lemma TwoChars(c: char, more: string, a: char)
    ensures [c] + more == [a, '~'] <==> c == a && more == ['~']
  {
    if [c] + more == [a, '~'] {
      assert ([c] + more)[0] == c && ([c] + more)[1..] == more;
    }
  }

  /** A control sequence with a digit names a function key exactly when its text stands there. */
  lemma LongSequenceIff(s: seq<int>, n: int)
    requires 1 <= n <= 10 && ByteKeys(s) && |s| >= 3 && s[0] == ESC && s[1] == Code('[')
    requires s[2] != ERR
    ensures KeyOfSequence([CharOf(s[2])] + ReadSequence(s[3..], 8).0) == KeyF(n) <==>
            Encode(FunctionKey(n, false)) <= s
  {
    var text, more := FunctionText(n), ReadSequence(s[3..], 8).0;
    FunctionTextIs(n);
    TableIff([CharOf(s[2])] + more, n);
    ByteChar(s[2], text[0]);
    SequenceIff(s[3..], text[1]);
    ThreeChars(CharOf(s[2]), more, text);
    LongEncoding(s, n);
    hide KeyOfSequence, ReadSequence, KeyF, FunctionText, Encode;
  }

  lemma ThreeChars(c: char, more: string, text: string)
    requires |text| == 3
    ensures [c] + more == text <==> c == text[0] && more == [text[1], text[2]]
  {
    if [c] + more == text {
      assert ([c] + more)[0] == c && ([c] + more)[1..] == more;
    }
    assert [text[0]] + [text[1], text[2]] == text;
  }

  lemma LongEncoding(s: seq<int>, n: int)
    requires 1 <= n <= 10 && |s| >= 3 && s[0] == ESC && s[1] == Code('[')
    ensures Encode(FunctionKey(n, false)) <= s <==>
            s[2] == Code(FunctionText(n)[0]) && [Code(FunctionText(n)[1]), Code('~')] <= s[3..]
  {
    FunctionTextIs(n);
    hide FunctionText;
    var text := FunctionText(n);
    assert Encode(FunctionKey(n, false)) == [ESC, Code('['), Code(text[0]), Code(text[1]), Code('~')];
  }

  lemma FunctionTextIs(n: int)
    ensures var t := FunctionText(n); |t| == 3 && t == [t[0], t[1], '~'] && t[0] in "0123456789" && t[1] in "0123456789"
  {
  }

  /** The stream begins with an encoding of function key n. */
  predicate FunctionKeyStands(s: seq<int>, n: int) {
    Encode(FunctionKey(n, false)) <= s || (n <= 4 && Encode(FunctionKey(n, true)) <= s)
  }

  predicate SomeFunctionKey(key: int) {
    exists k | 1 <= k <= 10 :: key == KeyF(k)
  }

  /** An escape that opens no report. */
  lemma OtherEscape(s: seq<int>, n: int)
    requires s != [] && s[0] == ESC && ByteKeys(s) && !OpensReport(s) && 1 <= n <= 10
    ensures var e := Decode(s).0;
            && e.mouse == None && (e.key == ESC || e.key == KEY_BTAB || SomeFunctionKey(e.key))
            && (e.key == KeyF(n) <==> FunctionKeyStands(s, n))
            && (e.key == KEY_BTAB <==> Encode(BackTab) <= s)
  {
    if |s| < 3 || s[1] == ERR || s[2] == ERR {
      PausedEscape(s);
    } else {
      var t := s[3..];
      assert s == [ESC, s[1], s[2]] + t;
      DecodeOpened(s[1], s[2], t);
      hide Decode;
      if s[1] == Code('[') && IsDigit(CharOf(s[2])) {
        DigitEscape(s, n);
      } else if s[1] == Code('O') {
        ShortEscape(s, n);
      } else {
        PlainEscape(s, n);
      }
    }
  }

  /** ESC [ and a digit. */
  lemma DigitEscape(s: seq<int>, n: int)
    requires |s| >= 3 && s[0] == ESC && s[1] == Code('[') && s[2] != ERR && IsDigit(CharOf(s[2]))
    requires ByteKeys(s) && 1 <= n <= 10
    ensures var key := ParseDefinedEscapeSequence(s[1], s[2], s[3..]).0;
            && (key == ESC || SomeFunctionKey(key)) && (key == KeyF(n) <==> FunctionKeyStands(s, n))
    ensures !(Encode(BackTab) <= s)
  {
    LongSequenceIff(s, n);
    TableIff([CharOf(s[2])] + ReadSequence(s[3..], 8).0, n);
    hide ReadSequence, KeyOfSequence, FunctionText;
    assert s[2] != Code('Z');
    assert n <= 4 ==> !(Encode(FunctionKey(n, true)) <= s);
  }

  /** ESC O. */
  lemma ShortEscape(s: seq<int>, n: int)
    requires |s| >= 3 && s[0] == ESC && s[1] == Code('O') && s[2] != ERR && 1 <= n <= 10
    ensures var key := ParseDefinedEscapeSequence(s[1], s[2], s[3..]).0;
            && (key == ESC || SomeFunctionKey(key)) && (key == KeyF(n) <==> FunctionKeyStands(s, n))
    ensures !(Encode(BackTab) <= s)
  {
    FunctionTextIs(n);
    hide FunctionText, ReadSequence, KeyOfSequence;
    var e := Encode(FunctionKey(n, false));
    assert e[1] == Code('[');
    assert n <= 4 ==> (Encode(FunctionKey(n, true)) <= s <==> s[2] == Code('P') + n - 1);
    ShortKeys(s[2], n);
  }

  lemma ShortKeys(third: int, n: int)
    requires 1 <= n <= 10
    ensures var key := ParseDefinedEscapeSequence(Code('O'), third, []).0;
            && (key == KeyF(n) <==> n <= 4 && third == Code('P') + n - 1)
            && (key == ESC || SomeFunctionKey(key))
  {
    var key := ParseDefinedEscapeSequence(Code('O'), third, []).0;
    assert key == ESC || key == KeyF(1) || key == KeyF(2) || key == KeyF(3) || key == KeyF(4);
  }

  /** Anything else: back-tab or nothing. */
  lemma PlainEscape(s: seq<int>, n: int)
    requires |s| >= 3 && s[0] == ESC && s[1] != Code('O') && s[1] != ERR && s[2] != ERR
    requires !(s[1] == Code('[') && IsDigit(CharOf(s[2]))) && ByteKeys(s) && 1 <= n <= 10
    ensures var key := ParseDefinedEscapeSequence(s[1], s[2], s[3..]).0;
            && (key == ESC || key == KEY_BTAB) && (key == KEY_BTAB <==> Encode(BackTab) <= s)
            && !FunctionKeyStands(s, n)
  {
    NoLongKey(s, n);
    hide ReadSequence, KeyOfSequence;
    assert n <= 4 ==> Encode(FunctionKey(n, true))[1] == Code('O');
    assert Encode(BackTab) <= s <==> s[1] == Code('[') && s[2] == Code('Z');
  }

  lemma NoLongKey(s: seq<int>, n: int)
    requires |s| >= 3 && ByteKeys(s) && s[2] != ERR && !(s[1] == Code('[') && IsDigit(CharOf(s[2])))
    ensures !(Encode(FunctionKey(n, false)) <= s)
  {
    FunctionTextIs(n);
    hide FunctionText;
    var e := Encode(FunctionKey(n, false));
    assert e[1] == Code('[') && e[2] == Code(FunctionText(n)[0]);
    ByteChar(s[2], FunctionText(n)[0]);
  }

  lemma PausedEscape(s: seq<int>)
    requires s != [] && s[0] == ESC && (|s| < 3 || s[1] == ERR || s[2] == ERR)
    ensures Decode(s).0 == InputEvent(ESC, None, false)
    ensures forall n | 1 <= n <= 10 :: !FunctionKeyStands(s, n)
    ensures !(Encode(BackTab) <= s)
  {
    forall n | 1 <= n <= 10
      ensures !FunctionKeyStands(s, n)
    {
      FunctionTextIs(n);
      hide FunctionText;
      var e := Encode(FunctionKey(n, false));
      assert |e| > 2 && e[1] != ERR && e[2] != ERR;
    }
  }

  // ----- all escapes -----

  /** Main result: on bytes and pauses an escape decodes to a function key, to back-tab or to a mouse event exactly
      when the stream begins with an encoding of that event.  A report that is opened but not accepted gives no
      key, and every other escape gives the escape key. */
  lemma EscapeDecodesIff(s: seq<int>, n: int)
    requires s != [] && s[0] == ESC && ByteKeys(s) && ReportsFit(s) && 1 <= n <= 10
    ensures var e := Decode(s).0;
            && (e.key == KeyF(n) <==> FunctionKeyStands(s, n))
            && (e.key == KEY_BTAB <==> Encode(BackTab) <= s)
            && (e.key == KEY_MOUSE <==> ReportStands(s)) && (e.mouse.Some? <==> ReportStands(s))
            && (e.key == ERR <==> OpensReport(s) && !ReportStands(s))
            && (e.key == ESC || e.key == ERR || e.key == KEY_BTAB || e.key == KEY_MOUSE || SomeFunctionKey(e.key))
    ensures forall p, final, button, x, y | ReportAt(s, p, final, button, x, y) ::
              Decode(s).0.mouse == Some(Mouse(if x >= 1 then x - 1 else 0, if y >= 1 then y - 1 else 0,
                                              final == Code('m') && button % 4 == 0))
  {
    if OpensReport(s) {
      OpenedReport(s);
      NoOtherEncoding(s, n);
    } else {
      OtherEscape(s, n);
      NoReportWithoutOpening(s);
    }
    hide Decode, ReportAt, FunctionKeyStands;
  }

  lemma NoReportWithoutOpening(s: seq<int>)
    requires !OpensReport(s)
    ensures forall p, final, button, x, y :: !ReportAt(s, p, final, button, x, y)
  {
    hide ReportText, PlainPayload, Codes;
    forall p, final, button, x, y
      ensures !ReportAt(s, p, final, button, x, y)
    {
      PrefixOfPrefix([ESC, Code('['), Code('<')], Codes(p) + [final], s);
    }
  }

  lemma PrefixOfPrefix(a: seq<int>, b: seq<int>, s: seq<int>)
    ensures a + b <= s ==> a <= s
  {
    if a + b <= s {
      assert a == (a + b)[..|a|] == s[..|a|];
    }
  }

  lemma NoOtherEncoding(s: seq<int>, n: int)
    requires OpensReport(s) && 1 <= n <= 10
    ensures !FunctionKeyStands(s, n) && !(Encode(BackTab) <= s)
  {
    FunctionTextIs(n);
    hide FunctionText;
    assert s[1] == Code('[') && s[2] == Code('<');
    var e := Encode(FunctionKey(n, false));
    assert e[2] == Code(FunctionText(n)[0]) && e[2] != Code('<');
  }
}
