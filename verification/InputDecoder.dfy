/**
 The terminal input decoder: keys, ECMA-48 section 5.4 control sequences for function keys and
 back-tab, and xterm mouse reports (mode 1006).  The stream holds what the successive key reads
 return; ERR in the middle of it is a moment without input, and an exhausted stream returns ERR.
 */
module InputDecoder {
  import opened Wrappers
  import opened Arithmetic
  import opened Text

  const ERR := -1
  const ESC := 27
  const KEY_BTAB := 353
  const KEY_MOUSE := 409

  function KeyF(n: int): int {
    264 + n
  }

  datatype Mouse = Mouse(x: int, y: int, button1Released: bool)

  datatype InputEvent = InputEvent(key: int, mouse: Option<Mouse>, parsedEscape: bool)

  /** static_cast<char> of a key code. */
  function CharOf(key: int): char {
    (key % 256) as char
  }

  function Code(c: char): int {
    c as int
  }

  predicate IsAlpha(c: char) {
    'a' <= c <= 'z' || 'A' <= c <= 'Z'
  }

  // ----- sscanf("%d;%d;%d") -----

  function ScanMagnitude(s: string, negative: bool): Option<(int, string)> {
    var n := DigitSpan(s);
    if n == 0 then None
    else Some((if negative then 0 - ValueOf(s[..n]) else ValueOf(s[..n]), s[n..]))
  }

  function ScanSigned(s: string): Option<(int, string)> {
    if s != "" && (s[0] == '-' || s[0] == '+') then ScanMagnitude(s[1..], s[0] == '-')
    else ScanMagnitude(s, false)
  }

  /** %d: blanks, an optional sign and at least one digit. */
  function ScanInt(s: string): Option<(int, string)> {
    ScanSigned(SkipSpaces(s))
  }

  function ScanSemicolon(s: string): Option<string> {
    if s != "" && s[0] == ';' then Some(s[1..]) else None
  }

  function ScanReport(payload: string): Option<(int, int, int)> {
    match ScanInt(CString(payload))
    case None => None
    case Some((button, s1)) =>
      match ScanSemicolon(s1)
      case None => None
      case Some(s2) =>
        match ScanInt(s2)
        case None => None
        case Some((x, s3)) =>
          match ScanSemicolon(s3)
          case None => None
          case Some(s4) =>
            match ScanInt(s4)
            case None => None
            case Some((y, _)) => Some((button, x, y))
  }

  // ----- the decoder as a function of the stream -----

  function First(s: seq<int>): int {
    if s == [] then ERR else s[0]
  }

  function Rest(s: seq<int>): (r: seq<int>)
    ensures |r| <= |s|
  {
    if s == [] then [] else s[1..]
  }

  /** At most n keys of a mouse report: its payload, the final letter if it came, and the remaining stream. */
  function ReadPayload(s: seq<int>, n: nat): (r: (string, Option<int>, seq<int>))
    ensures |s| - n <= |r.2| <= |s|
    decreases n
  {
    if n == 0 then ("", None, s)
    else if First(s) == ERR then ("", None, Rest(s))
    else if First(s) == Code('M') || First(s) == Code('m') then ("", Some(First(s)), Rest(s))
    else
      var (payload, final, rest) := ReadPayload(Rest(s), n - 1);
      ([CharOf(First(s))] + payload, final, rest)
  }

  /** At most n further keys of a control sequence, up to and including its final character. */
  function ReadSequence(s: seq<int>, n: nat): (r: (string, seq<int>))
    ensures |s| - n <= |r.1| <= |s|
    decreases n
  {
    if n == 0 then ("", s)
    else if First(s) == ERR then ("", Rest(s))
    else if First(s) == Code('~') || IsAlpha(CharOf(First(s))) then ([CharOf(First(s))], Rest(s))
    else
      var (more, rest) := ReadSequence(Rest(s), n - 1);
      ([CharOf(First(s))] + more, rest)
  }

  function KeyOfSequence(sequence: string): int {
    match sequence
    case "11~" => KeyF(1)
    case "12~" => KeyF(2)
    case "13~" => KeyF(3)
    case "14~" => KeyF(4)
    case "15~" => KeyF(5)
    case "17~" => KeyF(6)
    case "18~" => KeyF(7)
    case "19~" => KeyF(8)
    case "20~" => KeyF(9)
    case "21~" => KeyF(10)
    case _ => ESC
  }

  function ParseDefinedEscapeSequence(second: int, third: int, s: seq<int>): (r: (int, seq<int>))
    ensures |s| - 8 <= |r.1| <= |s|
  {
    if second == Code('O') then
      (if third == Code('P') then KeyF(1)
       else if third == Code('Q') then KeyF(2)
       else if third == Code('R') then KeyF(3)
       else if third == Code('S') then KeyF(4)
       else ESC, s)
    else if second == Code('[') then
      if third == Code('Z') then (KEY_BTAB, s)
      else if !IsDigit(CharOf(third)) then (ESC, s)
      else
        var (more, rest) := ReadSequence(s, 8);
        (KeyOfSequence([CharOf(third)] + more), rest)
    else (ESC, s)
  }

  function MouseEvent(button: int, x: int, y: int, final: int): InputEvent {
    InputEvent(KEY_MOUSE, Some(Mouse(Max(0, x - 1), Max(0, y - 1), final == Code('m') && button % 4 == 0)), true)
  }

  function DecodeReport(s: seq<int>): (r: (InputEvent, seq<int>))
    ensures |s| - 32 <= |r.1| <= |s|
  {
    var (payload, final, rest) := ReadPayload(s, 32);
    match final
    case None => (InputEvent(ERR, None, true), rest)
    case Some(letter) =>
      match ScanReport(payload)
      case None => (InputEvent(ERR, None, true), rest)
      case Some((button, x, y)) => (MouseEvent(button, x, y, letter), rest)
  }

  /** One call of the decoder: the event and the stream it leaves.  It always makes progress, by at most 35 keys. */
  function Decode(s: seq<int>): (r: (InputEvent, seq<int>))
    ensures |s| - 35 <= |r.1| && (s != [] ==> |r.1| < |s|)
  {
    var key, s1 := First(s), Rest(s);
    if key != ESC then (InputEvent(key, None, false), s1)
    else
      var second, s2 := First(s1), Rest(s1);
      if second == ERR then (InputEvent(ESC, None, false), s2)
      else
        var third, s3 := First(s2), Rest(s2);
        if third == ERR then (InputEvent(ESC, None, false), [second] + s3)
        else if second == Code('[') && third == Code('<') then DecodeReport(s3)
        else
          var (k, rest) := ParseDefinedEscapeSequence(second, third, s3);
          (InputEvent(k, None, true), rest)
  }

  // ----- the decoder as the program runs it -----

  class KeyStream {
    var pending: seq<int>

    constructor (keys: seq<int>)
      ensures pending == keys
    {
      pending := keys;
    }

    method ReadKey() returns (key: int)
      modifies this
      ensures key == First(old(pending)) && pending == Rest(old(pending))
    {
      if pending == [] {
        return ERR;
      }
      key := pending[0];
      pending := pending[1..];
    }

    method UnreadKey(key: int)
      modifies this
      ensures pending == [key] + old(pending)
    {
      pending := [key] + pending;
    }
  }

  /** The bounded loop that collects the payload of a mouse report. */
  method CollectPayload(stream: KeyStream) returns (payload: string, final: Option<int>)
    modifies stream
    ensures (payload, final, stream.pending) == ReadPayload(old(stream.pending), 32)
  {
    payload := "";
    final := None;
    var guard := 0;
    ghost var start := stream.pending;
    assert "" + ReadPayload(start, 32).0 == ReadPayload(start, 32).0;
    while guard < 32
      invariant 0 <= guard <= 32 && final == None
      invariant var (more, f, rest) := ReadPayload(stream.pending, 32 - guard);
                ReadPayload(start, 32) == (payload + more, f, rest)
    {
      ghost var tail := ReadPayload(Rest(stream.pending), 31 - guard).0;
      assert payload + "" == payload;
      var next := stream.ReadKey();
      if next == ERR {
        return;
      }
      if next == Code('M') || next == Code('m') {
        final := Some(next);
        return;
      }
      assert payload + ([CharOf(next)] + tail) == payload + [CharOf(next)] + tail;
      payload := payload + [CharOf(next)];
      guard := guard + 1;
    }
    assert payload + "" == payload;
  }

  method ReadReport(stream: KeyStream) returns (result: InputEvent)
    modifies stream
    ensures (result, stream.pending) == DecodeReport(old(stream.pending))
  {
    hide ScanReport, ReadPayload;
    var payload, final := CollectPayload(stream);
    if final.Some? {
      var fields := ScanReport(payload);
      if fields.Some? {
        var (button, x, y) := fields.value;
        return MouseEvent(button, x, y, final.value);
      }
    }
    return InputEvent(ERR, None, true);
  }

  method ReadDefinedEscapeSequence(second: int, third: int, stream: KeyStream) returns (key: int)
    modifies stream
    ensures (key, stream.pending) == ParseDefinedEscapeSequence(second, third, old(stream.pending))
  {
    hide KeyOfSequence;
    if second == Code('O') {
      if third == Code('P') { return KeyF(1); }
      if third == Code('Q') { return KeyF(2); }
      if third == Code('R') { return KeyF(3); }
      if third == Code('S') { return KeyF(4); }
      return ESC;
    }
    if second == Code('[') {
      if third == Code('Z') {
        return KEY_BTAB;
      }
      if !IsDigit(CharOf(third)) {
        return ESC;
      }
      var sequence := [CharOf(third)];
      ghost var start := stream.pending;
      var guard := 0;
      while guard < 8
        invariant 0 <= guard <= 8
        invariant var (more, rest) := ReadSequence(stream.pending, 8 - guard);
                  var (all, end) := ReadSequence(start, 8);
                  [CharOf(third)] + all == sequence + more && end == rest
      {
        ghost var tail := ReadSequence(Rest(stream.pending), 7 - guard).0;
        var next := stream.ReadKey();
        if next == ERR {
          assert sequence + "" == sequence;
          break;
        }
        assert sequence + ([CharOf(next)] + tail) == sequence + [CharOf(next)] + tail;
        sequence := sequence + [CharOf(next)];
        if next == Code('~') || IsAlpha(CharOf(next)) {
          break;
        }
        guard := guard + 1;
      }
      assert sequence + "" == sequence;
      assert ([CharOf(third)] + ReadSequence(start, 8).0, ReadSequence(start, 8).1) == (sequence, stream.pending);
      return KeyOfSequence(sequence);
    }
    return ESC;
  }

  method ReadInputEvent(stream: KeyStream) returns (result: InputEvent)
    modifies stream
    ensures (result, stream.pending) == Decode(old(stream.pending))
  {
    hide DecodeReport, ParseDefinedEscapeSequence;
    var key := stream.ReadKey();
    if key != ESC {
      return InputEvent(key, None, false);
    }
    var second := stream.ReadKey();
    if second == ERR {
      return InputEvent(key, None, false);
    }
    var third := stream.ReadKey();
    if third == ERR {
      stream.UnreadKey(second);
      return InputEvent(key, None, false);
    }
    if second == Code('[') && third == Code('<') {
      result := ReadReport(stream);
      return;
    }
    key := ReadDefinedEscapeSequence(second, third, stream);
    return InputEvent(key, None, true);
  }
}

/** Decoding inverts encoding. */
module InputRoundTrip {
  import opened Wrappers
  import opened Arithmetic
  import opened Text
  import opened InputDecoder

  /** What a terminal sends. */
  datatype Typed =
    | Plain(key: int)
    | EscapeKey
    | FunctionKey(n: int, short: bool)
    | BackTab
    | Report(button: int, x: int, y: int, release: bool)

  function Codes(s: string): (codes: seq<int>)
    ensures |codes| == |s| && forall i | 0 <= i < |s| :: codes[i] == Code(s[i])
  {
    seq(|s|, i requires 0 <= i < |s| => Code(s[i]))
  }

  function Payload(button: int, x: int, y: int): string {
    DecimalInt(button) + (";" + (DecimalInt(x) + (";" + DecimalInt(y))))
  }

  function FunctionText(n: int): string {
    match n
    case 1 => "11~"
    case 2 => "12~"
    case 3 => "13~"
    case 4 => "14~"
    case 5 => "15~"
    case 6 => "17~"
    case 7 => "18~"
    case 8 => "19~"
    case 9 => "20~"
    case _ => "21~"
  }

  /** The keys of one event; a lone escape key is followed by a moment without input. */
  function Encode(t: Typed): (keys: seq<int>)
    ensures keys != []
  {
    match t
    case Plain(key) => [key]
    case EscapeKey => [ESC, ERR]
    case FunctionKey(n, short) =>
      if short then [ESC, Code('O'), Code('P') + n - 1] else [ESC, Code('[')] + Codes(FunctionText(n))
    case BackTab => [ESC, Code('['), Code('Z')]
    case Report(button, x, y, release) =>
      [ESC, Code('['), Code('<')] + (Codes(Payload(button, x, y)) + [if release then Code('m') else Code('M')])
  }

  /** The numbers of a report are read into ints, and one is taken off x and y. */
  predicate ReportFits(button: int, x: int, y: int) {
    FitsInt(button) && FitsInt(x) && FitsInt(x - 1) && FitsInt(y) && FitsInt(y - 1)
  }

  ghost predicate Legal(t: Typed) {
    match t
    case Plain(key) => key != ESC && key != ERR
    case FunctionKey(n, short) => 1 <= n <= 10 && (short ==> n <= 4)
    case Report(button, x, y, _) => ReportFits(button, x, y) && |Payload(button, x, y)| <= 31
    case _ => true
  }

  /** What the program should make of it: a report's 1-based cell becomes 0-based, floored at 0. */
  function EventOf(t: Typed): InputEvent {
    match t
    case Plain(key) => InputEvent(key, None, false)
    case EscapeKey => InputEvent(ESC, None, false)
    case FunctionKey(n, _) => InputEvent(KeyF(n), None, true)
    case BackTab => InputEvent(KEY_BTAB, None, true)
    case Report(button, x, y, release) =>
      InputEvent(KEY_MOUSE, Some(Mouse(if x >= 1 then x - 1 else 0, if y >= 1 then y - 1 else 0,
                                       release && button % 4 == 0)), true)
  }

  // ----- mouse reports -----

  lemma NothingToSkip(s: string)
    requires s != "" && !IsSpace(s[0])
    ensures SkipSpaces(s) == s
  {
  }

  lemma ScanDigits(digits: string, rest: string, negative: bool)
    requires digits != "" && AllDigits(digits) && (rest == "" || !IsDigit(rest[0]))
    ensures ScanMagnitude(digits + rest, negative) ==
            Some((if negative then 0 - ValueOf(digits) else ValueOf(digits), rest))
  {
    DigitSpanOf(digits, rest);
    hide DigitSpan, ValueOf;
  }

  lemma ScanSigns(digits: string, rest: string)
    requires digits != "" && IsDigit(digits[0])
    ensures ScanInt(digits + rest) == ScanMagnitude(digits + rest, false)
    ensures ScanInt("-" + digits + rest) == ScanMagnitude(digits + rest, true)
  {
    hide ScanMagnitude, SkipSpaces;
    var s, t := digits + rest, "-" + digits + rest;
    assert s[0] == digits[0];
    assert t[0] == '-' && t[1..] == s;
    NothingToSkip(s);
    NothingToSkip(t);
  }

  lemma ScanDecimal(i: int, rest: string)
    requires rest == "" || !IsDigit(rest[0])
    ensures ScanInt(DecimalInt(i) + rest) == Some((i, rest))
  {
    hide ScanInt, ScanMagnitude, Decimal, ValueOf;
    var magnitude := if i < 0 then -i else i;
    ScanDigits(Decimal(magnitude), rest, i < 0);
    ScanSigns(Decimal(magnitude), rest);
    ValueOfDecimal(magnitude);
  }

  lemma ScanDecimalField(i: int, rest: string)
    ensures ScanInt(DecimalInt(i) + (";" + rest)) == Some((i, ";" + rest))
    ensures ScanSemicolon(";" + rest) == Some(rest)
  {
    ScanDecimal(i, ";" + rest);
    assert (";" + rest)[1..] == rest;
  }

  ghost predicate PayloadChars(s: string) {
    forall i | 0 <= i < |s| :: IsDigit(s[i]) || s[i] == '-' || s[i] == ';'
  }

  lemma DecimalChars(i: int)
    ensures PayloadChars(DecimalInt(i))
  {
  }

  lemma PayloadIsPlain(button: int, x: int, y: int)
    ensures PayloadChars(Payload(button, x, y))
  {
    DecimalChars(button);
    DecimalChars(x);
    DecimalChars(y);
    hide DecimalInt;
  }

  lemma ScanPayload(button: int, x: int, y: int)
    ensures ScanReport(Payload(button, x, y)) == Some((button, x, y))
  {
    hide ScanInt, ScanSemicolon, DecimalInt, IndexOf;
    var payload := Payload(button, x, y);
    PayloadIsPlain(button, x, y);
    IndexOfIs(payload, '\0', |payload|);
    assert payload[..|payload|] == payload;
    var tail := DecimalInt(x) + (";" + DecimalInt(y));
    ScanDecimalField(button, tail);
    ScanDecimalField(x, DecimalInt(y));
    ScanDecimal(y, "");
    assert DecimalInt(y) + "" == DecimalInt(y);
  }

  /** Reading a payload that fits within the guard. */
  lemma {:induction false} ReadWholePayload(p: string, final: int, rest: seq<int>, n: nat)
    requires PayloadChars(p) && |p| < n && (final == Code('M') || final == Code('m'))
    ensures ReadPayload(Codes(p) + [final] + rest, n) == (p, Some(final), rest)
  {
    var s := Codes(p) + [final] + rest;
    if p == "" {
      assert s == [final] + rest;
    } else {
      assert s[0] == Code(p[0]) && CharOf(s[0]) == p[0];
      assert s[1..] == Codes(p[1..]) + [final] + rest;
      ReadWholePayload(p[1..], final, rest, n - 1);
      assert [p[0]] + p[1..] == p;
    }
  }

  /** A payload that does not fit: the guard runs out before the final letter. */
  lemma {:induction false} ReadCutPayload(p: string, more: seq<int>, n: nat)
    requires PayloadChars(p) && |p| >= n
    ensures ReadPayload(Codes(p) + more, n) == (p[..n], None, Codes(p[n..]) + more)
  {
    var s := Codes(p) + more;
    if n == 0 {
      assert p[0..] == p && p[..0] == "";
    } else {
      assert s[0] == Code(p[0]) && CharOf(s[0]) == p[0];
      assert s[1..] == Codes(p[1..]) + more;
      ReadCutPayload(p[1..], more, n - 1);
      assert [p[0]] + p[1..][..n - 1] == p[..n];
      assert p[1..][n - 1..] == p[n..];
    }
  }

  lemma DecodeOpened(second: int, third: int, s: seq<int>)
    requires second != ERR && third != ERR
    ensures Decode([ESC, second, third] + s) ==
            if second == Code('[') && third == Code('<') then DecodeReport(s)
            else var (k, rest) := ParseDefinedEscapeSequence(second, third, s); (InputEvent(k, None, true), rest)
  {
    hide DecodeReport, ParseDefinedEscapeSequence;
    var all := [ESC, second, third] + s;
    assert all[1..][1..][1..] == s;
  }

  lemma DecodeShortReport(button: int, x: int, y: int, final: int, rest: seq<int>)
    requires |Payload(button, x, y)| <= 31 && (final == Code('M') || final == Code('m'))
    ensures DecodeReport(Codes(Payload(button, x, y)) + [final] + rest) == (MouseEvent(button, x, y, final), rest)
  {
    PayloadIsPlain(button, x, y);
    ScanPayload(button, x, y);
    hide ScanReport, Payload, ReadPayload, PayloadChars;
    ReadWholePayload(Payload(button, x, y), final, rest, 32);
  }

  lemma DecodeLongReport(p: string, more: seq<int>)
    requires PayloadChars(p) && |p| > 31
    ensures DecodeReport(Codes(p) + more) == (InputEvent(ERR, None, true), Codes(p[32..]) + more)
  {
    hide ScanReport, ReadPayload, PayloadChars;
    ReadCutPayload(p, more, 32);
  }

  lemma Regroup(p: seq<int>, final: int, rest: seq<int>)
    ensures [ESC, Code('['), Code('<')] + (p + [final]) + rest == [ESC, Code('['), Code('<')] + (p + [final] + rest)
    ensures p + [final] + rest == p + ([final] + rest)
  {
  }

  /** A mouse report of ints decodes to its event exactly when its payload has at most 31 bytes; a longer one
      is reported as no key, and the bytes after the first 32 are left to be read as keys. */
  lemma DecodeMouseReport(t: Typed, rest: seq<int>)
    requires t.Report? && ReportFits(t.button, t.x, t.y)
    ensures Decode(Encode(t) + rest) == (EventOf(t), rest) <==> |Payload(t.button, t.x, t.y)| <= 31
    ensures |Payload(t.button, t.x, t.y)| > 31 ==>
              Decode(Encode(t) + rest).0 == InputEvent(ERR, None, true) &&
              Decode(Encode(t) + rest).1 ==
              Codes(Payload(t.button, t.x, t.y)[32..]) + ([if t.release then Code('m') else Code('M')] + rest)
  {
    hide DecodeReport, Payload, Decode, PayloadChars;
    var p := Payload(t.button, t.x, t.y);
    var final := if t.release then Code('m') else Code('M');
    PayloadIsPlain(t.button, t.x, t.y);
    Regroup(Codes(p), final, rest);
    DecodeOpened(Code('['), Code('<'), Codes(p) + [final] + rest);
    if |p| <= 31 {
      DecodeShortReport(t.button, t.x, t.y, final, rest);
    } else {
      DecodeLongReport(p, [final] + rest);
    }
  }

  // ----- function keys -----

  lemma ReadTwo(a: char, rest: seq<int>)
    requires IsDigit(a)
    ensures ReadSequence([Code(a), Code('~')] + rest, 8) == ([a, '~'], rest)
  {
    var s := [Code(a), Code('~')] + rest;
    assert CharOf(Code(a)) == a && CharOf(Code('~')) == '~';
    assert s[1..] == [Code('~')] + rest;
    assert s[1..][1..] == rest;
    assert ReadSequence(s[1..], 7) == (['~'], rest);
    assert First(s) == Code(a) && Rest(s) == s[1..];
    assert [a] + ['~'] == [a, '~'];
  }

  lemma DecodeLongFunctionKey(n: int, rest: seq<int>)
    requires 1 <= n <= 10
    ensures Decode(Encode(FunctionKey(n, false)) + rest) == (EventOf(FunctionKey(n, false)), rest)
  {
    var text := FunctionText(n);
    assert |text| == 3 && text == [text[0], text[1], '~'] && IsDigit(text[0]) && IsDigit(text[1]);
    var s := [Code(text[1]), Code('~')] + rest;
    assert Encode(FunctionKey(n, false)) + rest == [ESC, Code('['), Code(text[0])] + s;
    DecodeOpened(Code('['), Code(text[0]), s);
    assert CharOf(Code(text[0])) == text[0];
    ReadTwo(text[1], rest);
    assert [text[0]] + [text[1], '~'] == text;
    hide Decode, ReadSequence;
    assert KeyOfSequence(text) == KeyF(n);
  }

  lemma DecodeShortSequences(n: int, rest: seq<int>)
    requires 1 <= n <= 4
    ensures Decode(Encode(FunctionKey(n, true)) + rest) == (EventOf(FunctionKey(n, true)), rest)
    ensures Decode(Encode(BackTab) + rest) == (EventOf(BackTab), rest)
  {
    DecodeOpened(Code('O'), Code('P') + n - 1, rest);
    DecodeOpened(Code('['), Code('Z'), rest);
    hide Decode;
  }

  // ----- whole streams -----

  /** Main result: each call consumes exactly the keys of its own event and returns that event. */
  lemma DecodeInvertsEncode(t: Typed, rest: seq<int>)
    requires Legal(t)
    ensures Decode(Encode(t) + rest) == (EventOf(t), rest)
  {
    match t
    case Plain(key) => assert ([key] + rest)[1..] == rest;
    case EscapeKey =>
      var s := [ESC, ERR] + rest;
      assert s[1..][1..] == rest;
    case FunctionKey(n, short) =>
      hide Decode;
      if short {
        DecodeShortSequences(n, rest);
      } else {
        DecodeLongFunctionKey(n, rest);
      }
    case BackTab =>
      hide Decode;
      DecodeShortSequences(1, rest);
    case Report(_, _, _, _) =>
      hide Decode;
      DecodeMouseReport(t, rest);
  }

  function EncodeAll(ts: seq<Typed>): seq<int> {
    if ts == [] then [] else Encode(ts[0]) + EncodeAll(ts[1..])
  }

  function EventsOf(ts: seq<Typed>): seq<InputEvent> {
    if ts == [] then [] else [EventOf(ts[0])] + EventsOf(ts[1..])
  }

  /** Calls of the decoder until the stream is used up. */
  function DecodeAll(s: seq<int>): seq<InputEvent>
    decreases |s|
  {
    if s == [] then [] else
      var (event, rest) := Decode(s);
      [event] + DecodeAll(rest)
  }

  /** Decoding inverts encoding over whole streams. */
  lemma {:induction false} DecodeAllInvertsEncodeAll(ts: seq<Typed>)
    requires forall t | t in ts :: Legal(t)
    ensures DecodeAll(EncodeAll(ts)) == EventsOf(ts)
  {
    if ts != [] {
      hide Decode, Encode, EventOf, Legal;
      DecodeInvertsEncode(ts[0], EncodeAll(ts[1..]));
      DecodeAllInvertsEncodeAll(ts[1..]);
    }
  }

  // ----- lost keys -----

  /** Two unrecognised keys after an escape are swallowed, while a single one followed by a pause is given back. */
  lemma EscapeSwallowsTwo(a: int, b: int, rest: seq<int>)
    requires a != ERR && b != ERR && a != Code('O') && a != Code('[')
    ensures Decode([ESC, a, b] + rest) == (InputEvent(ESC, None, true), rest)
    ensures Decode([ESC, a, ERR] + rest) == (InputEvent(ESC, None, false), [a] + rest)
  {
    DecodeOpened(a, b, rest);
    var s := [ESC, a, ERR] + rest;
    assert s[1..][1..][1..] == rest;
  }

  /** The keys of a stream without its pauses. */
  function Keys(s: seq<int>): (keys: seq<int>) {
    if s == [] then [] else (if s[0] == ERR then [] else [s[0]]) + Keys(s[1..])
  }

  /** What is left of a stream when some keys have been read. */
  ghost predicate LeftOf(rest: seq<int>, s: seq<int>) {
    |rest| <= |s| && rest == s[|s| - |rest|..]
  }

  lemma {:induction false} FewerKeysLeft(rest: seq<int>, s: seq<int>)
    requires LeftOf(rest, s)
    ensures |Keys(rest)| <= |Keys(s)|
    decreases |s|
  {
    if |rest| < |s| {
      assert rest == s[1..][|s[1..]| - |rest|..];
      FewerKeysLeft(rest, s[1..]);
    } else {
      assert rest == s;
    }
  }

  lemma {:induction false} PayloadLeaves(s: seq<int>, n: nat)
    ensures LeftOf(ReadPayload(s, n).2, s)
    decreases n
  {
    if n > 0 && s != [] {
      PayloadLeaves(s[1..], n - 1);
    }
  }

  lemma {:induction false} SequenceLeaves(s: seq<int>, n: nat)
    ensures LeftOf(ReadSequence(s, n).1, s)
    decreases n
  {
    if n > 0 && s != [] {
      SequenceLeaves(s[1..], n - 1);
    }
  }

  lemma OpenedLeaves(second: int, third: int, s: seq<int>)
    requires second != ERR && third != ERR
    ensures LeftOf(Decode([ESC, second, third] + s).1, s)
  {
    DecodeOpened(second, third, s);
    PayloadLeaves(s, 32);
    SequenceLeaves(s, 8);
    hide Decode, ReadPayload, ReadSequence, ScanReport, KeyOfSequence;
  }

  /** An escape that the decoder makes nothing of: an unknown sequence or a malformed mouse report. */
  predicate Unrecognised(s: seq<int>) {
    s != [] && s[0] == ESC && (Decode(s).0.key == ESC || Decode(s).0.key == ERR)
  }

  /** One of the two reads after the escape finds no key. */
  predicate PauseFollows(s: seq<int>) {
    First(Rest(s)) == ERR || First(Rest(Rest(s))) == ERR
  }

  /** After an unrecognised escape every later key is kept, in order, exactly when one of the next two reads is
      a pause.  Otherwise at least those two keys are swallowed; a malformed mouse report always loses some. */
  lemma KeysKeptIffPause(s: seq<int>)
    requires Unrecognised(s)
    ensures Keys(Decode(s).1) == Keys(s[1..]) <==> PauseFollows(s)
    ensures !PauseFollows(s) ==> |Keys(Decode(s).1)| + 2 <= |Keys(s[1..])|
    ensures Decode(s).0.key == ERR ==> !PauseFollows(s)
  {
    if |s| < 3 || PauseFollows(s) {
      KeptAfterPause(s);
    } else {
      var second, third, rest := s[1], s[2], s[3..];
      assert s == [ESC, second, third] + rest;
      OpenedLeaves(second, third, rest);
      hide Decode;
      assert s[1..][1..] == s[2..] && s[2..][1..] == rest;
      FewerKeysLeft(Decode(s).1, rest);
    }
  }

  lemma KeptAfterPause(s: seq<int>)
    requires s != [] && s[0] == ESC && (|s| < 3 || PauseFollows(s))
    ensures PauseFollows(s) && Keys(Decode(s).1) == Keys(s[1..]) && Decode(s).0.key == ESC
  {
    var s1 := s[1..];
    if s1 != [] && s1[0] != ERR {
      var s2 := s1[1..];
      assert Rest(s2) == if s2 == [] then [] else s2[1..];
      assert Decode(s).1 == [s1[0]] + Rest(s2);
      assert ([s1[0]] + Rest(s2))[1..] == Rest(s2);
    }
  }
}
