/**
 A reference parser for RFC 8259 texts (sections 2 to 7), written independently of the writer.
 A string denotes bytes: a \u escape stands for the UTF-8 bytes of its code point.
 */
module JsonParser {
  import opened Wrappers
  import opened Text
  import opened Json

  // ----- section 2: insignificant whitespace -----

  predicate IsJsonSpace(c: char) {
    c == ' ' || c == '\t' || c == '\n' || c == '\r'
  }

  function SkipSpace(s: string): (r: string)
    ensures |r| <= |s|
  {
    if s != "" && IsJsonSpace(s[0]) then SkipSpace(s[1..]) else s
  }

  // ----- section 7: strings -----

  predicate IsHexDigit(c: char) {
    IsDigit(c) || 'a' <= c <= 'f' || 'A' <= c <= 'F'
  }

  function HexValue(c: char): (n: nat)
    requires IsHexDigit(c)
    ensures n < 16
  {
    if IsDigit(c) then (c - '0') as int
    else if 'a' <= c then (c - 'a') as int + 10
    else (c - 'A') as int + 10
  }

  /** Four hexadecimal digits after a reverse solidus and a 'u'. */
  function UnicodeEscape(s: string): (unit: Option<nat>)
    ensures unit.Some? ==> |s| >= 6 && unit.value < 0x1_0000
  {
    if |s| >= 6 && s[0] == '\\' && s[1] == 'u' &&
       IsHexDigit(s[2]) && IsHexDigit(s[3]) && IsHexDigit(s[4]) && IsHexDigit(s[5])
    then Some(((HexValue(s[2]) * 16 + HexValue(s[3])) * 16 + HexValue(s[4])) * 16 + HexValue(s[5]))
    else None
  }

  function ByteChar(n: nat): char
    requires n < 256
  {
    n as char
  }

  function Utf8(point: nat): string
    requires point < 0x11_0000
  {
    if point < 0x80 then [ByteChar(point)]
    else if point < 0x800 then [ByteChar(0xC0 + point / 64), ByteChar(0x80 + point % 64)]
    else if point < 0x1_0000 then
      [ByteChar(0xE0 + point / 4096), ByteChar(0x80 + point / 64 % 64), ByteChar(0x80 + point % 64)]
    else
      [ByteChar(0xF0 + point / 262144), ByteChar(0x80 + point / 4096 % 64),
       ByteChar(0x80 + point / 64 % 64), ByteChar(0x80 + point % 64)]
  }

  /** One possibly escaped character: its bytes and how much text it takes. */
  function ParseChar(s: string): (r: Option<(string, nat)>)
    requires s != ""
    ensures r.Some? ==> 0 < r.value.1 <= |s|
  {
    if s[0] != '\\' then
      if s[0] < ' ' then None else Some((s[..1], 1))
    else if |s| < 2 then None
    else match s[1]
      case '"' => Some(("\"", 2))
      case '\\' => Some(("\\", 2))
      case '/' => Some(("/", 2))
      case 'b' => Some(("\U{08}", 2))
      case 'f' => Some(("\U{0C}", 2))
      case 'n' => Some(("\n", 2))
      case 'r' => Some(("\r", 2))
      case 't' => Some(("\t", 2))
      case _ =>
        match UnicodeEscape(s)
        case None => None
        case Some(high) =>
          if high < 0xD800 || 0xE000 <= high then Some((Utf8(high), 6))
          else if 0xDC00 <= high then None
          else match UnicodeEscape(s[6..])
            case None => None
            case Some(low) =>
              if 0xDC00 <= low < 0xE000
              then Some((Utf8(0x1_0000 + (high - 0xD800) * 0x400 + (low - 0xDC00)), 12))
              else None
  }

  /** The rest of a string after its opening quotation mark. */
  function ParseString(s: string): (r: Option<(string, string)>)
    ensures r.Some? ==> |r.value.1| < |s|
    decreases |s|
  {
    if s == "" then None
    else if s[0] == '"' then Some(("", s[1..]))
    else match ParseChar(s)
      case None => None
      case Some((bytes, n)) =>
        match ParseString(s[n..])
        case None => None
        case Some((more, rest)) => Some((bytes + more, rest))
  }

  // ----- section 6: numbers -----

  /** The optional fraction: its digits, or None when a point is not followed by a digit. */
  function ParseFraction(s: string): (r: Option<(string, string)>)
    ensures r.Some? ==> AllDigits(r.value.0) && |r.value.1| <= |s|
  {
    if s == "" || s[0] != '.' then Some(("", s)) else
      var n := DigitSpan(s[1..]);
      if n == 0 then None else Some((s[1..][..n], s[1..][n..]))
  }

  /** The optional exponent. */
  function ParseExponent(s: string): (r: Option<(int, string)>)
    ensures r.Some? ==> |r.value.1| <= |s|
  {
    if s == "" || (s[0] != 'e' && s[0] != 'E') then Some((0, s)) else
      var signed := |s| > 1 && (s[1] == '+' || s[1] == '-');
      var digits := if signed then s[2..] else s[1..];
      var n := DigitSpan(digits);
      if n == 0 then None else
        var e: int := ValueOf(digits[..n]);
        Some((if signed && s[1] == '-' then -e else e, digits[n..]))
  }

  function ParseUnsigned(s: string, negative: bool): (r: Option<(Value, string)>)
    ensures r.Some? ==> |r.value.1| < |s|
  {
    var span := DigitSpan(s);
    if span == 0 then None else
      var n := if s[0] == '0' then 1 else span;
      match ParseFraction(s[n..])
      case None => None
      case Some((fraction, afterFraction)) =>
        match ParseExponent(afterFraction)
        case None => None
        case Some((e, rest)) => Some((Num(negative, ValueOf(s[..n] + fraction), e - |fraction|), rest))
  }

  function ParseNumber(s: string): (r: Option<(Value, string)>)
    ensures r.Some? ==> |r.value.1| < |s|
  {
    if s != "" && s[0] == '-' then ParseUnsigned(s[1..], true) else ParseUnsigned(s, false)
  }

  // ----- sections 3, 4, 5: values, objects, arrays -----

  function ParseValue(s: string): (r: Option<(Value, string)>)
    ensures r.Some? ==> |r.value.1| < |s|
    decreases |s|, 0
  {
    if s == "" then None
    else if s[0] == '"' then
      match ParseString(s[1..])
      case None => None
      case Some((text, rest)) => Some((Str(text), rest))
    else if s[0] == '[' then
      var inner := SkipSpace(s[1..]);
      if inner != "" && inner[0] == ']' then Some((Arr([]), inner[1..]))
      else match ParseItems(inner)
        case None => None
        case Some((items, rest)) => Some((Arr(items), rest))
    else if s[0] == '{' then
      var inner := SkipSpace(s[1..]);
      if inner != "" && inner[0] == '}' then Some((Obj([]), inner[1..]))
      else match ParseMembers(inner)
        case None => None
        case Some((members, rest)) => Some((Obj(members), rest))
    else if StartsWith(s, "null") then Some((Null, s[4..]))
    else if StartsWith(s, "true") then Some((Bool(true), s[4..]))
    else if StartsWith(s, "false") then Some((Bool(false), s[5..]))
    else ParseNumber(s)
  }

  /** One or more values separated by commas, up to and including the closing bracket. */
  function ParseItems(s: string): (r: Option<(seq<Value>, string)>)
    ensures r.Some? ==> |r.value.1| < |s|
    decreases |s|, 1
  {
    match ParseValue(s)
    case None => None
    case Some((v, afterValue)) =>
      var t := SkipSpace(afterValue);
      if t == "" then None
      else if t[0] == ']' then Some(([v], t[1..]))
      else if t[0] != ',' then None
      else match ParseItems(SkipSpace(t[1..]))
        case None => None
        case Some((items, rest)) => Some(([v] + items, rest))
  }

  /** One or more members separated by commas, up to and including the closing brace. */
  function ParseMembers(s: string): (r: Option<(seq<Member>, string)>)
    ensures r.Some? ==> |r.value.1| < |s|
    decreases |s|, 1
  {
    if s == "" || s[0] != '"' then None
    else match ParseString(s[1..])
      case None => None
      case Some((name, afterName)) =>
        var t := SkipSpace(afterName);
        if t == "" || t[0] != ':' then None
        else match ParseValue(SkipSpace(t[1..]))
          case None => None
          case Some((v, afterValue)) =>
            var u := SkipSpace(afterValue);
            if u == "" then None
            else if u[0] == '}' then Some(([Member(name, v)], u[1..]))
            else if u[0] != ',' then None
            else match ParseMembers(SkipSpace(u[1..]))
              case None => None
              case Some((members, rest)) => Some(([Member(name, v)] + members, rest))
  }

  /** A whole JSON text: one value with nothing but whitespace around it. */
  function Parse(s: string): Option<Value> {
    match ParseValue(SkipSpace(s))
    case None => None
    case Some((v, rest)) => if SkipSpace(rest) == "" then Some(v) else None
  }
}
