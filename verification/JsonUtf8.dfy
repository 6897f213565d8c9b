/** When the written text is well-formed UTF-8, as section 8.1 of RFC 8259 asks of a JSON text. */
module JsonUtf8 {
  import opened Text
  import opened Json

  // ----- well-formed UTF-8: section 4 of RFC 3629 -----

  predicate IsAscii(c: char) {
    c as int < 0x80
  }

  /** The number of bytes that a leading byte announces; 0 when it cannot lead. */
  function LeadLength(c: char): (n: nat) {
    var b := c as int;
    if b < 0x80 then 1
    else if 0xC2 <= b <= 0xDF then 2
    else if 0xE0 <= b <= 0xEF then 3
    else if 0xF0 <= b <= 0xF4 then 4
    else 0
  }

  predicate IsTail(c: char) {
    0x80 <= c as int <= 0xBF
  }

  /** Some leading bytes narrow the range of the byte after them. */
  predicate SecondFits(lead: char, second: char) {
    && IsTail(second)
    && (lead as int == 0xE0 ==> second as int >= 0xA0)
    && (lead as int == 0xED ==> second as int <= 0x9F)
    && (lead as int == 0xF0 ==> second as int >= 0x90)
    && (lead as int == 0xF4 ==> second as int <= 0x8F)
  }

  predicate StartsCharacter(s: string)
    requires s != ""
  {
    var n := LeadLength(s[0]);
    1 <= n <= |s| && (n >= 2 ==> SecondFits(s[0], s[1])) && forall i | 2 <= i < n :: IsTail(s[i])
  }

  predicate WellFormedUtf8(s: string)
    decreases |s|
  {
    s == "" || (StartsCharacter(s) && WellFormedUtf8(s[LeadLength(s[0])..]))
  }

  predicate StartsAscii(s: string) {
    s == "" || IsAscii(s[0])
  }

  lemma AsciiStep(c: char, s: string)
    requires IsAscii(c)
    ensures WellFormedUtf8([c] + s) <==> WellFormedUtf8(s)
  {
    assert ([c] + s)[1..] == s;
  }

  lemma {:induction false} AsciiPrefix(a: string, s: string)
    requires forall i | 0 <= i < |a| :: IsAscii(a[i])
    ensures WellFormedUtf8(a + s) <==> WellFormedUtf8(s)
  {
    hide WellFormedUtf8;
    if a == "" {
      assert a + s == s;
    } else {
      assert a + s == [a[0]] + (a[1..] + s);
      AsciiStep(a[0], a[1..] + s);
      AsciiPrefix(a[1..], s);
    }
  }

  lemma AsciiText(a: string)
    requires forall i | 0 <= i < |a| :: IsAscii(a[i])
    ensures WellFormedUtf8(a)
  {
    AsciiPrefix(a, "");
    assert a + "" == a;
  }

  lemma StartsSame(a: string, b: string)
    requires a != "" && StartsAscii(b)
    ensures StartsCharacter(a + b) <==> StartsCharacter(a)
  {
    var s, n := a + b, LeadLength(a[0]);
    assert forall i | 0 <= i < |a| :: s[i] == a[i];
    assert |a| < n <= |s| ==> s[|a|] == b[0] && !IsTail(s[|a|]);
  }

  /** No character reaches across a place where an ASCII byte follows. */
  lemma {:induction false} SplitsBeforeAscii(a: string, b: string)
    requires StartsAscii(b)
    ensures WellFormedUtf8(a + b) <==> WellFormedUtf8(a) && WellFormedUtf8(b)
    decreases |a|
  {
    if a == "" {
      assert a + b == b;
    } else {
      StartsSame(a, b);
      var n := LeadLength(a[0]);
      if StartsCharacter(a) {
        assert (a + b)[n..] == a[n..] + b;
        SplitsBeforeAscii(a[n..], b);
      }
    }
  }

  // ----- escaping -----

  /** The length of the leading run of bytes that are not ASCII. */
  function HighRun(s: string): (n: nat)
    ensures n <= |s| && StartsAscii(s[n..])
    ensures forall i | 0 <= i < n :: !IsAscii(s[i])
  {
    if s == "" || IsAscii(s[0]) then 0
    else
      var n := 1 + HighRun(s[1..]);
      assert s[n..] == s[1..][n - 1..];
      n
  }

  lemma {:induction false} EscapeHigh(s: string)
    requires forall i | 0 <= i < |s| :: !IsAscii(s[i])
    ensures Escape(s) == s
  {
    if s != "" {
      EscapeHigh(s[1..]);
      assert [s[0]] + s[1..] == s;
    }
  }

  lemma EscapedAscii(c: char)
    requires IsAscii(c)
    ensures forall i | 0 <= i < |EscapeChar(c)| :: IsAscii(EscapeChar(c)[i])
  {
  }

  /** Escaping neither makes nor breaks well-formed UTF-8. */
  lemma {:induction false} EscapeUtf8(s: string)
    ensures WellFormedUtf8(Escape(s)) <==> WellFormedUtf8(s)
    decreases |s|
  {
    hide WellFormedUtf8;
    var n := HighRun(s);
    var high, low := s[..n], s[n..];
    assert s == high + low;
    EscapeAppend(high, low);
    EscapeHigh(high);
    if low == "" {
      assert s == high && Escape(low) == "" && high + "" == high;
    } else {
      EscapedAscii(low[0]);
      assert low == [low[0]] + low[1..];
      AsciiStep(low[0], low[1..]);
      AsciiPrefix(EscapeChar(low[0]), Escape(low[1..]));
      EscapeUtf8(low[1..]);
      SplitsBeforeAscii(high, low);
      SplitsBeforeAscii(high, Escape(low));
    }
  }

  // ----- whole texts -----

  predicate StringsWellFormed(v: Value) {
    match v
    case Str(text) => WellFormedUtf8(text)
    case Arr(items) => forall i | 0 <= i < |items| :: StringsWellFormed(items[i])
    case Obj(members) =>
      forall i | 0 <= i < |members| :: WellFormedUtf8(members[i].name) && StringsWellFormed(members[i].value)
    case _ => true
  }

  lemma Bracketed(open: char, s: string, close: char)
    requires IsAscii(open) && IsAscii(close)
    ensures WellFormedUtf8([open] + s + [close]) <==> WellFormedUtf8(s)
  {
    assert [open] + s + [close] == [open] + (s + [close]);
    AsciiStep(open, s + [close]);
    SplitsBeforeAscii(s, [close]);
    AsciiText([close]);
  }

  lemma NumberIsAscii(negative: bool, c: nat, e: int)
    ensures WellFormedUtf8(NumberText(negative, c, e))
  {
    hide WellFormedUtf8, Decimal, LastDigits, CutDigits;
    AsciiText(NumberText(negative, c, e));
  }

  /** Main result: the text of a value is well-formed UTF-8 exactly when all its strings and names are. */
  lemma {:induction false} TextUtf8Iff(v: Value)
    ensures WellFormedUtf8(TextOf(v)) <==> StringsWellFormed(v)
    decreases v, 1
  {
    hide WellFormedUtf8;
    match v
    case Null => AsciiText("null");
    case Bool(flag) => AsciiText(if flag then "true" else "false");
    case Num(negative, c, e) => NumberIsAscii(negative, c, e);
    case Str(text) =>
      EscapeUtf8(text);
      Bracketed('"', Escape(text), '"');
    case Arr(items) =>
      ItemsUtf8Iff(items, true);
      Bracketed('[', ItemsText(items, true), ']');
    case Obj(members) =>
      MembersUtf8Iff(members, true);
      Bracketed('{', MembersText(members, true), '}');
  }

  lemma {:induction false} ItemsUtf8Iff(items: seq<Value>, first: bool)
    ensures WellFormedUtf8(ItemsText(items, first)) <==> forall i | 0 <= i < |items| :: StringsWellFormed(items[i])
    decreases items, 0
  {
    hide WellFormedUtf8, TextOf, StringsWellFormed;
    if items == [] {
      AsciiText("");
    } else {
      var text, more := TextOf(items[0]), ItemsText(items[1..], false);
      TextUtf8Iff(items[0]);
      ItemsUtf8Iff(items[1..], false);
      assert Comma(first) + text + more == Comma(first) + (text + more);
      AsciiPrefix(Comma(first), text + more);
      SplitsBeforeAscii(text, more);
      assert forall i | 1 <= i < |items| :: items[i] == items[1..][i - 1];
      assert forall i | 0 <= i < |items[1..]| :: items[1..][i] == items[i + 1];
    }
  }

  lemma {:induction false} MembersUtf8Iff(members: seq<Member>, first: bool)
    ensures WellFormedUtf8(MembersText(members, first)) <==>
            forall i | 0 <= i < |members| ::
              WellFormedUtf8(members[i].name) && StringsWellFormed(members[i].value)
    decreases members, 0
  {
    hide WellFormedUtf8, TextOf, StringsWellFormed, Escape;
    if members == [] {
      NoMembersText(first);
      AsciiText("");
    } else {
      var m, more := members[0], MembersText(members[1..], false);
      var text := TextOf(m.value);
      TextUtf8Iff(m.value);
      MembersUtf8Iff(members[1..], false);
      EscapeUtf8(m.name);
      MembersTextCons(members, first);
      MemberUtf8(first, Escape(m.name), text, more);
      assert forall i | 1 <= i < |members| :: members[i] == members[1..][i - 1];
      assert forall i | 0 <= i < |members[1..]| :: members[1..][i] == members[i + 1];
    }
  }

  lemma MemberUtf8(first: bool, name: string, text: string, more: string)
    requires StartsAscii(more)
    ensures WellFormedUtf8(Comma(first) + ("\"" + name + "\":") + text + more) <==>
            WellFormedUtf8(name) && WellFormedUtf8(text) && WellFormedUtf8(more)
  {
    hide WellFormedUtf8;
    var tail := "\":" + (text + more);
    assert Comma(first) + ("\"" + name + "\":") + text + more == (Comma(first) + "\"") + (name + tail);
    AsciiPrefix(Comma(first) + "\"", name + tail);
    SplitsBeforeAscii(name, tail);
    AsciiPrefix("\":", text + more);
    SplitsBeforeAscii(text, more);
  }
}
