/** The parser undoes the writer's text. */
module JsonRoundTrip {
  import opened Wrappers
  import opened Text
  import opened Sequences
  import opened Json
  import opened JsonParser

  /** What may follow a value: the end of the text or a closing or separating token. */
  ghost predicate Stops(rest: string) {
    rest == "" || rest[0] == ',' || rest[0] == ']' || rest[0] == '}'
  }

  lemma ParseEscapedChar(c: char, rest: string)
    ensures EscapeChar(c)[0] != '"'
    ensures ParseChar(EscapeChar(c) + rest) == Some(([c], |EscapeChar(c)|))
  {
    var s := EscapeChar(c) + rest;
    if c < ' ' && c !in "\U{08}\U{0C}\n\r\t" {
      assert s[..6] == EscapeChar(c);
      assert UnicodeEscape(s) == Some(c as nat);
    }
  }

  /** Quotation mark, reverse solidus and five control characters take two characters, other control characters
      six, and every other byte stands as it is. */
  lemma EscapeForms(c: char)
    ensures var short := c in "\"\\\U{08}\U{0C}\n\r\t";
            && |EscapeChar(c)| == (if short then 2 else if c < ' ' then 6 else 1)
            && (|EscapeChar(c)| == 1 ==> EscapeChar(c) == [c]) && (|EscapeChar(c)| > 1 ==> EscapeChar(c)[0] == '\\')
  {
  }

  /** Escaping changes a text exactly when it holds a control character, a quotation mark or a reverse solidus. */
  lemma {:induction false} EscapeKeepsIff(s: string)
    ensures |Escape(s)| >= |s|
    ensures Escape(s) == s <==> forall i | 0 <= i < |s| :: s[i] >= ' ' && s[i] != '"' && s[i] != '\\'
  {
    if s != "" {
      EscapeKeepsIff(s[1..]);
      EscapeForms(s[0]);
      hide EscapeChar;
      var first, rest := EscapeChar(s[0]), Escape(s[1..]);
      assert |first| == 1 <==> s[0] >= ' ' && s[0] != '"' && s[0] != '\\';
      assert |first| == 1 ==> (first + rest)[1..] == rest && s == [s[0]] + s[1..];
      assert forall i | 1 <= i < |s| :: s[i] == s[1..][i - 1];
    }
  }

  /** Unescaping undoes json_escape. */
  lemma {:induction false} ParseEscaped(text: string, rest: string)
    ensures ParseString(Escape(text) + "\"" + rest) == Some((text, rest))
  {
    var s := Escape(text) + "\"" + rest;
    if text == "" {
      assert s == "\"" + rest;
    } else {
      var first, more := EscapeChar(text[0]), Escape(text[1..]) + "\"" + rest;
      assert s == first + more;
      ParseEscapedChar(text[0], more);
      assert s[|first|..] == more;
      ParseEscaped(text[1..], rest);
      assert [text[0]] + text[1..] == text;
    }
  }

  lemma ParseTailFraction(fraction: string, rest: string)
    requires AllDigits(fraction) && fraction != "" && Stops(rest)
    ensures ParseFraction("." + (fraction + rest)) == Some((fraction, rest))
    ensures ParseExponent(rest) == Some((0, rest))
  {
    var tail := "." + (fraction + rest);
    assert tail[1..] == fraction + rest;
    DigitSpanOf(fraction, rest);
  }

  lemma ParseTailExponent(e: nat, rest: string)
    requires Stops(rest)
    ensures ParseFraction("e" + (Decimal(e) + rest)) == Some(("", "e" + (Decimal(e) + rest)))
    ensures ParseExponent("e" + (Decimal(e) + rest)) == Some((e, rest))
  {
    var tail := "e" + (Decimal(e) + rest);
    assert tail[1..] == Decimal(e) + rest;
    assert tail[1] == Decimal(e)[0];
    DigitSpanOf(Decimal(e), rest);
    ValueOfDecimal(e);
  }

  /** Whole digits, then whatever fraction and exponent the rest of the text holds. */
  lemma ParseWhole(whole: string, tail: string, fraction: string, afterFraction: string,
                   e: int, rest: string, negative: bool)
    requires whole != "" && AllDigits(whole) && (whole[0] == '0' ==> |whole| == 1)
    requires tail == "" || !IsDigit(tail[0])
    requires AllDigits(fraction) && ParseFraction(tail) == Some((fraction, afterFraction))
    requires ParseExponent(afterFraction) == Some((e, rest))
    ensures ParseUnsigned(whole + tail, negative) ==
            Some((Num(negative, ValueOf(whole + fraction), e - |fraction|), rest))
  {
    hide ParseFraction, ParseExponent, ValueOf, DigitSpan;
    DigitSpanOf(whole, tail);
    assert (whole + tail)[0] == whole[0];
  }

  lemma FractionText(c: nat, k: int)
    requires k > 0
    ensures NumberText(false, c, -k) == "" + (Decimal(CutDigits(c, k)) + "." + LastDigits(c, k))
  {
    hide Decimal, CutDigits, LastDigits;
  }

  /** Whole digits and fraction digits around a point. */
  lemma ParsePointed(negative: bool, whole: string, fraction: string, rest: string)
    requires whole != "" && AllDigits(whole) && (whole[0] == '0' ==> |whole| == 1)
    requires AllDigits(fraction) && fraction != "" && Stops(rest)
    ensures ParseUnsigned(whole + ("." + (fraction + rest)), negative) ==
            Some((Num(negative, ValueOf(whole + fraction), 0 - |fraction|), rest))
  {
    var tail := "." + (fraction + rest);
    ParseTailFraction(fraction, rest);
    assert !IsDigit(tail[0]);
    hide ParseUnsigned, ParseFraction, ParseExponent, Stops, ValueOf, AllDigits, IsDigit;
    ParseWhole(whole, tail, fraction, rest, 0, rest, negative);
  }

  lemma ParseFractionText(negative: bool, c: nat, k: int, rest: string)
    requires k > 0 && Stops(rest)
    ensures ParseUnsigned(NumberText(false, c, -k) + rest, negative) == Some((Num(negative, c, -k), rest))
  {
    var whole, fraction := Decimal(CutDigits(c, k)), LastDigits(c, k);
    FractionText(c, k);
    ValueOfSplitDigits(c, k);
    hide NumberText, Decimal, CutDigits, LastDigits, ParseUnsigned, Stops, ValueOf;
    ParsePointed(negative, whole, fraction, rest);
    RegroupNumber(whole, ".", fraction, rest);
  }

  lemma ExponentText(c: nat, e: nat)
    requires e > 0
    ensures NumberText(false, c, e) == "" + (Decimal(c) + "e" + Decimal(e))
  {
    hide Decimal;
  }

  /** Whole digits without a fraction. */
  lemma ParseCoefficient(negative: bool, c: nat, tail: string, e: int, rest: string)
    requires (tail == "" || !IsDigit(tail[0])) && ParseFraction(tail) == Some(("", tail))
    requires ParseExponent(tail) == Some((e, rest))
    ensures ParseUnsigned(Decimal(c) + tail, negative) == Some((Num(negative, c, e), rest))
  {
    WholeValue(c);
    hide Decimal, ParseUnsigned, ParseFraction, ParseExponent, ValueOf, IsDigit;
    ParseWhole(Decimal(c), tail, "", tail, e, rest, negative);
  }

  lemma ParseExponentText(negative: bool, c: nat, e: nat, rest: string)
    requires e > 0 && Stops(rest)
    ensures ParseUnsigned(NumberText(false, c, e) + rest, negative) == Some((Num(negative, c, e), rest))
  {
    var tail := "e" + (Decimal(e) + rest);
    ExponentText(c, e);
    ParseTailExponent(e, rest);
    assert tail[0] == 'e';
    hide NumberText, Decimal, ParseUnsigned, ParseFraction, ParseExponent, Stops;
    ParseCoefficient(negative, c, tail, e, rest);
    RegroupNumber(Decimal(c), "e", Decimal(e), rest);
  }

  lemma ParsePlainText(negative: bool, c: nat, rest: string)
    requires Stops(rest)
    ensures ParseUnsigned(NumberText(false, c, 0) + rest, negative) == Some((Num(negative, c, 0), rest))
  {
    assert NumberText(false, c, 0) == Decimal(c);
    assert ParseFraction(rest) == Some(("", rest)) && ParseExponent(rest) == Some((0, rest));
    hide NumberText, Decimal, ParseUnsigned, ParseFraction, ParseExponent;
    ParseCoefficient(negative, c, rest, 0, rest);
  }

  lemma ParseUnsignedText(negative: bool, c: nat, e: int, rest: string)
    requires Stops(rest)
    ensures ParseUnsigned(NumberText(false, c, e) + rest, negative) == Some((Num(negative, c, e), rest))
  {
    hide NumberText, ParseUnsigned, Stops;
    if e < 0 {
      ParseFractionText(negative, c, -e, rest);
    } else if e > 0 {
      ParseExponentText(negative, c, e, rest);
    } else {
      ParsePlainText(negative, c, rest);
    }
  }

  lemma RegroupNumber(a: string, b: string, c: string, d: string)
    ensures ("" + (a + b + c)) + d == a + (b + (c + d))
  {
  }

  lemma WholeValue(c: nat)
    ensures ValueOf(Decimal(c) + "") == c
  {
    assert Decimal(c) + "" == Decimal(c);
    ValueOfDecimal(c);
  }

  lemma NumberSign(c: nat, e: int)
    ensures NumberText(true, c, e) == "-" + NumberText(false, c, e)
  {
    assert "" + Decimal(c) == Decimal(c);
  }

  lemma ParseSign(unsigned: string, rest: string)
    requires unsigned != "" && IsDigit(unsigned[0])
    ensures ParseNumber("-" + unsigned + rest) == ParseUnsigned(unsigned + rest, true)
    ensures ParseNumber(unsigned + rest) == ParseUnsigned(unsigned + rest, false)
  {
    hide ParseUnsigned;
    assert ("-" + unsigned + rest)[1..] == unsigned + rest;
    assert (unsigned + rest)[0] == unsigned[0];
  }

  lemma ParseNumberText(negative: bool, c: nat, e: int, rest: string)
    requires Stops(rest)
    ensures ParseNumber(NumberText(negative, c, e) + rest) == Some((Num(negative, c, e), rest))
  {
    hide NumberText, ParseUnsigned, ParseNumber;
    ParseUnsignedText(negative, c, e, rest);
    FirstOfUnsigned(c, e);
    NumberSign(c, e);
    ParseSign(NumberText(false, c, e), rest);
  }

  lemma FirstOfUnsigned(c: nat, e: int)
    ensures IsDigit(NumberText(false, c, e)[0])
  {
  }

  lemma FirstOfNumber(negative: bool, c: nat, e: int)
    ensures IsDigit(NumberText(negative, c, e)[0]) || NumberText(negative, c, e)[0] == '-'
  {
  }

  /** A written value starts with neither whitespace nor a closing or separating token. */
  lemma FirstOfText(v: Value)
    ensures TextOf(v) != "" && !IsJsonSpace(TextOf(v)[0])
    ensures TextOf(v)[0] != ']' && TextOf(v)[0] != '}' && TextOf(v)[0] != ','
  {
    if v.Num? {
      FirstOfNumber(v.negative, v.coefficient, v.exponent);
    }
  }

  // ----- one step of each list parser -----

  lemma LastItem(s: string, v: Value, rest: string)
    requires ParseValue(s) == Some((v, "]" + rest))
    ensures ParseItems(s) == Some(([v], rest))
  {
    assert ("]" + rest)[1..] == rest;
  }

  lemma AnotherItem(s: string, v: Value, more: string, items: seq<Value>, rest: string)
    requires ParseValue(s) == Some((v, "," + more))
    requires more != "" && !IsJsonSpace(more[0])
    requires ParseItems(more) == Some((items, rest))
    ensures ParseItems(s) == Some(([v] + items, rest))
  {
    assert ("," + more)[1..] == more;
  }

  lemma LastMember(name: string, text: string, v: Value, rest: string)
    requires text != "" && !IsJsonSpace(text[0])
    requires ParseValue(text) == Some((v, "}" + rest))
    ensures ParseMembers("\"" + (Escape(name) + "\"" + (":" + text))) == Some(([Member(name, v)], rest))
  {
    hide Escape, ParseString, ParseValue;
    ReadName(name, text);
    assert ("}" + rest)[1..] == rest;
  }

  lemma AnotherMember(name: string, text: string, v: Value, more: string, members: seq<Member>, rest: string)
    requires text != "" && !IsJsonSpace(text[0])
    requires ParseValue(text) == Some((v, "," + more))
    requires more != "" && !IsJsonSpace(more[0])
    requires ParseMembers(more) == Some((members, rest))
    ensures ParseMembers("\"" + (Escape(name) + "\"" + (":" + text))) == Some(([Member(name, v)] + members, rest))
  {
    hide Escape, ParseString, ParseValue;
    ReadName(name, text);
    assert ("," + more)[1..] == more;
  }

  lemma ReadName(name: string, text: string)
    ensures var s := "\"" + (Escape(name) + "\"" + (":" + text));
            s[0] == '"' && ParseString(s[1..]) == Some((name, ":" + text)) && (":" + text)[1..] == text
  {
    var s := "\"" + (Escape(name) + "\"" + (":" + text));
    assert s[1..] == Escape(name) + "\"" + (":" + text);
    ParseEscaped(name, ":" + text);
  }

  lemma OpenArray(inner: string, items: seq<Value>, rest: string)
    requires inner != "" && !IsJsonSpace(inner[0]) && inner[0] != ']'
    requires ParseItems(inner) == Some((items, rest))
    ensures ParseValue("[" + inner) == Some((Arr(items), rest))
  {
    hide ParseMembers, ParseItems, ParseString, ParseNumber;
    assert ("[" + inner)[1..] == inner;
  }

  lemma OpenObject(inner: string, members: seq<Member>, rest: string)
    requires inner != "" && !IsJsonSpace(inner[0]) && inner[0] != '}'
    requires ParseMembers(inner) == Some((members, rest))
    ensures ParseValue("{" + inner) == Some((Obj(members), rest))
  {
    hide ParseMembers, ParseItems, ParseString, ParseNumber;
    assert ("{" + inner)[1..] == inner;
  }

  lemma EmptyContainers(rest: string)
    ensures ParseValue("[]" + rest) == Some((Arr([]), rest))
    ensures ParseValue("{}" + rest) == Some((Obj([]), rest))
  {
    assert ("[]" + rest)[1..] == "]" + rest && ("{}" + rest)[1..] == "}" + rest;
    assert ("]" + rest)[1..] == rest && ("}" + rest)[1..] == rest;
  }

  lemma ParseLiteral(v: Value, rest: string)
    requires v.Null? || v.Bool?
    ensures ParseValue(TextOf(v) + rest) == Some((v, rest))
  {
    var text := TextOf(v);
    var s := text + rest;
    assert s[..|text|] == text && s[|text|..] == rest;
    assert s[0] == text[0];
    assert StartsWith(s, text);
  }

  lemma ParseStr(text: string, rest: string)
    ensures ParseValue(TextOf(Str(text)) + rest) == Some((Str(text), rest))
  {
    var s := TextOf(Str(text)) + rest;
    assert s[1..] == Escape(text) + "\"" + rest;
    ParseEscaped(text, rest);
  }

  lemma ParseNum(negative: bool, c: nat, e: int, rest: string)
    requires Stops(rest)
    ensures ParseValue(TextOf(Num(negative, c, e)) + rest) == Some((Num(negative, c, e), rest))
  {
    var s := NumberText(negative, c, e) + rest;
    FirstOfNumber(negative, c, e);
    hide NumberText, ParseNumber;
    assert s[0] == NumberText(negative, c, e)[0];
    ParseNumberText(negative, c, e, rest);
  }

  // ----- one step of each list's text -----

  lemma Regroup(x: string, t: string, end: string)
    ensures ("" + x) + ("," + t) + end == x + ("," + (t + end))
  {
  }

  lemma RegroupMember(n: string, x: string, t: string, end: string)
    ensures ("" + ("\"" + n + "\":") + x) + t + end == "\"" + (n + "\"" + (":" + (x + (t + end))))
  {
  }

  lemma CommaItems(items: seq<Value>)
    requires items != []
    ensures ItemsText(items, false) == "," + ItemsText(items, true)
  {
    var x, y := TextOf(items[0]), ItemsText(items[1..], false);
    Associate(",", x, y);
    assert "" + x == x;
  }

  lemma CommaMembers(members: seq<Member>)
    requires members != []
    ensures MembersText(members, false) == "," + MembersText(members, true)
  {
    var n, x, y := NameText(members[0].name), TextOf(members[0].value), MembersText(members[1..], false);
    Associate(",", n, x);
    Associate(",", n + x, y);
    assert "" + n == n;
  }

  lemma ItemsTextStep(items: seq<Value>, end: string)
    requires |items| > 1
    ensures ItemsText(items, true) + end == TextOf(items[0]) + ("," + (ItemsText(items[1..], true) + end))
  {
    CommaItems(items[1..]);
    Regroup(TextOf(items[0]), ItemsText(items[1..], true), end);
  }

  lemma ItemsTextLast(v: Value, end: string)
    ensures ItemsText([v], true) + end == TextOf(v) + end
  {
    assert ItemsText([v][1..], false) == "";
    assert "" + TextOf(v) + "" == TextOf(v);
  }

  lemma MembersTextStep(members: seq<Member>, end: string)
    requires members != []
    ensures var m := members[0];
            MembersText(members, true) + end ==
            "\"" + (Escape(m.name) + "\"" + (":" + (TextOf(m.value) + (MembersText(members[1..], false) + end))))
  {
    var m := members[0];
    RegroupMember(Escape(m.name), TextOf(m.value), MembersText(members[1..], false), end);
  }

  // ----- all values -----

  lemma {:induction false} ParseText(v: Value, rest: string)
    requires Stops(rest)
    ensures ParseValue(TextOf(v) + rest) == Some((v, rest))
    decreases v, 2
  {
    match v
    case Num(negative, c, e) => ParseNum(negative, c, e, rest);
    case Str(text) => ParseStr(text, rest);
    case Arr(items) => ParseArr(items, rest);
    case Obj(members) => ParseObj(members, rest);
    case _ => ParseLiteral(v, rest);
  }

  lemma {:induction false} ParseArr(items: seq<Value>, rest: string)
    ensures ParseValue(TextOf(Arr(items)) + rest) == Some((Arr(items), rest))
    decreases items, 2
  {
    if items == [] {
      EmptyContainers(rest);
      assert TextOf(Arr(items)) == "[]";
    } else {
      var text := ItemsText(items, true);
      ParseItemsText(items, rest);
      FirstOfItems(items, "]" + rest);
      OpenArray(text + ("]" + rest), items, rest);
      Associate("[" + text, "]", rest);
      Associate("[", text, "]" + rest);
    }
  }

  lemma FirstOfItems(items: seq<Value>, end: string)
    requires items != []
    ensures var s := ItemsText(items, true) + end; s != "" && !IsJsonSpace(s[0]) && s[0] != ']'
  {
    FirstOfText(items[0]);
    assert (ItemsText(items, true) + end)[0] == TextOf(items[0])[0];
  }

  lemma {:induction false} ParseObj(members: seq<Member>, rest: string)
    ensures ParseValue(TextOf(Obj(members)) + rest) == Some((Obj(members), rest))
    decreases members, 2
  {
    if members == [] {
      EmptyContainers(rest);
      assert TextOf(Obj(members)) == "{}";
    } else {
      var text := MembersText(members, true);
      ParseMembersText(members, rest);
      MembersTextStep(members, "}" + rest);
      OpenObject(text + ("}" + rest), members, rest);
      Associate("{" + text, "}", rest);
      Associate("{", text, "}" + rest);
    }
  }

  lemma {:induction false} ParseItemsText(items: seq<Value>, rest: string)
    requires items != []
    ensures ParseItems(ItemsText(items, true) + ("]" + rest)) == Some((items, rest))
    decreases items, 1
  {
    var s := ItemsText(items, true) + ("]" + rest);
    if |items| == 1 {
      ParseText(items[0], "]" + rest);
      ItemsTextLast(items[0], "]" + rest);
      assert items == [items[0]];
      LastItem(s, items[0], rest);
    } else {
      var more := ItemsText(items[1..], true) + ("]" + rest);
      ParseText(items[0], "," + more);
      ItemsTextStep(items, "]" + rest);
      FirstOfItems(items[1..], "]" + rest);
      ParseItemsText(items[1..], rest);
      AnotherItem(s, items[0], more, items[1..], rest);
      assert items == [items[0]] + items[1..];
    }
  }

  lemma FirstOfValue(v: Value, end: string)
    ensures var s := TextOf(v) + end; s != "" && !IsJsonSpace(s[0])
  {
    FirstOfText(v);
    assert (TextOf(v) + end)[0] == TextOf(v)[0];
  }

  lemma {:induction false} ParseMembersText(members: seq<Member>, rest: string)
    requires members != []
    ensures ParseMembers(MembersText(members, true) + ("}" + rest)) == Some((members, rest))
    decreases members, 1
  {
    var m := members[0];
    MembersTextStep(members, "}" + rest);
    if |members| == 1 {
      assert MembersText(members[1..], false) + ("}" + rest) == "}" + rest;
      var text := TextOf(m.value) + ("}" + rest);
      ParseText(m.value, "}" + rest);
      FirstOfValue(m.value, "}" + rest);
      LastMember(m.name, text, m.value, rest);
      assert members == [m];
    } else {
      var more := MembersText(members[1..], true) + ("}" + rest);
      var text := TextOf(m.value) + ("," + more);
      CommaMembers(members[1..]);
      Associate(",", MembersText(members[1..], true), "}" + rest);
      ParseText(m.value, "," + more);
      FirstOfValue(m.value, "," + more);
      MembersTextStep(members[1..], "}" + rest);
      ParseMembersText(members[1..], rest);
      AnotherMember(m.name, text, m.value, more, members[1..], rest);
      assert members == [m] + members[1..];
    }
  }

  /** Main result: every JSON value of any depth is read back from its text, with nothing left over. */
  lemma ParseTextOf(v: Value)
    ensures Parse(TextOf(v)) == Some(v)
  {
    FirstOfText(v);
    ParseText(v, "");
    assert TextOf(v) + "" == TextOf(v);
  }

  /** Hence two values with the same text are the same value. */
  lemma TextInjective(v: Value, w: Value)
    requires TextOf(v) == TextOf(w)
    ensures v == w
  {
    ParseTextOf(v);
    ParseTextOf(w);
  }
}
