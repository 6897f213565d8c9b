/** JSON values and the one text the program writes for each of them. */
module Json {
  import opened Text

  /** A number is +-coefficient * 10^exponent; the sign is kept apart so that -0.000 is a value. */
  datatype Value =
    | Null
    | Bool(flag: bool)
    | Num(negative: bool, coefficient: nat, exponent: int)
    | Str(text: string)
    | Arr(items: seq<Value>)
    | Obj(members: seq<Member>)

  datatype Member = Member(name: string, value: Value)

  // ----- strings -----

  function HexChar(n: nat): (c: char)
    requires n < 16
  {
    if n < 10 then n as char + '0' else (n - 10) as char + 'a'
  }

  function EscapeChar(c: char): (s: string)
    ensures s != ""
    ensures forall i | 0 <= i < |s| :: s[i] >= ' '
  {
    match c
    case '"' => "\\\""
    case '\\' => "\\\\"
    case '\U{08}' => "\\b"
    case '\U{0C}' => "\\f"
    case '\n' => "\\n"
    case '\r' => "\\r"
    case '\t' => "\\t"
    case _ =>
      if c < ' ' then "\\u00" + [HexChar(c as int / 16), HexChar(c as int % 16)] else [c]
  }

  function Escape(s: string): (e: string)
    ensures forall i | 0 <= i < |e| :: e[i] >= ' '
  {
    if s == "" then "" else EscapeChar(s[0]) + Escape(s[1..])
  }

  lemma {:induction false} EscapeAppend(a: string, b: string)
    ensures Escape(a + b) == Escape(a) + Escape(b)
  {
    if a == "" {
      assert a + b == b;
    } else {
      assert (a + b)[1..] == a[1..] + b;
      EscapeAppend(a[1..], b);
    }
  }

  // ----- numbers -----

  /** n with its last k decimal digits cut off. */
  function CutDigits(n: nat, k: nat): nat
    decreases k
  {
    if k == 0 then n else CutDigits(n / 10, k - 1)
  }

  /** The last k decimal digits of n. */
  function LastDigits(n: nat, k: nat): (s: string)
    ensures |s| == k && AllDigits(s)
  {
    if k == 0 then "" else LastDigits(n / 10, k - 1) + [DigitChar(n % 10)]
  }

  lemma {:induction false} ValueOfSplitDigits(n: nat, k: nat)
    ensures ValueOf(Decimal(CutDigits(n, k)) + LastDigits(n, k)) == n
    decreases k
  {
    var digits := Decimal(CutDigits(n, k)) + LastDigits(n, k);
    if k == 0 {
      assert digits == Decimal(n);
      ValueOfDecimal(n);
    } else {
      ValueOfSplitDigits(n / 10, k - 1);
      assert digits[..|digits| - 1] == Decimal(CutDigits(n / 10, k - 1)) + LastDigits(n / 10, k - 1);
    }
  }

  function NumberText(negative: bool, coefficient: nat, exponent: int): (s: string)
    ensures s != ""
  {
    (if negative then "-" else "") +
    if exponent == 0 then Decimal(coefficient)
    else if exponent < 0 then
      Decimal(CutDigits(coefficient, -exponent)) + "." + LastDigits(coefficient, -exponent)
    else Decimal(coefficient) + "e" + Decimal(exponent)
  }

  // ----- values -----

  function TextOf(v: Value): string
    decreases v, 1
  {
    match v
    case Null => "null"
    case Bool(b) => if b then "true" else "false"
    case Num(negative, c, e) => NumberText(negative, c, e)
    case Str(s) => "\"" + Escape(s) + "\""
    case Arr(items) => "[" + ItemsText(items, true) + "]"
    case Obj(members) => "{" + MembersText(members, true) + "}"
  }

  function ItemsText(items: seq<Value>, first: bool): string
    decreases items, 0
  {
    if items == [] then ""
    else (if first then "" else ",") + TextOf(items[0]) + ItemsText(items[1..], false)
  }

  function NameText(name: string): string {
    "\"" + Escape(name) + "\":"
  }

  function MembersText(members: seq<Member>, first: bool): string
    decreases members, 0
  {
    if members == [] then ""
    else
      (if first then "" else ",") + NameText(members[0].name) + TextOf(members[0].value) +
      MembersText(members[1..], false)
  }

  function Comma(first: bool): string {
    if first then "" else ","
  }

  lemma Regroup(a: string, b: string, c: string, d: string)
    ensures a + (b + c + d) == a + b + c + d
  {
  }

  lemma {:induction false} ItemsTextAppend(items: seq<Value>, first: bool, v: Value)
    ensures ItemsText(items + [v], first) == ItemsText(items, first) + Comma(first && items == []) + TextOf(v)
  {
    if items == [] {
      assert items + [v] == [v];
      assert ItemsText([v][1..], false) == "";
    } else {
      var head := Comma(first) + TextOf(items[0]);
      assert (items + [v])[1..] == items[1..] + [v];
      assert ItemsText(items, first) == head + ItemsText(items[1..], false);
      assert ItemsText(items + [v], first) == head + ItemsText(items[1..] + [v], false);
      ItemsTextAppend(items[1..], false, v);
      hide ItemsText, TextOf;
      Regroup(head, ItemsText(items[1..], false), ",", TextOf(v));
    }
  }

  lemma RegroupMember(a: string, b: string, c: string, d: string, e: string)
    ensures a + (b + c + d + e) == a + b + c + d + e
  {
  }

  lemma MembersTextCons(members: seq<Member>, first: bool)
    requires members != []
    ensures MembersText(members, first) ==
            Comma(first) + NameText(members[0].name) + TextOf(members[0].value) + MembersText(members[1..], false)
  {
  }

  lemma NoMembersText(first: bool)
    ensures MembersText([], first) == ""
  {
  }

  lemma {:induction false} MembersTextAppend(members: seq<Member>, first: bool, m: Member)
    ensures MembersText(members + [m], first) ==
            MembersText(members, first) + Comma(first && members == []) + NameText(m.name) + TextOf(m.value)
  {
    hide MembersText, TextOf, NameText, Comma;
    MembersTextCons(members + [m], first);
    if members == [] {
      assert members + [m] == [m] && [m][1..] == [];
      NoMembersText(first);
      NoMembersText(false);
      EmptyParts(Comma(first), NameText(m.name), TextOf(m.value));
    } else {
      var head := Comma(first) + NameText(members[0].name) + TextOf(members[0].value);
      assert (members + [m])[1..] == members[1..] + [m];
      MembersTextCons(members, first);
      MembersTextAppend(members[1..], false, m);
      RegroupMember(head, MembersText(members[1..], false), Comma(false), NameText(m.name), TextOf(m.value));
    }
  }

  lemma EmptyParts(a: string, b: string, c: string)
    ensures a + b + c + "" == "" + a + b + c
  {
  }

  // ----- no control characters, hence one line -----

  ghost predicate Printable(s: string) {
    forall i | 0 <= i < |s| :: s[i] >= ' '
  }

  lemma PrintableJoin(a: string, b: string)
    requires Printable(a) && Printable(b)
    ensures Printable(a + b)
  {
  }

  lemma NumberPrintable(negative: bool, c: nat, e: int)
    ensures Printable(NumberText(negative, c, e))
  {
  }

  /** Written JSON holds no control character, so it never spans two lines. */
  lemma {:induction false} TextPrintable(v: Value)
    ensures Printable(TextOf(v))
    decreases v, 1
  {
    match v
    case Num(negative, c, e) => NumberPrintable(negative, c, e);
    case Arr(items) => ItemsPrintable(items, true);
    case Obj(members) => MembersPrintable(members, true);
    case _ =>
  }

  lemma {:induction false} ItemsPrintable(items: seq<Value>, first: bool)
    ensures Printable(ItemsText(items, first))
    decreases items, 0
  {
    if items != [] {
      TextPrintable(items[0]);
      ItemsPrintable(items[1..], false);
    }
  }

  lemma {:induction false} MembersPrintable(members: seq<Member>, first: bool)
    ensures Printable(MembersText(members, first))
    decreases members, 0
  {
    if members != [] {
      hide MembersText, TextOf;
      var m := members[0];
      TextPrintable(m.value);
      MembersPrintable(members[1..], false);
      var head := Comma(first) + NameText(m.name);
      MembersTextCons(members, first);
      PrintableJoin(head, TextOf(m.value));
      PrintableJoin(head + TextOf(m.value), MembersText(members[1..], false));
    }
  }

  lemma TextIsOneLine(v: Value)
    ensures NoNewline(TextOf(v))
  {
    TextPrintable(v);
  }

  // ----- no blanks between tokens -----

  predicate NoBlank(s: string) {
    ' ' !in s
  }

  predicate NoBlankStrings(v: Value) {
    match v
    case Str(text) => NoBlank(text)
    case Arr(items) => forall i | 0 <= i < |items| :: NoBlankStrings(items[i])
    case Obj(members) => forall i | 0 <= i < |members| :: NoBlank(members[i].name) && NoBlankStrings(members[i].value)
    case _ => true
  }

  lemma {:induction false} EscapeAddsNoBlank(s: string)
    ensures NoBlank(s) ==> NoBlank(Escape(s))
  {
    if s != "" {
      EscapeAddsNoBlank(s[1..]);
    }
  }

  lemma NumberHasNoBlank(negative: bool, c: nat, e: int)
    ensures NoBlank(NumberText(negative, c, e))
  {
    hide Decimal, CutDigits, LastDigits;
  }

  /** The writer puts no blank between tokens: without blanks in its strings a text has none. */
  lemma {:induction false} TextIsCompact(v: Value)
    requires NoBlankStrings(v)
    ensures NoBlank(TextOf(v))
    decreases v, 1
  {
    match v
    case Num(negative, c, e) => NumberHasNoBlank(negative, c, e);
    case Str(text) => EscapeAddsNoBlank(text);
    case Arr(items) => ItemsAreCompact(items, true);
    case Obj(members) => MembersAreCompact(members, true);
    case _ =>
  }

  lemma {:induction false} ItemsAreCompact(items: seq<Value>, first: bool)
    requires forall i | 0 <= i < |items| :: NoBlankStrings(items[i])
    ensures NoBlank(ItemsText(items, first))
    decreases items, 0
  {
    hide TextOf, NoBlankStrings;
    if items != [] {
      TextIsCompact(items[0]);
      ItemsAreCompact(items[1..], false);
    }
  }

  lemma {:induction false} MembersAreCompact(members: seq<Member>, first: bool)
    requires forall i | 0 <= i < |members| :: NoBlank(members[i].name) && NoBlankStrings(members[i].value)
    ensures NoBlank(MembersText(members, first))
    decreases members, 0
  {
    hide TextOf, NoBlankStrings, Escape;
    if members != [] {
      EscapeAddsNoBlank(members[0].name);
      TextIsCompact(members[0].value);
      MembersAreCompact(members[1..], false);
      MembersTextCons(members, first);
    }
  }
}
