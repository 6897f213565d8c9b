/**
 The program's JSON writer: an output buffer, a stack of "nothing written yet" flags and a flag
 for a member name that still waits for its value.  Its meaning is a partly written value.
 */
module JsonWriting {
  import opened Wrappers
  import opened Text
  import opened Json
  import opened Numbers

  // ----- partly written values -----

  /** A JSON text under construction: the open containers, innermost first, and what they hold so far. */
  datatype Context =
    | Start
    | Finished(value: Value)
    | InArray(items: seq<Value>, below: Context)
    | InObject(members: seq<Member>, below: Context)
    | AfterKey(members: seq<Member>, name: string, below: Context)

  predicate TakesValue(c: Context) {
    c.Start? || c.InArray? || c.AfterKey?
  }

  predicate WellFormed(c: Context) {
    match c
    case Start => true
    case Finished(_) => true
    case InArray(_, below) => TakesValue(below) && WellFormed(below)
    case InObject(_, below) => TakesValue(below) && WellFormed(below)
    case AfterKey(_, _, below) => TakesValue(below) && WellFormed(below)
  }

  /** Adds one complete value at the open place. */
  function Attach(c: Context, v: Value): (d: Context)
    requires TakesValue(c) && WellFormed(c)
    ensures WellFormed(d)
  {
    match c
    case Start => Finished(v)
    case InArray(items, below) => InArray(items + [v], below)
    case AfterKey(members, name, below) => InObject(members + [Member(name, v)], below)
  }

  /** The text written so far. */
  function Rendered(c: Context): string
    decreases c, 0
  {
    match c
    case Start => ""
    case Finished(v) => TextOf(v)
    case InArray(items, below) => Opened(below) + "[" + ItemsText(items, true)
    case InObject(members, below) => Opened(below) + "{" + MembersText(members, true)
    case AfterKey(members, name, below) =>
      Opened(below) + "{" + MembersText(members, true) + Comma(members == []) + NameText(name)
  }

  /** The text up to the place where a value goes, with the comma it needs. */
  function Opened(c: Context): string
    decreases c, 1
  {
    Rendered(c) + Comma(!(c.InArray? && c.items != []))
  }

  /** The flags of the containers below an open one: each already holds something. */
  function FlagsBelow(c: Context): seq<bool> {
    match c
    case Start => []
    case Finished(_) => []
    case InArray(_, below) => FlagsBelow(below) + [false]
    case InObject(_, below) => FlagsBelow(below) + [false]
    case AfterKey(_, _, below) => FlagsBelow(below) + [false]
  }

  function Flags(c: Context): seq<bool> {
    match c
    case InArray(items, below) => FlagsBelow(below) + [items == []]
    case InObject(members, below) => FlagsBelow(below) + [members == []]
    case _ => FlagsBelow(c)
  }

  // ----- calls -----

  datatype Call =
    | BeginObject | EndObject | BeginArray | EndArray
    | Key(name: string)
    | Scalar(value: Value)

  predicate IsScalar(v: Value) {
    !v.Arr? && !v.Obj?
  }

  /** Where a call leads, if it is allowed. */
  function Next(c: Context, call: Call): (d: Option<Context>)
    requires WellFormed(c)
    ensures d.Some? ==> WellFormed(d.value)
  {
    match call
    case BeginObject => if TakesValue(c) then Some(InObject([], c)) else None
    case BeginArray => if TakesValue(c) then Some(InArray([], c)) else None
    case EndObject => if c.InObject? then Some(Attach(c.below, Obj(c.members))) else None
    case EndArray => if c.InArray? then Some(Attach(c.below, Arr(c.items))) else None
    case Key(name) => if c.InObject? then Some(AfterKey(c.members, name, c.below)) else None
    case Scalar(v) => if TakesValue(c) && IsScalar(v) then Some(Attach(c, v)) else None
  }

  function Play(c: Context, calls: seq<Call>): (d: Option<Context>)
    requires WellFormed(c)
    ensures d.Some? ==> WellFormed(d.value)
    decreases |calls|
  {
    if calls == [] then Some(c)
    else match Next(c, calls[0])
      case None => None
      case Some(d) => Play(d, calls[1..])
  }

  /** The calls that write one value tree. */
  function Calls(v: Value): seq<Call>
    decreases v, 1
  {
    match v
    case Arr(items) => [BeginArray] + ItemsCalls(items) + [EndArray]
    case Obj(members) => [BeginObject] + MembersCalls(members) + [EndObject]
    case _ => [Scalar(v)]
  }

  function ItemsCalls(items: seq<Value>): seq<Call>
    decreases items, 0
  {
    if items == [] then [] else Calls(items[0]) + ItemsCalls(items[1..])
  }

  function MembersCalls(members: seq<Member>): seq<Call>
    decreases members, 0
  {
    if members == [] then [] else MemberCalls(members[0]) + MembersCalls(members[1..])
  }

  function MemberCalls(m: Member): seq<Call>
    decreases m, 2
  {
    [Key(m.name)] + Calls(m.value)
  }

  lemma {:induction false} PlayAppend(c: Context, a: seq<Call>, b: seq<Call>)
    requires WellFormed(c)
    ensures Play(c, a + b) == match Play(c, a) case None => None case Some(d) => Play(d, b)
    decreases |a|
  {
    if a == [] {
      assert a + b == b;
    } else {
      assert (a + b)[1..] == a[1..] + b;
      if Next(c, a[0]).Some? {
        PlayAppend(Next(c, a[0]).value, a[1..], b);
      }
    }
  }


  lemma PlayOne(c: Context, call: Call)
    requires WellFormed(c)
    ensures Play(c, [call]) == Next(c, call)
  {
    if Next(c, call).Some? {
      assert Play(Next(c, call).value, [call][1..]) == Next(c, call);
    }
  }

  /** Main result: in any legal state that takes a value, the calls of a tree add exactly that value. */
  lemma {:induction false} CallsAttachValue(c: Context, v: Value)
    requires WellFormed(c) && TakesValue(c)
    ensures Play(c, Calls(v)) == Some(Attach(c, v))
    decreases v, 1
  {
    match v
    case Arr(items) =>
      var inside := InArray([], c);
      PlayOne(c, BeginArray);
      ItemsCallsAttach([], items, c);
      assert [] + items == items;
      PlayOne(InArray(items, c), EndArray);
      PlayAppend(inside, ItemsCalls(items), [EndArray]);
      PlayAppend(c, [BeginArray], ItemsCalls(items) + [EndArray]);
      assert Calls(v) == [BeginArray] + (ItemsCalls(items) + [EndArray]);
    case Obj(members) =>
      var inside := InObject([], c);
      PlayOne(c, BeginObject);
      MembersCallsAttach([], members, c);
      assert [] + members == members;
      PlayOne(InObject(members, c), EndObject);
      PlayAppend(inside, MembersCalls(members), [EndObject]);
      PlayAppend(c, [BeginObject], MembersCalls(members) + [EndObject]);
      assert Calls(v) == [BeginObject] + (MembersCalls(members) + [EndObject]);
    case _ =>
      PlayOne(c, Scalar(v));
  }

  lemma {:induction false} ItemsCallsAttach(before: seq<Value>, items: seq<Value>, below: Context)
    requires WellFormed(below) && TakesValue(below)
    ensures Play(InArray(before, below), ItemsCalls(items)) == Some(InArray(before + items, below))
    decreases items, 0
  {
    if items == [] {
      assert before + items == before;
    } else {
      CallsAttachValue(InArray(before, below), items[0]);
      PlayAppend(InArray(before, below), Calls(items[0]), ItemsCalls(items[1..]));
      ItemsCallsAttach(before + [items[0]], items[1..], below);
      assert before + [items[0]] + items[1..] == before + items;
    }
  }

  lemma {:induction false} MembersCallsAttach(before: seq<Member>, members: seq<Member>, below: Context)
    requires WellFormed(below) && TakesValue(below)
    ensures Play(InObject(before, below), MembersCalls(members)) == Some(InObject(before + members, below))
    decreases members, 0
  {
    if members == [] {
      assert before + members == before;
    } else {
      var m := members[0];
      MemberCallsAttach(before, m, below);
      PlayAppend(InObject(before, below), MemberCalls(m), MembersCalls(members[1..]));
      MembersCallsAttach(before + [m], members[1..], below);
      assert before + [m] + members[1..] == before + members;
    }
  }

  lemma {:induction false} MemberCallsAttach(before: seq<Member>, m: Member, below: Context)
    requires WellFormed(below) && TakesValue(below)
    ensures Play(InObject(before, below), MemberCalls(m)) == Some(InObject(before + [m], below))
    decreases m, 2
  {
    var c, named := InObject(before, below), AfterKey(before, m.name, below);
    PlayOne(c, Key(m.name));
    CallsAttachValue(named, m.value);
    PlayAppend(c, [Key(m.name)], Calls(m.value));
  }

  // ----- the text of a step -----

  /** Attaching a value extends the text by its separator and its text, and by nothing else. */
  lemma RenderAttach(c: Context, v: Value)
    requires WellFormed(c) && TakesValue(c)
    ensures Rendered(Attach(c, v)) == Opened(c) + TextOf(v)
    ensures Flags(Attach(c, v)) == FlagsBelow(c)
  {
    match c
    case Start =>
    case InArray(items, below) =>
      ItemsTextAppend(items, true, v);
      var o, t := Opened(below) + "[", ItemsText(items, true);
      Regroup(o, t, Comma(items == []), TextOf(v));
    case AfterKey(members, name, below) =>
      MembersTextAppend(members, true, Member(name, v));
      var o, t := Opened(below) + "{", MembersText(members, true);
      RegroupMember(o, t, Comma(members == []), NameText(name), TextOf(v));
  }

  lemma Regroup(o: string, t: string, comma: string, x: string)
    ensures o + (t + comma + x) == o + t + comma + x
  {
  }

  lemma RegroupMember(o: string, t: string, comma: string, n: string, x: string)
    ensures o + (t + comma + n + x) == o + t + comma + n + "" + x
  {
  }

  /** Closing a container completes its text. */
  lemma RenderClose(c: Context)
    requires WellFormed(c) && (c.InArray? || c.InObject?)
    ensures c.InArray? ==> Rendered(Attach(c.below, Arr(c.items))) == Rendered(c) + "]"
    ensures c.InArray? ==> Flags(Attach(c.below, Arr(c.items))) == FlagsBelow(c.below)
    ensures c.InObject? ==> Rendered(Attach(c.below, Obj(c.members))) == Rendered(c) + "}"
    ensures c.InObject? ==> Flags(Attach(c.below, Obj(c.members))) == FlagsBelow(c.below)
  {
    if c.InArray? {
      RenderAttach(c.below, Arr(c.items));
      RegroupClose(Opened(c.below), "[", ItemsText(c.items, true), "]");
    } else {
      RenderAttach(c.below, Obj(c.members));
      RegroupClose(Opened(c.below), "{", MembersText(c.members, true), "}");
    }
  }

  lemma RegroupClose(o: string, open: string, t: string, close: string)
    ensures o + (open + t + close) == o + open + t + close
  {
  }

  /** Hence the calls of a tree append exactly its separator and its text, and restore the bracket stack. */
  lemma CallsAppendText(c: Context, v: Value)
    requires WellFormed(c) && TakesValue(c)
    ensures var d := Play(c, Calls(v));
            && d.Some? && Rendered(d.value) == Opened(c) + TextOf(v)
            && |Flags(d.value)| == |FlagsBelow(c)|
            && (forall i | 0 <= i < |Flags(d.value)| :: !Flags(d.value)[i])
  {
    hide Calls, Play, Rendered, Flags;
    CallsAttachValue(c, v);
    RenderAttach(c, v);
    FlagsBelowAreFalse(c);
  }

  lemma {:induction false} FlagsBelowAreFalse(c: Context)
    ensures forall i | 0 <= i < |FlagsBelow(c)| :: !FlagsBelow(c)[i]
  {
    match c
    case InArray(_, below) => FlagsBelowAreFalse(below);
    case InObject(_, below) => FlagsBelowAreFalse(below);
    case AfterKey(_, _, below) => FlagsBelowAreFalse(below);
    case _ =>
  }

  // ----- the values the program writes -----

  function UIntOf(n: nat): Value {
    Num(false, n, 0)
  }

  function IntOf(i: int): Value {
    Num(i < 0, if i < 0 then -i else i, 0)
  }

  /** A double is written with three decimals; a non-finite one as 0.000. */
  function DoubleOf(d: Double): Value {
    match d
    case Finite(negative, m) => Num(negative, RoundHalfEven(m * 1000.0), -3)
    case _ => Num(false, 0, -3)
  }

  /** The written number is within half a thousandth of a finite double. */
  lemma DoubleOfIsClose(d: Double)
    requires d.Finite?
    ensures var v := DoubleOf(d);
            v.negative == d.negative && v.exponent == -3 &&
            -0.0005 <= v.coefficient as real / 1000.0 - d.magnitude <= 0.0005
  {
    var n := RoundHalfEven(d.magnitude * 1000.0);
    assert -0.5 <= n as real - d.magnitude * 1000.0 <= 0.5;
  }

  method JsonEscape(value: string) returns (out: string)
    ensures out == Escape(value)
  {
    out := "";
    var i := 0;
    while i < |value|
      invariant 0 <= i <= |value|
      invariant out == Escape(value[..i])
    {
      EscapeAppend(value[..i], [value[i]]);
      assert value[..i + 1] == value[..i] + [value[i]];
      assert Escape([value[i]][1..]) == "";
      out := out + EscapeChar(value[i]);
      i := i + 1;
    }
    assert value[..|value|] == value;
  }

  class JsonWriter {
    var out: string
    var firstStack: seq<bool>
    var expectingValue: bool
    ghost var context: Context

    ghost predicate Valid()
      reads this
    {
      && WellFormed(context)
      && out == Rendered(context)
      && firstStack == Flags(context)
      && expectingValue == context.AfterKey?
    }

    constructor ()
      ensures Valid() && context == Start
    {
      out, firstStack, expectingValue := "", [], false;
      context := Start;
    }

    method MemberPrefix()
      modifies this`out, this`firstStack
      ensures firstStack == if old(firstStack) == [] then [] else old(firstStack)[|old(firstStack)| - 1 := false]
      ensures out == old(out) + if old(firstStack) == [] then "" else Comma(old(firstStack)[|old(firstStack)| - 1])
    {
      if firstStack != [] {
        if !firstStack[|firstStack| - 1] {
          out := out + ",";
        }
        firstStack := firstStack[|firstStack| - 1 := false];
      }
    }

    /** Writes the separator a value needs and marks the container below as non-empty. */
    method ValuePrefix()
      requires Valid() && TakesValue(context)
      modifies this`out, this`firstStack, this`expectingValue
      ensures out == Opened(context) && firstStack == FlagsBelow(context) && !expectingValue
    {
      if expectingValue {
        expectingValue := false;
        return;
      }
      if firstStack != [] {
        if !firstStack[|firstStack| - 1] {
          out := out + ",";
        }
        firstStack := firstStack[|firstStack| - 1 := false];
      }
    }

    method BeginObject()
      requires Valid() && TakesValue(context)
      modifies this
      ensures Valid() && Some(context) == Next(old(context), Call.BeginObject)
    {
      ValuePrefix();
      out := out + "{";
      firstStack := firstStack + [true];
      context := InObject([], context);
      assert Opened(context.below) + "{" + "" == Opened(context.below) + "{";
    }

    method EndObject()
      requires Valid() && context.InObject?
      modifies this
      ensures Valid() && Some(context) == Next(old(context), Call.EndObject)
    {
      RenderClose(context);
      out := out + "}";
      firstStack := firstStack[..|firstStack| - 1];
      context := Attach(context.below, Obj(context.members));
    }

    method BeginArray()
      requires Valid() && TakesValue(context)
      modifies this
      ensures Valid() && Some(context) == Next(old(context), Call.BeginArray)
    {
      ValuePrefix();
      out := out + "[";
      firstStack := firstStack + [true];
      context := InArray([], context);
      assert Opened(context.below) + "[" + "" == Opened(context.below) + "[";
    }

    method EndArray()
      requires Valid() && context.InArray?
      modifies this
      ensures Valid() && Some(context) == Next(old(context), Call.EndArray)
    {
      RenderClose(context);
      out := out + "]";
      firstStack := firstStack[..|firstStack| - 1];
      context := Attach(context.below, Arr(context.items));
    }

    method Key(name: string)
      requires Valid() && context.InObject?
      modifies this
      ensures Valid() && Some(context) == Next(old(context), Call.Key(name))
    {
      MemberPrefix();
      var escaped := JsonEscape(name);
      RegroupKey(out, escaped);
      out := out + "\"" + escaped + "\":";
      expectingValue := true;
      context := AfterKey(context.members, name, context.below);
    }

    /** Writes a finished scalar text at the open place. */
    method WriteScalar(text: string, ghost v: Value)
      requires Valid() && TakesValue(context) && IsScalar(v) && text == TextOf(v)
      modifies this
      ensures Valid() && Some(context) == Next(old(context), Scalar(v))
    {
      RenderAttach(context, v);
      ValuePrefix();
      out := out + text;
      context := Attach(context, v);
    }

    method StringValue(value: string)
      requires Valid() && TakesValue(context)
      modifies this
      ensures Valid() && Some(context) == Next(old(context), Scalar(Str(value)))
    {
      var escaped := JsonEscape(value);
      WriteScalar("\"" + escaped + "\"", Str(value));
    }

    method BoolValue(value: bool)
      requires Valid() && TakesValue(context)
      modifies this
      ensures Valid() && Some(context) == Next(old(context), Scalar(Bool(value)))
    {
      WriteScalar(if value then "true" else "false", Bool(value));
    }

    method UIntValue(value: nat)
      requires Valid() && TakesValue(context)
      modifies this
      ensures Valid() && Some(context) == Next(old(context), Scalar(UIntOf(value)))
    {
      assert "" + Decimal(value) == Decimal(value);
      WriteScalar(Decimal(value), UIntOf(value));
    }

    method IntValue(value: int)
      requires Valid() && TakesValue(context)
      modifies this
      ensures Valid() && Some(context) == Next(old(context), Scalar(IntOf(value)))
    {
      assert DecimalInt(value) == TextOf(IntOf(value));
      WriteScalar(DecimalInt(value), IntOf(value));
    }

    method DoubleValue(value: Double)
      requires Valid() && TakesValue(context)
      modifies this
      ensures Valid() && Some(context) == Next(old(context), Scalar(DoubleOf(value)))
    {
      if !value.Finite? {
        ZeroText();
        WriteScalar("0.000", DoubleOf(value));
        return;
      }
      var thousandths := RoundHalfEven(value.magnitude * 1000.0);
      WriteScalar(NumberText(value.negative, thousandths, -3), DoubleOf(value));
    }

    method ToString() returns (text: string)
      requires Valid()
      ensures text == out
      ensures context.Finished? ==> text == TextOf(context.value)
    {
      text := out;
    }
  }

  // ----- runs of the writer -----

  /** The writer's own call for each value the program writes; other numbers and null have their text. */
  method WriteValueCall(json: JsonWriter, v: Value)
    requires json.Valid() && TakesValue(json.context) && IsScalar(v)
    modifies json
    ensures json.Valid() && Some(json.context) == Next(old(json.context), Scalar(v))
  {
    hide JsonWriter.Valid, Next;
    match v
    case Str(text) => json.StringValue(text);
    case Bool(value) => json.BoolValue(value);
    case Num(negative, c, e) =>
      if e == 0 && !negative {
        json.UIntValue(c);
      } else if e == 0 && c > 0 {
        json.IntValue(0 - c);
      } else if e == -3 {
        ThousandthsRoundTrip(c);
        json.DoubleValue(Finite(negative, c as real / 1000.0));
      } else {
        json.WriteScalar(NumberText(negative, c, e), v);
      }
    case Null => json.WriteScalar("null", v);
  }

  lemma ThousandthsRoundTrip(c: nat)
    ensures c as real / 1000.0 >= 0.0 && DoubleOf(Finite(false, c as real / 1000.0)) == Num(false, c, -3)
    ensures DoubleOf(Finite(true, c as real / 1000.0)) == Num(true, c, -3)
  {
    assert c as real / 1000.0 * 1000.0 == c as real;
  }

  method PlayCall(json: JsonWriter, call: Call)
    requires json.Valid() && Next(json.context, call).Some?
    modifies json
    ensures json.Valid() && Some(json.context) == Next(old(json.context), call)
  {
    hide JsonWriter.Valid;
    match call
    case BeginObject => json.BeginObject();
    case EndObject => json.EndObject();
    case BeginArray => json.BeginArray();
    case EndArray => json.EndArray();
    case Key(name) => json.Key(name);
    case Scalar(v) => WriteValueCall(json, v);
  }

  /** Every run of the abstract machine is a run of the writer. */
  method PlayCalls(json: JsonWriter, calls: seq<Call>)
    requires json.Valid() && Play(json.context, calls).Some?
    modifies json
    ensures json.Valid() && Some(json.context) == Play(old(json.context), calls)
  {
    assert WellFormed(json.context);
    hide JsonWriter.Valid, Next;
    var i := 0;
    while i < |calls|
      invariant 0 <= i <= |calls|
      invariant json.Valid() && WellFormed(json.context)
      invariant Play(json.context, calls[i..]) == Play(old(json.context), calls)
    {
      assert calls[i..][0] == calls[i] && calls[i..][1..] == calls[i + 1..];
      PlayCall(json, calls[i]);
      i := i + 1;
    }
  }

  lemma RegroupKey(o: string, escaped: string)
    ensures o + "\"" + escaped + "\":" == o + ("\"" + escaped + "\":")
  {
  }

  lemma ZeroText()
    ensures TextOf(Num(false, 0, -3)) == "0.000"
  {
    assert CutDigits(0, 3) == 0 && CutDigits(0, 2) == 0 && CutDigits(0, 1) == 0;
    assert LastDigits(0, 1) == "0";
    assert LastDigits(0, 2) == "00";
    assert LastDigits(0, 3) == "000";
    assert NumberText(false, 0, -3) == "" + ("0" + "." + "000");
  }
}
