/** JSONL sessions: the three event texts and the loop that writes a whole run. */
module SnapshotSession {
  import opened Wrappers
  import opened Text
  import opened Json
  import opened JsonParser
  import opened JsonRoundTrip
  import opened JsonWriting
  import opened Snapshots
  import opened SnapshotJson

  datatype Session = Session(id: string, sessionName: string, startedMs: U64)

  // ----- the event texts, as the program concatenates them -----

  function MakeSessionId(startedMs: U64): string {
    "mtop-" + Decimal(startedMs)
  }

  function Quoted(s: string): string {
    "\"" + s + "\""
  }

  /** A member after the first, with its constant name as it stands in the program text. */
  function Field(name: string, text: string): string {
    "," + ("\"" + name + "\":") + text
  }

  /** The constant start of an event: its name and the schema version. */
  function EventStart(event: string): string {
    ("\"" + "event" + "\":") + Quoted(event) + Field("schema_version", "2")
  }

  function SessionStartJson(session: Session): string {
    "{" + EventStart("session_start") +
    Field("session_id", Quoted(Escape(session.id))) +
    Field("label", Quoted(Escape(session.sessionName))) +
    Field("started_unix_ms", Decimal(session.startedMs)) + "}"
  }

  function SessionSnapshotJson(document: string): string {
    if document == "" || document[0] != '{' then
      "{" + EventStart("snapshot") + Field("snapshot", "null") + "}"
    else
      "{" + EventStart("snapshot") + Field("snapshot", document) + "}"
  }

  function SessionEndJson(session: Session, endedMs: U64): string {
    "{" + EventStart("session_end") +
    Field("session_id", Quoted(Escape(session.id))) +
    Field("ended_unix_ms", Decimal(endedMs)) +
    Field("duration_ms", Decimal(Duration(session, endedMs))) + "}"
  }

  function Duration(session: Session, endedMs: U64): U64 {
    if endedMs >= session.startedMs then endedMs - session.startedMs else 0
  }

  // ----- the events as values -----

  function EventHead(event: string): seq<Member> {
    [Member("event", Str(event)), Member("schema_version", UIntOf(2))]
  }

  function StartEvent(session: Session): Value {
    Obj(EventHead("session_start") +
        [Member("session_id", Str(session.id)), Member("label", Str(session.sessionName)),
         Member("started_unix_ms", UIntOf(session.startedMs))])
  }

  function SnapshotEvent(document: Value): Value {
    Obj(EventHead("snapshot") + [Member("snapshot", document)])
  }

  function EndEvent(session: Session, endedMs: U64): Value {
    Obj(EventHead("session_end") +
        [Member("session_id", Str(session.id)), Member("ended_unix_ms", UIntOf(endedMs)),
         Member("duration_ms", UIntOf(Duration(session, endedMs)))])
  }

  // ----- their texts agree -----

  lemma {:induction false} EscapePlain(s: string)
    requires forall i | 0 <= i < |s| :: s[i] >= ' ' && s[i] != '"' && s[i] != '\\'
    ensures Escape(s) == s
  {
    if s != "" {
      EscapePlain(s[1..]);
      assert EscapeChar(s[0]) == [s[0]];
    }
  }

  ghost predicate Plain(s: string) {
    forall i | 0 <= i < |s| :: s[i] >= ' ' && s[i] != '"' && s[i] != '\\'
  }

  lemma NextField(name: string, v: Value, more: seq<Member>)
    requires Plain(name)
    ensures MembersText([Member(name, v)] + more, false) == Field(name, TextOf(v)) + MembersText(more, false)
  {
    EscapePlain(name);
    assert ([Member(name, v)] + more)[1..] == more;
    assert NameText(name) == "\"" + name + "\":";
    hide TextOf, Escape;
  }

  lemma NumberText64(n: U64)
    ensures TextOf(UIntOf(n)) == Decimal(n)
  {
    assert "" + Decimal(n) == Decimal(n);
  }

  lemma FirstField(name: string, v: Value, more: seq<Member>)
    requires Plain(name)
    ensures MembersText([Member(name, v)] + more, true) ==
            ("\"" + name + "\":") + TextOf(v) + MembersText(more, false)
  {
    EscapePlain(name);
    assert ([Member(name, v)] + more)[1..] == more;
    assert NameText(name) == "\"" + name + "\":";
    assert "" + NameText(name) == NameText(name);
    hide TextOf, Escape;
  }

  lemma ConstantTexts(event: string)
    requires Plain(event)
    ensures TextOf(Str(event)) == Quoted(event) && TextOf(UIntOf(2)) == "2"
  {
    EscapePlain(event);
    NumberText64(2);
    assert Decimal(2) == "2";
  }

  lemma EventHeadText(event: string, more: seq<Member>)
    requires Plain(event)
    ensures MembersText(EventHead(event) + more, true) == EventStart(event) + MembersText(more, false)
  {
    hide MembersText, Escape, TextOf, Field, Quoted, UIntOf;
    var head, version := Member("event", Str(event)), Member("schema_version", UIntOf(2));
    ConstantTexts(event);
    FirstField("event", Str(event), [version] + more);
    NextField("schema_version", UIntOf(2), more);
    assert EventHead(event) + more == [head] + ([version] + more);
    AssociateFour("\"" + "event" + "\":", Quoted(event), Field("schema_version", "2"), MembersText(more, false));
  }

  lemma AssociateFour(a: string, b: string, c: string, d: string)
    ensures a + b + (c + d) == (a + b + c) + d
  {
  }

  lemma Flat3(head: string, a: string, b: string, c: string)
    ensures "{" + (head + (a + (b + (c + "")))) + "}" == "{" + head + a + b + c + "}"
  {
  }

  lemma Flat1(head: string, a: string)
    ensures "{" + (head + (a + "")) + "}" == "{" + head + a + "}"
  {
  }

  /** An event with three further members. */
  lemma EventText3(event: string, n1: string, v1: Value, n2: string, v2: Value, n3: string, v3: Value)
    requires Plain(event) && Plain(n1) && Plain(n2) && Plain(n3)
    ensures TextOf(Obj(EventHead(event) + [Member(n1, v1), Member(n2, v2), Member(n3, v3)])) ==
            "{" + EventStart(event) + Field(n1, TextOf(v1)) + Field(n2, TextOf(v2)) + Field(n3, TextOf(v3)) + "}"
  {
    var more := [Member(n1, v1)] + ([Member(n2, v2)] + ([Member(n3, v3)] + []));
    assert more == [Member(n1, v1), Member(n2, v2), Member(n3, v3)];
    EventHeadText(event, more);
    NextField(n1, v1, [Member(n2, v2)] + ([Member(n3, v3)] + []));
    NextField(n2, v2, [Member(n3, v3)] + []);
    NextField(n3, v3, []);
    assert MembersText([], false) == "";
    hide MembersText, EventStart, Field;
    Flat3(EventStart(event), Field(n1, TextOf(v1)), Field(n2, TextOf(v2)), Field(n3, TextOf(v3)));
  }

  /** The concatenated start text is the text of the start event. */
  lemma StartIsEvent(session: Session)
    ensures SessionStartJson(session) == TextOf(StartEvent(session))
  {
    NumberText64(session.startedMs);
    EventText3("session_start", "session_id", Str(session.id), "label", Str(session.sessionName),
               "started_unix_ms", UIntOf(session.startedMs));
    hide MembersText, Escape, Decimal, EventStart, Field, EventHead;
  }

  /** Likewise the end text, with the duration floored at zero. */
  lemma EndIsEvent(session: Session, endedMs: U64)
    ensures SessionEndJson(session, endedMs) == TextOf(EndEvent(session, endedMs))
  {
    NumberText64(endedMs);
    NumberText64(Duration(session, endedMs));
    EventText3("session_end", "session_id", Str(session.id), "ended_unix_ms", UIntOf(endedMs),
               "duration_ms", UIntOf(Duration(session, endedMs)));
    hide MembersText, Escape, Decimal, EventStart, Field, EventHead;
  }

  lemma EventText1(document: Value)
    ensures TextOf(SnapshotEvent(document)) ==
            "{" + EventStart("snapshot") + Field("snapshot", TextOf(document)) + "}"
  {
    var more := [Member("snapshot", document)] + [];
    assert more == [Member("snapshot", document)];
    EventHeadText("snapshot", more);
    NextField("snapshot", document, []);
    assert MembersText([], false) == "";
    hide MembersText, EventStart, Field;
    Flat1(EventStart("snapshot"), Field("snapshot", TextOf(document)));
  }

  /** The text of an object is wrapped as its value; a text that does not start like one becomes null. */
  lemma SnapshotIsEvent(members: seq<Member>, other: string)
    requires other == "" || other[0] != '{'
    ensures SessionSnapshotJson(TextOf(Obj(members))) == TextOf(SnapshotEvent(Obj(members)))
    ensures SessionSnapshotJson(other) == TextOf(SnapshotEvent(Null))
  {
    EventText1(Obj(members));
    EventText1(Null);
    hide MembersText, EventStart, Field, SnapshotEvent;
  }

  // ----- whole runs -----

  datatype RunOptions = RunOptions(
    format: string, session: bool, loop: bool, count: Option<int>, sessionName: string, profile: ViewProfile)

  /** What the run cannot control: clocks, samples, the derived models and the moment of an interrupt.
      `interruptAt` is the first reading of the interrupt flag that finds it set, counting from 0. */
  datatype World = World(
    outputOpens: bool, startedMs: U64, endedMs: U64, intervalMs: U64,
    sample: nat -> SystemSnapshot, clock: nat -> U64,
    workloads: nat -> seq<Workload>, risk: nat -> MemoryRisk, interruptAt: Option<nat>)

  predicate WantsJson(options: RunOptions) {
    options.format == "json"
  }

  predicate LoopsForever(options: RunOptions) {
    options.loop && options.count.None?
  }

  function Limit(options: RunOptions): nat {
    if options.count.Some? && options.count.value > 1 then options.count.value else 1
  }

  predicate Interrupted(world: World, reading: nat) {
    world.interruptAt.Some? && world.interruptAt.value <= reading
  }

  /** The number of snapshots of a run that ends: each round reads the flag before and after its snapshot. */
  function Emitted(options: RunOptions, world: World): nat
    requires LoopsForever(options) ==> world.interruptAt.Some?
  {
    if world.interruptAt.Some? && (LoopsForever(options) || (world.interruptAt.value + 1) / 2 < Limit(options))
    then (world.interruptAt.value + 1) / 2
    else Limit(options)
  }

  function Document(options: RunOptions, world: World, i: nat): Value {
    var s := world.sample(i).(timestampMs := world.clock(i), intervalMs := world.intervalMs);
    Obj(DocumentMembers(s, Options(options.profile, true, world.workloads(i), world.risk(i))))
  }

  function SessionOf(options: RunOptions, world: World): Session {
    Session(MakeSessionId(world.startedMs), options.sessionName, world.startedMs)
  }

  function SnapshotLine(options: RunOptions, world: World, i: nat): Value {
    if options.session then SnapshotEvent(Document(options, world, i)) else Document(options, world, i)
  }

  function SnapshotLines(options: RunOptions, world: World, n: nat): (lines: seq<Value>) {
    seq(n, i requires 0 <= i < n => SnapshotLine(options, world, i))
  }

  function Opening(options: RunOptions, world: World): seq<Value> {
    if options.session then [StartEvent(SessionOf(options, world))] else []
  }

  function Closing(options: RunOptions, world: World): seq<Value> {
    if options.session then [EndEvent(SessionOf(options, world), world.endedMs)] else []
  }

  /** The lines of a run with n snapshots. */
  function Transcript(options: RunOptions, world: World, n: nat): seq<Value> {
    Opening(options, world) + SnapshotLines(options, world, n) + Closing(options, world)
  }

  function Texts(values: seq<Value>): (texts: seq<string>)
    ensures |texts| == |values| && forall i | 0 <= i < |values| :: texts[i] == TextOf(values[i])
  {
    if values == [] then [] else [TextOf(values[0])] + Texts(values[1..])
  }

  lemma TextsAppend(a: seq<Value>, v: Value)
    ensures WriteLines(Texts(a + [v])) == WriteLines(Texts(a)) + TextOf(v) + "\n"
  {
    hide TextOf;
    assert Texts(a + [v]) == Texts(a) + [TextOf(v)];
    WriteLinesAppend(Texts(a), [TextOf(v)]);
    assert WriteLines([TextOf(v)]) == TextOf(v) + "\n" + WriteLines([TextOf(v)][1..]);
    assert WriteLines([TextOf(v)][1..]) == "";
    AssociateLine(WriteLines(Texts(a)), TextOf(v));
  }

  lemma AssociateLine(a: string, b: string)
    ensures a + (b + "\n" + "") == a + b + "\n"
  {
  }

  /** One sample, its document and its output line. */
  method SampleLine(options: RunOptions, world: World, i: nat) returns (line: string)
    ensures line == TextOf(SnapshotLine(options, world, i))
  {
    hide TextOf, DocumentMembers;
    var snapshot := world.sample(i).(timestampMs := world.clock(i), intervalMs := world.intervalMs);
    var jsonOptions := Options(options.profile, true, world.workloads(i), world.risk(i));
    var json := SnapshotToJson(snapshot, jsonOptions);
    SnapshotIsEvent(DocumentMembers(snapshot, jsonOptions), "");
    line := if options.session then SessionSnapshotJson(json) else json;
  }

  /** The program's main loop of snapshot mode: it writes exactly the transcript of the run, and a run of n
      snapshots that saw the flag by its last reading is reported as interrupted. */
  method RunSnapshotMode(options: RunOptions, world: World) returns (exit: int, output: string)
    requires LoopsForever(options) ==> world.interruptAt.Some?
    ensures !WantsJson(options) ==> exit == 2 && output == ""
    ensures WantsJson(options) && !world.outputOpens ==> exit == 1 && output == ""
    ensures WantsJson(options) && world.outputOpens ==>
              var n := Emitted(options, world);
              && output == WriteLines(Texts(Transcript(options, world, n)))
              && exit == if world.interruptAt.Some? && world.interruptAt.value <= 2 * n then 130 else 0
  {
    hide WantsJson, TextOf, WriteLines, Texts, StartEvent, EndEvent, SnapshotLine, SnapshotLines, SessionStartJson,
         SessionEndJson, SessionOf;
    if !WantsJson(options) {
      return 2, "";
    }
    if !world.outputOpens {
      return 1, "";
    }
    var loopForever := LoopsForever(options);
    var count := if options.count.Some? && options.count.value > 1 then options.count.value else 1;
    var session := SessionOf(options, world);
    output := "";
    ghost var lines: seq<Value> := [];
    NoLines();
    if options.session {
      output := output + SessionStartJson(session) + "\n";
      StartIsEvent(session);
      TextsAppend(lines, StartEvent(session));
      lines := lines + [StartEvent(session)];
    }
    NoSnapshotLines(options, world);
    assert lines == Opening(options, world) + SnapshotLines(options, world, 0);
    var emitted: nat := 0;
    var reading := 0;
    var interrupted := Interrupted(world, reading);
    while !interrupted && (loopForever || emitted < count)
      invariant reading == 2 * emitted
      invariant interrupted == Interrupted(world, reading)
      invariant emitted <= Emitted(options, world)
      invariant interrupted || !(loopForever || emitted < count) ==> emitted == Emitted(options, world)
      invariant lines == Opening(options, world) + SnapshotLines(options, world, emitted)
      invariant output == WriteLines(Texts(lines))
      decreases Emitted(options, world) - emitted
    {
      var line := SampleLine(options, world, emitted);
      output := output + line + "\n";
      TextsAppend(lines, SnapshotLine(options, world, emitted));
      lines := lines + [SnapshotLine(options, world, emitted)];
      OneMoreLine(options, world, emitted);
      emitted := emitted + 1;
      interrupted := Interrupted(world, reading + 1);
      reading := reading + 2;
      if interrupted || (!options.loop && options.count.None?) {
        break;
      }
      if !loopForever && emitted >= count {
        break;
      }
      interrupted := Interrupted(world, reading);
    }
    assert emitted == Emitted(options, world);
    if options.session {
      output := output + SessionEndJson(session, world.endedMs) + "\n";
      EndIsEvent(session, world.endedMs);
      TextsAppend(lines, EndEvent(session, world.endedMs));
      lines := lines + [EndEvent(session, world.endedMs)];
    }
    assert lines == Transcript(options, world, emitted);
    exit := if Interrupted(world, reading) then 130 else 0;
  }

  lemma NoSnapshotLines(options: RunOptions, world: World)
    ensures SnapshotLines(options, world, 0) == []
  {
  }

  lemma OneMoreLine(options: RunOptions, world: World, n: nat)
    ensures Opening(options, world) + SnapshotLines(options, world, n + 1) ==
            Opening(options, world) + SnapshotLines(options, world, n) + [SnapshotLine(options, world, n)]
  {
    hide SnapshotLine, StartEvent;
    assert SnapshotLines(options, world, n + 1) ==
           SnapshotLines(options, world, n) + [SnapshotLine(options, world, n)];
  }

  lemma NoLines()
    ensures WriteLines(Texts([])) == ""
  {
  }

  /** JSONL framing: splitting the output on newlines gives the transcript's texts, each a complete JSON value. */
  lemma OutputSplitsIntoEvents(values: seq<Value>)
    ensures var lines := ReadLines(WriteLines(Texts(values)));
            |lines| == |values| && forall i | 0 <= i < |lines| :: Parse(lines[i]) == Some(values[i])
  {
    forall i | 0 <= i < |values|
      ensures NoNewline(Texts(values)[i]) && Parse(Texts(values)[i]) == Some(values[i])
    {
      TextIsOneLine(values[i]);
      ParseTextOf(values[i]);
    }
    ReadWrittenLines(Texts(values));
  }

  /** An interrupted session is the uninterrupted one with snapshots cut off the end, closed by the same end event. */
  lemma InterruptionKeepsPrefix(options: RunOptions, world: World)
    requires options.session && !LoopsForever(options)
    ensures var calm := world.(interruptAt := None);
            var full := Transcript(options, calm, Emitted(options, calm));
            var cut := Transcript(options, world, Emitted(options, world));
            && |full| == 2 + (if options.count.Some? && options.count.value > 1 then options.count.value else 1)
            && cut[..|cut| - 1] <= full[..|full| - 1]
            && cut[|cut| - 1] == full[|full| - 1] == EndEvent(SessionOf(options, world), world.endedMs)
  {
    hide StartEvent, EndEvent, SnapshotEvent, Document;
    var calm := world.(interruptAt := None);
    var n, m := Emitted(options, world), Emitted(options, calm);
    forall i | 0 <= i < n
      ensures SnapshotLines(options, world, n)[i] == SnapshotLines(options, calm, m)[i]
    {
      SameLine(options, world, i);
    }
  }

  /** Without a limit, too: a session interrupted later begins with the snapshots of one interrupted earlier. */
  lemma LaterInterruptOnlyAdds(options: RunOptions, world: World, early: nat, late: nat)
    requires options.session && early <= late
    ensures var earlier, later := world.(interruptAt := Some(early)), world.(interruptAt := Some(late));
            var short := Transcript(options, earlier, Emitted(options, earlier));
            var long := Transcript(options, later, Emitted(options, later));
            && short[..|short| - 1] <= long[..|long| - 1]
            && short[|short| - 1] == long[|long| - 1] == EndEvent(SessionOf(options, world), world.endedMs)
            && var rounds := (early + 1) / 2;
            && var limit := if options.count.Some? && options.count.value > 1 then options.count.value else 1;
            && |short| == 2 + (if (options.loop && options.count.None?) || rounds < limit then rounds else limit)
  {
    hide StartEvent, EndEvent, SnapshotEvent, Document;
    var earlier, later := world.(interruptAt := Some(early)), world.(interruptAt := Some(late));
    var n, m := Emitted(options, earlier), Emitted(options, later);
    forall i | 0 <= i < n
      ensures SnapshotLines(options, earlier, n)[i] == SnapshotLines(options, later, m)[i]
    {
      SameLine(options, earlier, i);
      SameLine(options, later, i);
    }
  }

  lemma SameLine(options: RunOptions, world: World, i: nat)
    ensures SnapshotLine(options, world, i) == SnapshotLine(options, world.(interruptAt := None), i)
  {
  }
}
