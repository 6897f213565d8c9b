/** Loading the line-oriented configuration file and persisting the view profile in it. */
module Config {
  import opened Wrappers
  import opened Arithmetic
  import opened Text
  import opened Snapshots
  import opened ProcessOrder

  datatype ViewMode = Overview | SystemIo | GpuActiveView

  datatype AppConfig = AppConfig(
    theme: string, refreshMs: int, processLimit: int, demoMode: bool, rootSampleMs: int,
    snapshotIntervalMs: int, showCachedMemory: bool, defaultView: ViewMode, sort: SortMode,
    sortDirection: int, viewProfile: ViewProfile)

  const DEFAULTS := AppConfig("apple", 1000, 12, false, 1000, 1000, false, Overview, ByCpu, -1, Alpha)

  // ----- values -----

  predicate AllSpaces(s: string) {
    forall i | 0 <= i < |s| :: IsSpace(s[i])
  }

  /** strtol on a C string: a value that fits into an int with only whitespace after it. */
  function ParseInt(value: string): Option<int> {
    var t := SkipSpaces(CString(value));
    var signed := t != "" && (t[0] == '-' || t[0] == '+');
    var digits := if signed then t[1..] else t;
    var n := DigitSpan(digits);
    if n == 0 || !AllSpaces(digits[n..]) then None
    else
      var magnitude := ValueOf(digits[..n]);
      var v := if signed && t[0] == '-' then 0 - magnitude else magnitude;
      if FitsInt(v) then Some(v) else None
  }

  function ParseClamped(value: string, current: int, low: int, high: int): (c: int)
    requires low <= high
    ensures low <= c <= high
  {
    var parsed := ParseInt(value);
    Clamp(if parsed.Some? then parsed.value else current, low, high)
  }

  function ParseBool(value: string, fallback: bool): bool {
    var lowered := Lower(Trim(value));
    if lowered == "1" || lowered == "true" || lowered == "yes" || lowered == "on" then true
    else if lowered == "0" || lowered == "false" || lowered == "no" || lowered == "off" then false
    else fallback
  }

  function ParseViewMode(value: string, fallback: ViewMode): ViewMode {
    var lowered := Lower(Trim(value));
    if lowered == "overview" || lowered == "main" then Overview
    else if lowered == "system_io" || lowered == "system-io" || lowered == "io" then SystemIo
    else if lowered == "gpu_active" || lowered == "gpu-active" || lowered == "gpu" then GpuActiveView
    else fallback
  }

  function ParseSortMode(value: string, fallback: SortMode): SortMode {
    var lowered := Lower(Trim(value));
    if lowered == "pid" then ByPid
    else if lowered == "cpu" || lowered == "pcpu" then ByCpu
    else if lowered == "mem" || lowered == "memory" then ByMem
    else if lowered == "time" then ByTime
    else if lowered == "name" || lowered == "command" then ByName
    else if lowered == "gpu" || lowered == "gpu_active" || lowered == "gpu-active" then ByGpuActive
    else if lowered == "io" then ByIo
    else if lowered == "pwr" || lowered == "power" then ByPower
    else fallback
  }

  function ParseSortDirection(value: string, fallback: int): int {
    var lowered := Lower(Trim(value));
    if lowered == "asc" || lowered == "ascending" || lowered == "1" then 1
    else if lowered == "desc" || lowered == "descending" || lowered == "-1" then -1
    else fallback
  }

  function ParseViewProfile(value: string): Option<ViewProfile> {
    var lowered := Lower(Trim(value));
    if lowered == "alpha" then Some(Alpha) else if lowered == "beta" then Some(Beta) else None
  }

  function ProfileOrAlpha(value: string): ViewProfile {
    var p := ParseViewProfile(value);
    if p.Some? then p.value else Alpha
  }

  // ----- lines -----

  /** The key and value of an active line; comments, empty lines and lines without '=' have none. */
  function KeyValue(line: string): Option<(string, string)> {
    if line == "" || line[0] == '#' then None
    else
      var eq := IndexOf(line, '=');
      if eq == |line| then None else Some((Trim(line[..eq]), Trim(line[eq + 1..])))
  }

  datatype Setting =
    | Theme | RefreshMs | ProcessLimit | DemoMode | RootSampleMs | SnapshotIntervalMs
    | ShowCachedMemory | DefaultView | Sort | SortDirection | Profile | NoSetting

  const PROFILE_KEY := "view_profile"

  function SettingOf(key: string): Setting {
    if key == "theme" then Theme
    else if key == "refresh_ms" then RefreshMs
    else if key == "process_limit" then ProcessLimit
    else if key == "demo_mode" then DemoMode
    else if key == "root_sample_ms" then RootSampleMs
    else if key == "snapshot_interval_ms" then SnapshotIntervalMs
    else if key == "show_cached_memory" then ShowCachedMemory
    else if key == "default_view" then DefaultView
    else if key == "sort" then Sort
    else if key == "sort_direction" then SortDirection
    else if key == PROFILE_KEY then Profile
    else NoSetting
  }

  /** One setting applied to the configuration; most ignore an empty value. */
  function Apply(setting: Setting, value: string, c: AppConfig): AppConfig {
    if setting == DemoMode then c.(demoMode := ParseBool(value, c.demoMode))
    else if setting == ShowCachedMemory then c.(showCachedMemory := ParseBool(value, c.showCachedMemory))
    else if value == "" then c
    else match setting
      case Theme => c.(theme := value)
      case RefreshMs => c.(refreshMs := ParseClamped(value, c.refreshMs, 100, 60000))
      case ProcessLimit => c.(processLimit := ParseClamped(value, c.processLimit, 4, 1000))
      case RootSampleMs => c.(rootSampleMs := ParseClamped(value, c.rootSampleMs, 250, 60000))
      case SnapshotIntervalMs => c.(snapshotIntervalMs := ParseClamped(value, c.snapshotIntervalMs, 100, 60000))
      case DefaultView => c.(defaultView := ParseViewMode(value, c.defaultView))
      case Sort =>
        var mode := ParseSortMode(value, c.sort);
        c.(sort := mode, sortDirection := DefaultSortDirection(mode))
      case SortDirection => c.(sortDirection := ParseSortDirection(value, c.sortDirection))
      case Profile => c.(viewProfile := ProfileOrAlpha(value))
      case _ => c
  }

  /** The configuration after one trimmed line. */
  function ParseLine(line: string, c: AppConfig): AppConfig {
    match KeyValue(line)
    case None => c
    case Some((key, value)) => Apply(SettingOf(key), value, c)
  }

  function LoadLines(lines: seq<string>, c: AppConfig): AppConfig {
    if lines == [] then c
    else ParseLine(Trim(lines[|lines| - 1]), LoadLines(lines[..|lines| - 1], c))
  }

  /** The configuration under construction, as the program fills it line by line. */
  class ConfigLoader {
    var config: AppConfig

    constructor ()
      ensures config == DEFAULTS
    {
      config := DEFAULTS;
    }

    method ReadLine(line: string)
      modifies this
      ensures config == ParseLine(line, old(config))
    {
      hide Trim, IndexOf, ParseClamped, ParseBool, ParseViewMode, ParseSortMode, ParseSortDirection, ProfileOrAlpha;
      if line == "" || line[0] == '#' {
        return;
      }
      var eq := IndexOf(line, '=');
      if eq == |line| {
        return;
      }
      var key, value := Trim(line[..eq]), Trim(line[eq + 1..]);
      if key == "theme" && value != "" {
        config := config.(theme := value);
      } else if key == "refresh_ms" && value != "" {
        config := config.(refreshMs := ParseClamped(value, config.refreshMs, 100, 60000));
      } else if key == "process_limit" && value != "" {
        config := config.(processLimit := ParseClamped(value, config.processLimit, 4, 1000));
      } else if key == "demo_mode" {
        config := config.(demoMode := ParseBool(value, config.demoMode));
      } else if key == "root_sample_ms" && value != "" {
        config := config.(rootSampleMs := ParseClamped(value, config.rootSampleMs, 250, 60000));
      } else if key == "snapshot_interval_ms" && value != "" {
        config := config.(snapshotIntervalMs := ParseClamped(value, config.snapshotIntervalMs, 100, 60000));
      } else if key == "show_cached_memory" {
        config := config.(showCachedMemory := ParseBool(value, config.showCachedMemory));
      } else if key == "default_view" && value != "" {
        config := config.(defaultView := ParseViewMode(value, config.defaultView));
      } else if key == "sort" && value != "" {
        config := config.(sort := ParseSortMode(value, config.sort));
        config := config.(sortDirection := DefaultSortDirection(config.sort));
      } else if key == "sort_direction" && value != "" {
        config := config.(sortDirection := ParseSortDirection(value, config.sortDirection));
      } else if key == PROFILE_KEY && value != "" {
        config := config.(viewProfile := ProfileOrAlpha(value));
      }
    }
  }

  /** A missing file loads as the defaults. */
  method LoadConfig(file: Option<string>) returns (config: AppConfig)
    ensures config == Load(file)
  {
    hide ParseLine, Trim, ReadLines;
    var loader := new ConfigLoader();
    if file.None? {
      return loader.config;
    }
    var lines := ReadLines(file.value);
    var i := 0;
    while i < |lines|
      invariant 0 <= i <= |lines|
      invariant loader.config == LoadLines(lines[..i], DEFAULTS)
    {
      assert lines[..i + 1][..i] == lines[..i];
      loader.ReadLine(Trim(lines[i]));
      i := i + 1;
    }
    assert lines[..|lines|] == lines;
    return loader.config;
  }

  function FileLines(file: Option<string>): seq<string> {
    if file.None? then [] else ReadLines(file.value)
  }

  function Load(file: Option<string>): AppConfig {
    LoadLines(FileLines(file), DEFAULTS)
  }

  // ----- persisting the profile -----

  function DesiredLine(profile: ViewProfile): string {
    PROFILE_KEY + ("=" + ProfileName(profile))
  }

  predicate IsProfileLine(line: string) {
    var kv := KeyValue(Trim(line));
    kv.Some? && SettingOf(kv.value.0) == Profile
  }

  /** The first active profile line, or the number of lines. */
  function FirstProfileLine(lines: seq<string>): (i: nat)
    ensures i <= |lines|
  {
    if lines == [] || IsProfileLine(lines[0]) then 0 else 1 + FirstProfileLine(lines[1..])
  }

  lemma {:induction false} FirstProfileLineFinds(lines: seq<string>)
    ensures var i := FirstProfileLine(lines);
            && (forall k | 0 <= k < i :: !IsProfileLine(lines[k]))
            && (i < |lines| ==> IsProfileLine(lines[i]))
  {
    hide IsProfileLine;
    if lines != [] && !IsProfileLine(lines[0]) {
      FirstProfileLineFinds(lines[1..]);
    }
  }

  function PersistLines(lines: seq<string>, profile: ViewProfile): seq<string> {
    var i := FirstProfileLine(lines);
    if i < |lines| then lines[i := DesiredLine(profile)] else lines + [DesiredLine(profile)]
  }

  function Persist(file: Option<string>, profile: ViewProfile): string {
    WriteLines(PersistLines(FileLines(file), profile))
  }

  lemma FirstProfileLineIs(lines: seq<string>, i: nat)
    requires i <= |lines| && forall k | 0 <= k < i :: !IsProfileLine(lines[k])
    requires i < |lines| ==> IsProfileLine(lines[i])
    ensures FirstProfileLine(lines) == i
  {
    hide IsProfileLine;
    FirstProfileLineFinds(lines);
  }

  /** Rewrites the first active profile line or appends one; the new file text. */
  method PersistViewProfile(file: Option<string>, profile: ViewProfile) returns (text: string)
    ensures text == Persist(file, profile)
  {
    hide IsProfileLine, WriteLines, ReadLines;
    var lines := FileLines(file);
    ghost var before := lines;
    var desired := DesiredLine(profile);
    var updated := false;
    var i := 0;
    while i < |lines|
      invariant 0 <= i <= |lines| && lines == before && !updated
      invariant forall k | 0 <= k < i :: !IsProfileLine(lines[k])
    {
      if IsProfileLine(lines[i]) {
        FirstProfileLineIs(lines, i);
        lines := lines[i := desired];
        updated := true;
        break;
      }
      i := i + 1;
    }
    if !updated {
      FirstProfileLineIs(lines, |lines|);
      lines := lines + [desired];
    }
    text := WriteLines(lines);
  }
}

/** What loading and persisting promise together. */
module ConfigFacts {
  import opened Wrappers
  import opened Text
  import opened Sequences
  import opened Snapshots
  import opened ProcessOrder
  import opened Config

  // ----- ranges -----

  ghost predicate InRange(c: AppConfig) {
    && 100 <= c.refreshMs <= 60000 && 4 <= c.processLimit <= 1000
    && 250 <= c.rootSampleMs <= 60000 && 100 <= c.snapshotIntervalMs <= 60000
    && c.sortDirection in {-1, 1}
  }

  lemma ApplyKeepsRange(setting: Setting, value: string, c: AppConfig)
    requires InRange(c)
    ensures InRange(Apply(setting, value, c))
  {
    hide ParseClamped, ParseBool, ParseViewMode, ParseSortMode, ParseViewProfile, Lower, Trim;
  }

  lemma {:induction false} LoadKeepsRange(lines: seq<string>, c: AppConfig)
    requires InRange(c)
    ensures InRange(LoadLines(lines, c))
  {
    hide KeyValue, Apply, Trim, InRange, SettingOf;
    if lines != [] {
      var front, last := LoadLines(lines[..|lines| - 1], c), Trim(lines[|lines| - 1]);
      LoadKeepsRange(lines[..|lines| - 1], c);
      if KeyValue(last).Some? {
        ApplyKeepsRange(SettingOf(KeyValue(last).value.0), KeyValue(last).value.1, front);
      }
    }
  }

  /** Loading any file leaves every numeric setting in its range and the direction at 1 or -1. */
  lemma LoadedInRange(file: Option<string>)
    ensures InRange(Load(file))
  {
    LoadKeepsRange(FileLines(file), DEFAULTS);
  }

  // ----- the profile is independent of everything else -----

  /** The configuration with the profile masked. */
  function Others(c: AppConfig): AppConfig {
    c.(viewProfile := Alpha)
  }

  /** What a line does to the profile, if anything. */
  function ProfileSetBy(line: string): Option<ViewProfile> {
    match KeyValue(Trim(line))
    case None => None
    case Some((key, value)) =>
      if SettingOf(key) == Profile && value != "" then Some(ProfileOrAlpha(value)) else None
  }

  /** The profile the last effective line sets. */
  function LastProfile(lines: seq<string>): Option<ViewProfile> {
    if lines == [] then None
    else
      var p := ProfileSetBy(lines[|lines| - 1]);
      if p.Some? then p else LastProfile(lines[..|lines| - 1])
  }

  lemma ApplyOthers(setting: Setting, value: string, c: AppConfig, d: AppConfig)
    requires Others(c) == Others(d)
    ensures Others(Apply(setting, value, c)) == Others(Apply(setting, value, d))
    ensures setting == Profile ==> Others(Apply(setting, value, c)) == Others(c)
    ensures Apply(setting, value, c).viewProfile ==
            if setting == Profile && value != "" then ProfileOrAlpha(value) else c.viewProfile
  {
    hide ParseInt, ParseClamped, ParseBool, ParseViewMode, ParseSortMode, ParseSortDirection, ProfileOrAlpha;
  }

  lemma LineOthers(line: string, c: AppConfig, d: AppConfig)
    requires Others(c) == Others(d)
    ensures var t := Trim(line);
            && Others(ParseLine(t, c)) == Others(ParseLine(t, d))
            && (IsProfileLine(line) ==> Others(ParseLine(t, c)) == Others(c))
            && (ParseLine(t, c).viewProfile ==
                if ProfileSetBy(line).Some? then ProfileSetBy(line).value else c.viewProfile)
  {
    hide Apply, KeyValue, Trim, ProfileOrAlpha, Others, SettingOf;
    var kv := KeyValue(Trim(line));
    if kv.Some? {
      ApplyOthers(SettingOf(kv.value.0), kv.value.1, c, d);
      ApplyOthers(SettingOf(kv.value.0), kv.value.1, c, c);
    }
  }

  lemma {:induction false} LoadOthers(lines: seq<string>, c: AppConfig, d: AppConfig)
    requires Others(c) == Others(d)
    ensures Others(LoadLines(lines, c)) == Others(LoadLines(lines, d))
  {
    hide ParseLine, Trim, Others, IsProfileLine, ProfileSetBy;
    if lines != [] {
      var front, last := lines[..|lines| - 1], lines[|lines| - 1];
      LoadOthers(front, c, d);
      LineOthers(last, LoadLines(front, c), LoadLines(front, d));
    }
  }

  lemma {:induction false} LoadedProfile(lines: seq<string>, c: AppConfig)
    ensures LoadLines(lines, c).viewProfile ==
            if LastProfile(lines).Some? then LastProfile(lines).value else c.viewProfile
  {
    hide ParseLine, Trim, ProfileSetBy, Others, IsProfileLine;
    if lines != [] {
      var front, last := lines[..|lines| - 1], lines[|lines| - 1];
      LoadedProfile(front, c);
      LineOthers(last, LoadLines(front, c), LoadLines(front, c));
    }
  }

  lemma {:induction false} LoadAppend(a: seq<string>, b: seq<string>, c: AppConfig)
    ensures LoadLines(a + b, c) == LoadLines(b, LoadLines(a, c))
    decreases |b|
  {
    hide ParseLine, Trim;
    if b == [] {
      Empty(a);
    } else {
      var front, last := b[..|b| - 1], b[|b| - 1];
      FrontAndLast(b);
      Associate(a, front, [last]);
      FrontOfAppend(a + front, last);
      LoadAppend(a, front, c);
    }
  }

  lemma {:induction false} LastProfileAppend(a: seq<string>, b: seq<string>)
    ensures LastProfile(a + b) == if LastProfile(b).Some? then LastProfile(b) else LastProfile(a)
    decreases |b|
  {
    hide ProfileSetBy;
    if b == [] {
      Empty(a);
    } else {
      var front, last := b[..|b| - 1], b[|b| - 1];
      FrontAndLast(b);
      Associate(a, front, [last]);
      FrontOfAppend(a + front, last);
      LastProfileAppend(a, front);
    }
  }

  lemma LoadOne(line: string, c: AppConfig)
    ensures LoadLines([line], c) == ParseLine(Trim(line), c)
    ensures LastProfile([line]) == ProfileSetBy(line)
  {
    hide ParseLine, Trim, ProfileSetBy;
    assert [line][..0] == [];
    assert LoadLines([], c) == c && LastProfile([]) == None;
  }

  // ----- the written line -----

  lemma LowerPlain(s: string)
    requires forall i | 0 <= i < |s| :: !('A' <= s[i] <= 'Z')
    ensures Lower(s) == s
  {
  }

  lemma ProfileNameParses(p: ViewProfile)
    ensures ProfileOrAlpha(ProfileName(p)) == p
  {
    hide Trim, Lower;
    var name := ProfileName(p);
    TrimTrims(name);
    LowerPlain(name);
    assert name[0] == if p == Alpha then 'a' else 'b';
  }

  /** A key, an equals sign and a value make an active line with that key and value. */
  lemma KeyValueOf(key: string, value: string)
    requires key != "" && Trimmed(key) && value != "" && Trimmed(value) && key[0] != '#'
    requires forall i | 0 <= i < |key| :: key[i] != '='
    ensures KeyValue(Trim(key + ("=" + value))) == Some((key, value))
  {
    hide Trim, IndexOf;
    var line := key + ("=" + value);
    assert line[0] == key[0] && line[|line| - 1] == value[|value| - 1];
    TrimTrims(line);
    TrimTrims(key);
    TrimTrims(value);
    assert line[|key|] == '=';
    IndexOfIs(line, '=', |key|);
    assert line[..|key|] == key && line[|key| + 1..] == value;
  }

  lemma ProfileKeyIsPlain()
    ensures Trimmed(PROFILE_KEY) && PROFILE_KEY != "" && PROFILE_KEY[0] != '#'
    ensures forall i | 0 <= i < |PROFILE_KEY| :: PROFILE_KEY[i] != '='
  {
  }

  lemma ProfileKeyIsProfile()
    ensures SettingOf(PROFILE_KEY) == Profile
  {
    var key := PROFILE_KEY;
    assert key[0] == 'v' && |key| == 12;
  }

  lemma DesiredLineParses(p: ViewProfile)
    ensures IsProfileLine(DesiredLine(p)) && ProfileSetBy(DesiredLine(p)) == Some(p)
    ensures NoNewline(DesiredLine(p))
  {
    ProfileNameParses(p);
    ProfileKeyIsPlain();
    ProfileKeyIsProfile();
    hide Trim, SettingOf, ProfileOrAlpha, KeyValue;
    var name := ProfileName(p);
    KeyValueOf(PROFILE_KEY, name);
    assert '\n' !in name && '\n' !in PROFILE_KEY;
  }

  // ----- persist, then load -----

  lemma PersistedLinesAreSingle(lines: seq<string>, p: ViewProfile)
    requires AllSingleLines(lines)
    ensures AllSingleLines(PersistLines(lines, p))
  {
    hide NoNewline, DesiredLine, FirstProfileLine, IsProfileLine, ProfileSetBy;
    DesiredLineParses(p);
  }

  lemma LoadPersisted(file: Option<string>, p: ViewProfile)
    ensures FileLines(Some(Persist(file, p))) == PersistLines(FileLines(file), p)
  {
    hide ReadLines, WriteLines, NoNewline, PersistLines;
    if file.Some? {
      ReadLinesAreSingle(file.value);
    }
    PersistedLinesAreSingle(FileLines(file), p);
    ReadWrittenLines(PersistLines(FileLines(file), p));
  }

  /** Lines split around the place where the profile is written. */
  lemma PersistShape(lines: seq<string>, p: ViewProfile)
    ensures var i := FirstProfileLine(lines);
            PersistLines(lines, p) == lines[..i] + [DesiredLine(p)] + (if i < |lines| then lines[i + 1..] else [])
  {
    hide FirstProfileLine, DesiredLine;
    var i := FirstProfileLine(lines);
    if i < |lines| {
      UpdateSplits(lines, i, DesiredLine(p));
    } else {
      Empty(lines + [DesiredLine(p)]);
      TakeAll(lines);
    }
  }

  /** The lines after the first active profile line, which persisting leaves alone. */
  function LaterLines(lines: seq<string>): seq<string> {
    var i := FirstProfileLine(lines);
    if i < |lines| then lines[i + 1..] else []
  }

  /** Persisting changes no other loaded setting. */
  lemma PersistKeepsOthers(file: Option<string>, p: ViewProfile)
    ensures Others(Load(Some(Persist(file, p)))) == Others(Load(file))
  {
    hide ParseLine, Trim, IsProfileLine, ProfileSetBy, DesiredLine, Others, ReadLines, WriteLines, FirstProfileLine;
    var lines := FileLines(file);
    var i := FirstProfileLine(lines);
    FirstProfileLineFinds(lines);
    var before, later := lines[..i], LaterLines(lines);
    var c := LoadLines(before, DEFAULTS);
    LoadPersisted(file, p);
    PersistShape(lines, p);
    DesiredLineParses(p);
    LineOthers(DesiredLine(p), c, c);
    LoadOne(DesiredLine(p), c);
    LoadAppend(before + [DesiredLine(p)], later, DEFAULTS);
    LoadAppend(before, [DesiredLine(p)], DEFAULTS);
    var d := LoadLines([DesiredLine(p)], c);
    assert Others(d) == Others(c);
    if i < |lines| {
      Around(lines, i);
      LineOthers(lines[i], c, c);
      LoadOne(lines[i], c);
      LoadAppend(before + [lines[i]], later, DEFAULTS);
      LoadAppend(before, [lines[i]], DEFAULTS);
      LoadOthers(later, d, LoadLines([lines[i]], c));
    } else {
      TakeAll(lines);
      Empty(lines + [DesiredLine(p)]);
    }
  }

  /** The persisted profile is the loaded one exactly when no later effective line sets another. */
  lemma PersistedProfileLoaded(file: Option<string>, p: ViewProfile)
    ensures Load(Some(Persist(file, p))).viewProfile == p <==>
            LastProfile(LaterLines(FileLines(file))) in {None, Some(p)}
  {
    hide ParseLine, Trim, IsProfileLine, ProfileSetBy, DesiredLine, ReadLines, WriteLines;
    var lines := FileLines(file);
    var i := FirstProfileLine(lines);
    LoadPersisted(file, p);
    PersistShape(lines, p);
    DesiredLineParses(p);
    LoadOne(DesiredLine(p), DEFAULTS);
    LastProfileAppend(lines[..i] + [DesiredLine(p)], LaterLines(lines));
    LastProfileAppend(lines[..i], [DesiredLine(p)]);
    LoadedProfile(PersistLines(lines, p), DEFAULTS);
  }

  /** In particular with at most one active profile line. */
  lemma {:induction false} NoOtherLineNoProfile(lines: seq<string>)
    requires forall k | 0 <= k < |lines| :: !IsProfileLine(lines[k])
    ensures LastProfile(lines) == None
  {
    if lines != [] {
      NoOtherLineNoProfile(lines[..|lines| - 1]);
      assert !IsProfileLine(lines[|lines| - 1]);
    }
  }

  lemma SingleProfileLineLoaded(file: Option<string>, p: ViewProfile)
    requires forall j, k | 0 <= j < k < |FileLines(file)| ::
               !(IsProfileLine(FileLines(file)[j]) && IsProfileLine(FileLines(file)[k]))
    ensures Load(Some(Persist(file, p))).viewProfile == p
  {
    hide IsProfileLine, ReadLines, WriteLines, LoadLines, FirstProfileLine;
    FirstProfileLineFinds(FileLines(file));
    NoOtherLineNoProfile(LaterLines(FileLines(file)));
    PersistedProfileLoaded(file, p);
  }

  /** A second persist overrides the first as if it had been done alone. */
  lemma PersistTwice(file: Option<string>, p: ViewProfile, q: ViewProfile)
    ensures Persist(Some(Persist(file, p)), q) == Persist(file, q)
  {
    hide ReadLines, WriteLines, PersistLines;
    LoadPersisted(file, p);
    PersistLinesTwice(FileLines(file), p, q);
  }

  lemma SamePlace(lines: seq<string>, p: ViewProfile)
    ensures FirstProfileLine(PersistLines(lines, p)) == FirstProfileLine(lines) < |PersistLines(lines, p)|
  {
    hide IsProfileLine, DesiredLine, FirstProfileLine, ProfileSetBy, NoNewline;
    FirstProfileLineFinds(lines);
    DesiredLineParses(p);
    UpdateOrAppend(lines, FirstProfileLine(lines), DesiredLine(p));
    var once := PersistLines(lines, p);
    hide PersistLines;
    FirstProfileLineIs(once, FirstProfileLine(lines));
  }

  lemma PersistLinesTwice(lines: seq<string>, p: ViewProfile, q: ViewProfile)
    ensures PersistLines(PersistLines(lines, p), q) == PersistLines(lines, q)
  {
    SamePlace(lines, p);
    hide IsProfileLine, DesiredLine, FirstProfileLine;
    var i := FirstProfileLine(lines);
    if i < |lines| {
      UpdateTwice(lines, i, DesiredLine(p), DesiredLine(q));
    } else {
      UpdateLast(lines, DesiredLine(p), DesiredLine(q));
    }
  }
}
