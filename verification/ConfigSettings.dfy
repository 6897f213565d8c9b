/** What each line of the configuration file sets. */
module ConfigSettings {
  import opened Wrappers
  import opened Arithmetic
  import opened Text
  import opened Snapshots
  import opened ProcessOrder
  import opened InputDecoder
  import opened InputConverse
  import opened Config
  import opened ConfigFacts

  // ----- numbers -----

  /** A number, then nothing but white space; a zero byte ends the text for the C library. */
  ghost predicate IsIntText(value: string, v: int) {
    exists n: Number, tail ::
      IsNumber(n) && AllSpaces(tail) && CString(value) == TextOfNumber(n) + tail && v == NumberValue(n) && FitsInt(v)
  }

  lemma ParseIntIsScan(value: string)
    ensures ParseInt(value) ==
            match ScanInt(CString(value))
            case None => None
            case Some((v, rest)) => if AllSpaces(rest) && FitsInt(v) then Some(v) else None
  {
    hide CString, SkipSpaces, DigitSpan, ValueOf, AllSpaces, FitsInt;
  }

  /** A value is read as a number exactly when it is one, fits an int and only white space follows. */
  lemma ParseIntIff(value: string, v: int)
    ensures ParseInt(value) == Some(v) <==> IsIntText(value, v)
  {
    ParseIntIsScan(value);
    hide ParseInt, CString, ScanInt, IsNumber, TextOfNumber, NumberValue, FitsInt;
    var c := CString(value);
    if IsIntText(value, v) {
      var n: Number, tail :|
        IsNumber(n) && AllSpaces(tail) && c == TextOfNumber(n) + tail && v == NumberValue(n) && FitsInt(v);
      SpacesAreNoDigits(tail);
      ScanReadsNumber(n, tail);
    }
    if ParseInt(value) == Some(v) {
      ScannedIsNumber(c);
      var n: Number :| IsNumber(n) && NumberValue(n) == ScanInt(c).value.0 && c == TextOfNumber(n) + ScanInt(c).value.1;
      assert AllSpaces(ScanInt(c).value.1);
    }
  }

  lemma SpacesAreNoDigits(tail: string)
    requires AllSpaces(tail)
    ensures NoDigitFirst(tail)
  {
  }

  /** What a missing or empty file loads. */
  lemma DefaultsAre()
    ensures Load(None) == Load(Some("")) ==
            AppConfig("apple", 1000, 12, false, 1000, 1000, false, Overview, ByCpu, -1, Alpha)
  {
  }

  // ----- one last line -----

  /** A value as it can stand behind the equals sign. */
  ghost predicate IsValue(value: string) {
    value != "" && Trimmed(value)
  }

  function After(front: seq<string>, key: string, value: string): AppConfig {
    LoadLines(front + [key + ("=" + value)], DEFAULTS)
  }

  function Before(front: seq<string>): AppConfig {
    LoadLines(front, DEFAULTS)
  }

  lemma LastLineApplies(front: seq<string>, key: string, value: string)
    requires IsValue(value) && key != "" && Trimmed(key) && key[0] != '#' && forall i | 0 <= i < |key| :: key[i] != '='
    ensures After(front, key, value) == Apply(SettingOf(key), value, Before(front))
  {
    hide ParseLine, Trim, Apply, SettingOf;
    var line := key + ("=" + value);
    LoadAppend(front, [line], DEFAULTS);
    LoadOne(line, Before(front));
    LineSets(key, value, Before(front));
  }

  lemma LineSets(key: string, value: string, c: AppConfig)
    requires IsValue(value) && key != "" && Trimmed(key) && key[0] != '#' && forall i | 0 <= i < |key| :: key[i] != '='
    ensures ParseLine(Trim(key + ("=" + value)), c) == Apply(SettingOf(key), value, c)
  {
    hide Trim, Apply, SettingOf, KeyValue;
    KeyValueOf(key, value);
  }

  const KEYS := {"theme", "refresh_ms", "process_limit", "demo_mode", "root_sample_ms", "snapshot_interval_ms",
                 "show_cached_memory", "default_view", "sort", "sort_direction", "view_profile"}

  lemma KeysArePlain(key: string)
    requires key in KEYS
    ensures key != "" && Trimmed(key) && key[0] != '#' && forall i | 0 <= i < |key| :: key[i] != '='
  {
  }

  /** The keys of the file. */
  lemma SettingsAre()
    ensures SettingOf("theme") == Theme && SettingOf("refresh_ms") == RefreshMs
    ensures SettingOf("process_limit") == ProcessLimit && SettingOf("demo_mode") == DemoMode
    ensures SettingOf("root_sample_ms") == RootSampleMs && SettingOf("snapshot_interval_ms") == SnapshotIntervalMs
    ensures SettingOf("show_cached_memory") == ShowCachedMemory && SettingOf("default_view") == DefaultView
    ensures SettingOf("sort") == Sort && SettingOf("sort_direction") == SortDirection
    ensures SettingOf("view_profile") == Profile
  {
  }

  lemma KeyLine(front: seq<string>, key: string, value: string)
    requires IsValue(value) && key in KEYS
    ensures After(front, key, value) == Apply(SettingOf(key), value, Before(front))
  {
    KeysArePlain(key);
    hide After, Before, SettingOf, Apply, Trimmed;
    LastLineApplies(front, key, value);
  }

  /** Blank lines, comments and lines without an equals sign change nothing. */
  lemma IgnoredLine(front: seq<string>, line: string)
    requires Trim(line) == "" || Trim(line)[0] == '#' || '=' !in Trim(line)
    ensures LoadLines(front + [line], DEFAULTS) == Before(front)
  {
    LoadAppend(front, [line], DEFAULTS);
    LoadOne(line, Before(front));
    var t := Trim(line);
    assert t == "" || t[0] == '#' || IndexOf(t, '=') == |t|;
    hide Trim, IndexOf, Apply, SettingOf;
  }

  function Between(v: int, low: int, high: int): int {
    if v < low then low else if v > high then high else v
  }

  /** A last line with a number sets it, moved into its range. */
  lemma NumberLine(front: seq<string>, value: string, v: int)
    requires IsValue(value) && IsIntText(value, v)
    ensures After(front, "refresh_ms", value) == Before(front).(refreshMs := Between(v, 100, 60000))
    ensures After(front, "process_limit", value) == Before(front).(processLimit := Between(v, 4, 1000))
    ensures After(front, "root_sample_ms", value) == Before(front).(rootSampleMs := Between(v, 250, 60000))
    ensures After(front, "snapshot_interval_ms", value) == Before(front).(snapshotIntervalMs := Between(v, 100, 60000))
  {
    ParseIntIff(value, v);
    NumberKeys(front, value);
    hide After, Before, ParseInt, IsIntText, Trimmed;
  }

  lemma NumberKeys(front: seq<string>, value: string)
    requires IsValue(value)
    ensures var c := Before(front);
            && After(front, "refresh_ms", value) == c.(refreshMs := ParseClamped(value, c.refreshMs, 100, 60000))
            && After(front, "process_limit", value) == c.(processLimit := ParseClamped(value, c.processLimit, 4, 1000))
            && After(front, "root_sample_ms", value) == c.(rootSampleMs := ParseClamped(value, c.rootSampleMs, 250, 60000))
            && After(front, "snapshot_interval_ms", value) ==
               c.(snapshotIntervalMs := ParseClamped(value, c.snapshotIntervalMs, 100, 60000))
  {
    hide After, Before, ParseClamped, SettingOf, Trimmed;
    SettingsAre();
    KeyLine(front, "refresh_ms", value);
    KeyLine(front, "process_limit", value);
    KeyLine(front, "root_sample_ms", value);
    KeyLine(front, "snapshot_interval_ms", value);
  }

  /** A last line whose value is no number changes nothing. */
  lemma NoNumberLine(front: seq<string>, key: string, value: string)
    requires IsValue(value) && forall v :: !IsIntText(value, v)
    requires key in {"refresh_ms", "process_limit", "root_sample_ms", "snapshot_interval_ms"}
    ensures After(front, key, value) == Before(front)
  {
    NumberKeys(front, value);
    LoadKeepsRange(front, DEFAULTS);
    NotParsed(value);
    hide After, ParseInt, IsIntText, Trimmed, LoadLines;
  }

  lemma NotParsed(value: string)
    requires forall v :: !IsIntText(value, v)
    ensures ParseInt(value) == None
  {
    hide ParseInt, IsIntText;
    if ParseInt(value).Some? {
      ParseIntIff(value, ParseInt(value).value);
    }
  }

  // ----- texts -----

  // The words below are compared in lower case.

  predicate SaysYes(w: string) {
    w == "1" || w == "true" || w == "yes" || w == "on"
  }

  predicate SaysNo(w: string) {
    w == "0" || w == "false" || w == "no" || w == "off"
  }

  predicate NamesSort(w: string, mode: SortMode) {
    match mode
    case ByPid => w == "pid"
    case ByCpu => w == "cpu" || w == "pcpu"
    case ByMem => w == "mem" || w == "memory"
    case ByTime => w == "time"
    case ByName => w == "name" || w == "command"
    case ByGpuActive => w == "gpu" || w == "gpu_active" || w == "gpu-active"
    case ByIo => w == "io"
    case ByPower => w == "pwr" || w == "power"
  }

  predicate NamesView(w: string, view: ViewMode) {
    match view
    case Overview => w == "overview" || w == "main"
    case SystemIo => w == "system_io" || w == "system-io" || w == "io"
    case GpuActiveView => w == "gpu_active" || w == "gpu-active" || w == "gpu"
  }

  predicate NamesDirection(w: string, direction: int) {
    if direction == 1 then w == "asc" || w == "ascending" || w == "1"
    else direction == -1 && (w == "desc" || w == "descending" || w == "-1")
  }

  lemma TextKeys(front: seq<string>, value: string)
    requires IsValue(value)
    ensures var c := Before(front);
            && After(front, "theme", value) == c.(theme := value)
            && After(front, "demo_mode", value) == c.(demoMode := ParseBool(value, c.demoMode))
            && After(front, "show_cached_memory", value) == c.(showCachedMemory := ParseBool(value, c.showCachedMemory))
            && After(front, "default_view", value) == c.(defaultView := ParseViewMode(value, c.defaultView))
            && After(front, "sort_direction", value) == c.(sortDirection := ParseSortDirection(value, c.sortDirection))
            && After(front, "view_profile", value) == c.(viewProfile := ProfileOrAlpha(value))
            && var mode := ParseSortMode(value, c.sort);
               After(front, "sort", value) == c.(sort := mode, sortDirection := DefaultSortDirection(mode))
  {
    hide After, Before, ParseBool, ParseViewMode, ParseSortMode, ParseSortDirection, ProfileOrAlpha, SettingOf,
         DefaultSortDirection, Trimmed;
    SettingsAre();
    KeyLine(front, "theme", value);
    KeyLine(front, "demo_mode", value);
    KeyLine(front, "show_cached_memory", value);
    KeyLine(front, "default_view", value);
    KeyLine(front, "sort_direction", value);
    KeyLine(front, "view_profile", value);
    KeyLine(front, "sort", value);
  }

  /** The theme is taken as it stands; yes and no are understood in four words each, and other words change nothing. */
  lemma SwitchLine(front: seq<string>, value: string)
    requires IsValue(value)
    ensures var c, w := Before(front), Lower(value);
            && After(front, "theme", value) == c.(theme := value)
            && (SaysYes(w) ==> After(front, "demo_mode", value) == c.(demoMode := true))
            && (SaysYes(w) ==> After(front, "show_cached_memory", value) == c.(showCachedMemory := true))
            && (SaysNo(w) ==> After(front, "demo_mode", value) == c.(demoMode := false))
            && (SaysNo(w) ==> After(front, "show_cached_memory", value) == c.(showCachedMemory := false))
            && (!SaysYes(w) && !SaysNo(w) ==>
                  After(front, "demo_mode", value) == c == After(front, "show_cached_memory", value))
  {
    TextKeys(front, value);
    BoolIs(value, Before(front).demoMode);
    BoolIs(value, Before(front).showCachedMemory);
    hide After, Before, Lower, ParseBool, SaysYes, SaysNo, Trimmed;
  }

  lemma BoolIs(value: string, fallback: bool)
    requires Trimmed(value)
    ensures var w := Lower(value);
            && (SaysYes(w) ==> ParseBool(value, fallback) && !SaysNo(w))
            && (SaysNo(w) ==> !ParseBool(value, fallback))
            && (!SaysYes(w) && !SaysNo(w) ==> ParseBool(value, fallback) == fallback)
  {
    TrimTrims(value);
    hide Trim, Lower, Trimmed;
  }

  /** The sort mode with the direction that suits it: upwards for pids and names, otherwise downwards.  An unknown
      mode keeps the present one. */
  lemma SortLine(front: seq<string>, value: string, mode: SortMode)
    requires IsValue(value)
    requires NamesSort(Lower(value), mode) ||
             (mode == Before(front).sort && forall m :: !NamesSort(Lower(value), m))
    ensures After(front, "sort", value) ==
            Before(front).(sort := mode, sortDirection := if mode == ByPid || mode == ByName then 1 else -1)
  {
    TextKeys(front, value);
    SortModeIs(value, Before(front).sort, mode);
    hide After, Before, Lower, ParseSortMode, NamesSort, Trimmed;
  }

  lemma SortModeIs(value: string, fallback: SortMode, mode: SortMode)
    requires Trimmed(value)
    ensures NamesSort(Lower(value), mode) ==> ParseSortMode(value, fallback) == mode
    ensures (forall m :: !NamesSort(Lower(value), m)) ==> ParseSortMode(value, fallback) == fallback
  {
    TrimTrims(value);
    var w := Lower(value);
    hide Trim, Lower, Trimmed;
    assert forall m :: NamesSort(w, m) ==> w == "pid" || w == "cpu" || w == "pcpu" || w == "mem" || w == "memory" ||
                                           w == "time" || w == "name" || w == "command" || w == "gpu" ||
                                           w == "gpu_active" || w == "gpu-active" || w == "io" || w == "pwr" || w == "power";
    assert NamesSort(w, ByPid) || NamesSort(w, ByCpu) || NamesSort(w, ByMem) || NamesSort(w, ByTime) ||
           NamesSort(w, ByName) || NamesSort(w, ByGpuActive) || NamesSort(w, ByIo) || NamesSort(w, ByPower) ||
           ParseSortMode(value, fallback) == fallback;
  }

  /** The direction, or the present one when the word is unknown. */
  lemma DirectionLine(front: seq<string>, value: string, direction: int)
    requires IsValue(value)
    requires NamesDirection(Lower(value), direction) ||
             (direction == Before(front).sortDirection && forall d :: !NamesDirection(Lower(value), d))
    ensures After(front, "sort_direction", value) == Before(front).(sortDirection := direction)
  {
    TextKeys(front, value);
    DirectionIs(value, Before(front).sortDirection, direction);
    hide After, Before, Lower, ParseSortDirection, NamesDirection, Trimmed;
  }

  lemma DirectionIs(value: string, fallback: int, direction: int)
    requires Trimmed(value)
    ensures NamesDirection(Lower(value), direction) ==> ParseSortDirection(value, fallback) == direction
    ensures (forall d :: !NamesDirection(Lower(value), d)) ==> ParseSortDirection(value, fallback) == fallback
  {
    TrimTrims(value);
    hide Trim, Lower, Trimmed;
    assert NamesDirection(Lower(value), 1) || NamesDirection(Lower(value), -1) ||
           ParseSortDirection(value, fallback) == fallback;
  }

  /** The first view, or the present one when the word is unknown. */
  lemma ViewLine(front: seq<string>, value: string, view: ViewMode)
    requires IsValue(value)
    requires NamesView(Lower(value), view) ||
             (view == Before(front).defaultView && forall v :: !NamesView(Lower(value), v))
    ensures After(front, "default_view", value) == Before(front).(defaultView := view)
  {
    TextKeys(front, value);
    ViewIs(value, Before(front).defaultView, view);
    hide After, Before, Lower, ParseViewMode, NamesView, Trimmed;
  }

  lemma ViewIs(value: string, fallback: ViewMode, view: ViewMode)
    requires Trimmed(value)
    ensures NamesView(Lower(value), view) ==> ParseViewMode(value, fallback) == view
    ensures (forall v :: !NamesView(Lower(value), v)) ==> ParseViewMode(value, fallback) == fallback
  {
    TrimTrims(value);
    hide Trim, Lower, Trimmed;
    assert NamesView(Lower(value), Overview) || NamesView(Lower(value), SystemIo) ||
           NamesView(Lower(value), GpuActiveView) || ParseViewMode(value, fallback) == fallback;
  }

  /** The profile: any word but beta means Alpha. */
  lemma ProfileLine(front: seq<string>, value: string)
    requires IsValue(value)
    ensures After(front, "view_profile", value) ==
            Before(front).(viewProfile := if Lower(value) == "beta" then Beta else Alpha)
  {
    TextKeys(front, value);
    TrimTrims(value);
    hide After, Before, Lower, Trim, Trimmed;
  }
}
