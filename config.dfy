/** CalculatorConfig: a string-to-string property table, filled with the built-in
    defaults and then overlaid by the external properties file or, when that cannot
    be read, by the classpath resource; read through typed getters that fall back to
    a default when a value is absent or unusable. The files themselves are inputs
    here: a file that could not be opened is None, one that was read is the map of
    its entries. */
module Config {
  import opened Wrappers
  import opened JavaText
  import opened Numerals
  import opened Doubles

  type Properties = map<string, string>

  /** The entries loadDefaultProperties writes. */
  const DEFAULTS: Properties := map[
    "calculation.precision" := "4",
    "calculation.max.digits" := "15",
    "calculation.high.precision.enabled" := "false",
    "calculation.rounding.mode" := "HALF_UP",
    "memory.persistent" := "false",
    "memory.max.slots" := "1",
    "memory.auto.clear.on.startup" := "true",
    "history.max.entries" := "100",
    "history.auto.save.enabled" := "true",
    "history.file.path" := ".calculator/history.txt",
    "history.clear.on.startup" := "false",
    "ui.theme" := "default",
    "ui.window.width" := "400",
    "ui.window.height" := "600",
    "ui.keyboard.shortcuts.enabled" := "true",
    "ui.show.operation.preview" := "true",
    "ui.sound.effects.enabled" := "false",
    "export.default.format" := "csv",
    "export.include.timestamp" := "true",
    "export.default.directory" := "Documents/Calculator",
    "export.auto.filename" := "true",
    "debug.logging.enabled" := "false",
    "debug.log.file.path" := ".calculator/debug.log",
    "validation.enabled" := "true",
    "validation.strict.mode" := "false",
    "validation.max.number.value" := "1E15",
    "validation.min.number.value" := "-1E15",
    "performance.caching.enabled" := "false",
    "performance.cache.max.size" := "50",
    "performance.multithreading.enabled" := "false"
  ]

  /** The map whose entries a load writes over the table: the external file when it
      could be read, otherwise the classpath resource, otherwise nothing. */
  function Overlay(external: Option<Properties>, classpath: Option<Properties>): Properties {
    if external.Some? then external.value else classpath.GetOr(map[])
  }

  /** The table after loadConfiguration on a table that held previous: defaults first,
      then the overlay. Nothing is removed. */
  function Loaded(previous: Properties, external: Option<Properties>, classpath: Option<Properties>): (p: Properties)
    ensures forall k :: k in p <==> k in previous || k in DEFAULTS || k in Overlay(external, classpath)
    ensures forall k :: k in Overlay(external, classpath) ==> p[k] == Overlay(external, classpath)[k]
    ensures forall k :: k in DEFAULTS && k !in Overlay(external, classpath) ==> p[k] == DEFAULTS[k]
    ensures forall k :: k in previous && k !in DEFAULTS && k !in Overlay(external, classpath) ==> p[k] == previous[k]
  {
    previous + DEFAULTS + Overlay(external, classpath)
  }

  /** A load never leaves fewer entries than the defaults table holds, which is what
      toString counts after any load. */
  lemma LoadedHoldsDefaults(previous: Properties, external: Option<Properties>, classpath: Option<Properties>)
    ensures |DEFAULTS| <= |Loaded(previous, external, classpath)|
  {
    var p := Loaded(previous, external, classpath);
    assert DEFAULTS.Keys <= p.Keys;
    SubsetCard(DEFAULTS.Keys, p.Keys);
  }

  lemma {:induction false} SubsetCard(a: set<string>, b: set<string>)
    requires a <= b
    ensures |a| <= |b|
    decreases |a|
  {
    if a != {} {
      var x :| x in a;
      SubsetCard(a - {x}, b - {x});
    }
  }

  // ---------------------------------------------------------------------------
  // Lookups

  /** properties.getProperty(key, defaultValue) */
  function GetStringProperty(properties: Properties, key: string, defaultValue: string): (r: string)
    ensures key in properties ==> r == properties[key]
    ensures key !in properties ==> r == defaultValue
  {
    if key in properties then properties[key] else defaultValue
  }

  /** The value stored under key read as an int, if it is one within [minValue, maxValue]. */
  function StoredInt(properties: Properties, key: string, minValue: int, maxValue: int): Option<int> {
    if key !in properties then None
    else
      var parsed := ParseSigned(Trim(properties[key]), INT_MIN, INT_MAX);
      if parsed.Some? && minValue <= parsed.value <= maxValue then parsed else None
  }

  /** getIntProperty: the stored value, trimmed and read by Integer.parseInt, when it lies in
      [minValue, maxValue]; the default when the key is absent, the value is not an int,
      or it lies outside the range. */
  function GetIntProperty(properties: Properties, key: string, defaultValue: Int32, minValue: Int32, maxValue: Int32): (r: Int32)
    ensures key !in properties ==> r == defaultValue
    ensures key in properties && ParseSigned(Trim(properties[key]), INT_MIN, INT_MAX).None? ==> r == defaultValue
    ensures key in properties && ParseSigned(Trim(properties[key]), INT_MIN, INT_MAX).Some? ==>
      var n := ParseSigned(Trim(properties[key]), INT_MIN, INT_MAX).value;
      r == if minValue <= n <= maxValue then n else defaultValue
    ensures (minValue <= r <= maxValue && key in properties && ParseSigned(Trim(properties[key]), INT_MIN, INT_MAX) == Some(r)) || r == defaultValue
  {
    var stored := StoredInt(properties, key, minValue, maxValue);
    if stored.Some? then stored.value else defaultValue
  }

  /** What getIntProperty promises for one setting: the trimmed stored value when it is an
      int within [minValue, maxValue], the default when the key is absent, the value is not
      an int, or it lies outside the range. */
  predicate IntSettingIs(properties: Properties, key: string, defaultValue: int, minValue: int, maxValue: int, r: int) {
    && (key !in properties ==> r == defaultValue)
    && (key in properties ==>
          var parsed := ParseSigned(Trim(properties[key]), INT_MIN, INT_MAX);
          r == if parsed.Some? && minValue <= parsed.value <= maxValue then parsed.value else defaultValue)
  }

  /** Boolean.parseBoolean: "true" in any mix of cases. */
  predicate ParseBoolean(s: string) {
    ToLowerAscii(s) == "true"
  }

  /** getBooleanProperty: the default only when the key is absent; otherwise whether the
      trimmed value is "true" ignoring case. */
  function GetBooleanProperty(properties: Properties, key: string, defaultValue: bool): (b: bool)
    ensures key !in properties ==> b == defaultValue
    ensures key in properties ==> (b <==> ToLowerAscii(Trim(properties[key])) == "true")
  {
    if key !in properties then defaultValue else ParseBoolean(Trim(properties[key]))
  }

  /** getDoubleProperty: the trimmed value read by Double.parseDouble, or the default when
      the key is absent or the value does not parse. */
  function GetDoubleProperty(jdk: Jdk, properties: Properties, key: string, defaultValue: Double): (d: Double)
    ensures key !in properties ==> d == defaultValue
    ensures key in properties ==> match jdk.parseDouble(Trim(properties[key]))
                                 case Success(v) => d == v
                                 case Failure(_) => d == defaultValue
  {
    if key !in properties then defaultValue
    else match jdk.parseDouble(Trim(properties[key]))
      case Success(v) => v
      case Failure(_) => defaultValue
  }

  /** java.math.RoundingMode */
  datatype RoundingMode = UP | DOWN | CEILING | FLOOR | HALF_UP | HALF_DOWN | HALF_EVEN | UNNECESSARY {
    function Name(): string {
      match this
      case UP => "UP"
      case DOWN => "DOWN"
      case CEILING => "CEILING"
      case FLOOR => "FLOOR"
      case HALF_UP => "HALF_UP"
      case HALF_DOWN => "HALF_DOWN"
      case HALF_EVEN => "HALF_EVEN"
      case UNNECESSARY => "UNNECESSARY"
    }
  }

  /** RoundingMode.valueOf(name): the constant with exactly that name, or None where
      Java throws IllegalArgumentException. */
  function RoundingModeValueOf(name: string): (r: Option<RoundingMode>)
    ensures r.Some? ==> r.value.Name() == name
    ensures r.None? ==> forall m: RoundingMode :: m.Name() != name
  {
    if name == "UP" then Some(UP)
    else if name == "DOWN" then Some(DOWN)
    else if name == "CEILING" then Some(CEILING)
    else if name == "FLOOR" then Some(FLOOR)
    else if name == "HALF_UP" then Some(HALF_UP)
    else if name == "HALF_DOWN" then Some(HALF_DOWN)
    else if name == "HALF_EVEN" then Some(HALF_EVEN)
    else if name == "UNNECESSARY" then Some(UNNECESSARY)
    else None
  }

  /** getRoundingMode: the mode named by the stored value, HALF_UP when absent or not a name. */
  function GetRoundingMode(properties: Properties): (m: RoundingMode)
    ensures "calculation.rounding.mode" in properties && m != HALF_UP ==> m.Name() == properties["calculation.rounding.mode"]
    ensures "calculation.rounding.mode" in properties && (exists n: RoundingMode :: n.Name() == properties["calculation.rounding.mode"])
            ==> m.Name() == properties["calculation.rounding.mode"]
    ensures "calculation.rounding.mode" !in properties ==> m == HALF_UP
  {
    match RoundingModeValueOf(GetStringProperty(properties, "calculation.rounding.mode", "HALF_UP"))
    case Some(mode) => mode
    case None => HALF_UP
  }

  // ---------------------------------------------------------------------------

  class CalculatorConfig {
    var properties: Properties
    var configurationLoaded: bool

    /** The private constructor: an empty table, then loadConfiguration. */
    constructor(external: Option<Properties>, classpath: Option<Properties>)
      ensures properties == Loaded(map[], external, classpath)
      ensures configurationLoaded
    {
      properties := map[];
      configurationLoaded := false;
      new;
      LoadConfiguration(external, classpath);
    }

    method LoadConfiguration(external: Option<Properties>, classpath: Option<Properties>)
      modifies this
      ensures properties == Loaded(old(properties), external, classpath)
      ensures configurationLoaded
    {
      LoadDefaultProperties();
      var loaded := LoadFromExternalFile(external);
      if !loaded {
        LoadFromClasspath(classpath);
      }
      configurationLoaded := true;
    }

    method LoadDefaultProperties()
      modifies this
      ensures properties == old(properties) + DEFAULTS
      ensures configurationLoaded == old(configurationLoaded)
    {
      properties := properties + DEFAULTS;
    }

    /** Loads the external file's entries; false, and nothing loaded, when it cannot be read. */
    method LoadFromExternalFile(external: Option<Properties>) returns (loaded: bool)
      modifies this
      ensures loaded <==> external.Some?
      ensures properties == if external.Some? then old(properties) + external.value else old(properties)
      ensures configurationLoaded == old(configurationLoaded)
    {
      if external.Some? {
        properties := properties + external.value;
        return true;
      }
      return false;
    }

    /** Loads the classpath resource's entries, if it exists and can be read. */
    method LoadFromClasspath(classpath: Option<Properties>)
      modifies this
      ensures properties == old(properties) + classpath.GetOr(map[])
      ensures configurationLoaded == old(configurationLoaded)
    {
      if classpath.Some? {
        properties := properties + classpath.value;
      }
    }

    method ReloadConfiguration(external: Option<Properties>, classpath: Option<Properties>)
      modifies this
      ensures properties == Loaded(old(properties), external, classpath)
      ensures configurationLoaded
    {
      LoadConfiguration(external, classpath);
    }

    function IsConfigurationLoaded(): (b: bool)
      reads this
      ensures b == configurationLoaded
    {
      configurationLoaded
    }

    /** toString: the loaded flag and the number of entries in the table. */
    function ToString(): (s: string)
      reads this
      ensures configurationLoaded ==> s == "CalculatorConfig{loaded=true, properties=" + IntText(|properties|) + "}"
      ensures !configurationLoaded ==> s == "CalculatorConfig{loaded=false, properties=" + IntText(|properties|) + "}"
    {
      var count := IntText(|properties|);
      if configurationLoaded then "CalculatorConfig{loaded=true, properties=" + count + "}"
      else "CalculatorConfig{loaded=false, properties=" + count + "}"
    }

    /** getAllProperties: a copy of the table; a map is a value, so the copy and the
        table cannot affect each other afterwards. */
    function AllProperties(): (copy: Properties)
      reads this
      ensures forall k, d :: GetStringProperty(copy, k, d) == GetStringProperty(properties, k, d)
    {
      properties
    }

    // Calculation settings

    function Precision(): (r: int)
      reads this
      ensures 0 <= r <= 10
      ensures "calculation.precision" !in properties ==> r == 4
      ensures IntSettingIs(properties, "calculation.precision", 4, 0, 10, r)
    {
      GetIntProperty(properties, "calculation.precision", 4, 0, 10)
    }

    function MaxDigits(): (r: int)
      reads this
      ensures 1 <= r <= 20
      ensures "calculation.max.digits" !in properties ==> r == 15
      ensures IntSettingIs(properties, "calculation.max.digits", 15, 1, 20, r)
    {
      GetIntProperty(properties, "calculation.max.digits", 15, 1, 20)
    }

    function IsHighPrecisionEnabled(): (b: bool)
      reads this
      ensures "calculation.high.precision.enabled" !in properties ==> !b
      ensures "calculation.high.precision.enabled" in properties ==> (b <==> ParseBoolean(Trim(properties["calculation.high.precision.enabled"])))
    {
      GetBooleanProperty(properties, "calculation.high.precision.enabled", false)
    }

    function RoundingModeSetting(): (m: RoundingMode)
      reads this
      ensures "calculation.rounding.mode" !in properties ==> m == HALF_UP
      ensures "calculation.rounding.mode" in properties && m != HALF_UP ==> m.Name() == properties["calculation.rounding.mode"]
      ensures "calculation.rounding.mode" in properties && (exists n: RoundingMode :: n.Name() == properties["calculation.rounding.mode"])
              ==> m.Name() == properties["calculation.rounding.mode"]
    {
      GetRoundingMode(properties)
    }

    // Memory settings

    function IsMemoryPersistent(): (b: bool)
      reads this
      ensures "memory.persistent" !in properties ==> !b
      ensures "memory.persistent" in properties ==> (b <==> ParseBoolean(Trim(properties["memory.persistent"])))
    {
      GetBooleanProperty(properties, "memory.persistent", false)
    }

    function MaxMemorySlots(): (r: int)
      reads this
      ensures 1 <= r <= 10
      ensures "memory.max.slots" !in properties ==> r == 1
      ensures IntSettingIs(properties, "memory.max.slots", 1, 1, 10, r)
    {
      GetIntProperty(properties, "memory.max.slots", 1, 1, 10)
    }

    function IsMemoryAutoClearOnStartup(): (b: bool)
      reads this
      ensures "memory.auto.clear.on.startup" !in properties ==> b
      ensures "memory.auto.clear.on.startup" in properties ==> (b <==> ParseBoolean(Trim(properties["memory.auto.clear.on.startup"])))
    {
      GetBooleanProperty(properties, "memory.auto.clear.on.startup", true)
    }

    // History settings

    function MaxHistoryEntries(): (r: int)
      reads this
      ensures 10 <= r <= 1000
      ensures "history.max.entries" !in properties ==> r == 100
      ensures IntSettingIs(properties, "history.max.entries", 100, 10, 1000, r)
    {
      GetIntProperty(properties, "history.max.entries", 100, 10, 1000)
    }

    function IsAutoSaveEnabled(): (b: bool)
      reads this
      ensures "history.auto.save.enabled" !in properties ==> b
      ensures "history.auto.save.enabled" in properties ==> (b <==> ParseBoolean(Trim(properties["history.auto.save.enabled"])))
    {
      GetBooleanProperty(properties, "history.auto.save.enabled", true)
    }

    function HistoryFilePath(): (s: string)
      reads this
      ensures "history.file.path" !in properties ==> s == ".calculator/history.txt"
      ensures "history.file.path" in properties ==> s == properties["history.file.path"]
    {
      GetStringProperty(properties, "history.file.path", ".calculator/history.txt")
    }

    function IsHistoryClearOnStartup(): (b: bool)
      reads this
      ensures "history.clear.on.startup" !in properties ==> !b
      ensures "history.clear.on.startup" in properties ==> (b <==> ParseBoolean(Trim(properties["history.clear.on.startup"])))
    {
      GetBooleanProperty(properties, "history.clear.on.startup", false)
    }

    // UI settings

    function Theme(): (s: string)
      reads this
      ensures "ui.theme" !in properties ==> s == "default"
      ensures "ui.theme" in properties ==> s == properties["ui.theme"]
    {
      GetStringProperty(properties, "ui.theme", "default")
    }

    function WindowWidth(): (r: int)
      reads this
      ensures 300 <= r <= 1200
      ensures "ui.window.width" !in properties ==> r == 400
      ensures IntSettingIs(properties, "ui.window.width", 400, 300, 1200, r)
    {
      GetIntProperty(properties, "ui.window.width", 400, 300, 1200)
    }

    function WindowHeight(): (r: int)
      reads this
      ensures 400 <= r <= 800
      ensures "ui.window.height" !in properties ==> r == 600
      ensures IntSettingIs(properties, "ui.window.height", 600, 400, 800, r)
    {
      GetIntProperty(properties, "ui.window.height", 600, 400, 800)
    }

    function IsKeyboardShortcutsEnabled(): (b: bool)
      reads this
      ensures "ui.keyboard.shortcuts.enabled" !in properties ==> b
      ensures "ui.keyboard.shortcuts.enabled" in properties ==> (b <==> ParseBoolean(Trim(properties["ui.keyboard.shortcuts.enabled"])))
    {
      GetBooleanProperty(properties, "ui.keyboard.shortcuts.enabled", true)
    }

    function IsOperationPreviewEnabled(): (b: bool)
      reads this
      ensures "ui.show.operation.preview" !in properties ==> b
      ensures "ui.show.operation.preview" in properties ==> (b <==> ParseBoolean(Trim(properties["ui.show.operation.preview"])))
    {
      GetBooleanProperty(properties, "ui.show.operation.preview", true)
    }

    function IsSoundEffectsEnabled(): (b: bool)
      reads this
      ensures "ui.sound.effects.enabled" !in properties ==> !b
      ensures "ui.sound.effects.enabled" in properties ==> (b <==> ParseBoolean(Trim(properties["ui.sound.effects.enabled"])))
    {
      GetBooleanProperty(properties, "ui.sound.effects.enabled", false)
    }

    // Export settings

    function DefaultExportFormat(): (s: string)
      reads this
      ensures "export.default.format" !in properties ==> s == "csv"
      ensures "export.default.format" in properties ==> s == properties["export.default.format"]
    {
      GetStringProperty(properties, "export.default.format", "csv")
    }

    function IsExportTimestampEnabled(): (b: bool)
      reads this
      ensures "export.include.timestamp" !in properties ==> b
      ensures "export.include.timestamp" in properties ==> (b <==> ParseBoolean(Trim(properties["export.include.timestamp"])))
    {
      GetBooleanProperty(properties, "export.include.timestamp", true)
    }

    function DefaultExportDirectory(): (s: string)
      reads this
      ensures "export.default.directory" !in properties ==> s == "Documents/Calculator"
      ensures "export.default.directory" in properties ==> s == properties["export.default.directory"]
    {
      GetStringProperty(properties, "export.default.directory", "Documents/Calculator")
    }

    function IsAutoFilenameEnabled(): (b: bool)
      reads this
      ensures "export.auto.filename" !in properties ==> b
      ensures "export.auto.filename" in properties ==> (b <==> ParseBoolean(Trim(properties["export.auto.filename"])))
    {
      GetBooleanProperty(properties, "export.auto.filename", true)
    }

    // Validation settings

    function IsValidationEnabled(): (b: bool)
      reads this
      ensures "validation.enabled" !in properties ==> b
      ensures "validation.enabled" in properties ==> (b <==> ParseBoolean(Trim(properties["validation.enabled"])))
    {
      GetBooleanProperty(properties, "validation.enabled", true)
    }

    function IsStrictModeEnabled(): (b: bool)
      reads this
      ensures "validation.strict.mode" !in properties ==> !b
      ensures "validation.strict.mode" in properties ==> (b <==> ParseBoolean(Trim(properties["validation.strict.mode"])))
    {
      GetBooleanProperty(properties, "validation.strict.mode", false)
    }

    function MaxNumberValue(jdk: Jdk): (d: Double)
      reads this
      ensures "validation.max.number.value" !in properties ==> d == Finite(1000000000000000.0)
      ensures "validation.max.number.value" in properties ==> match jdk.parseDouble(Trim(properties["validation.max.number.value"]))
                                 case Success(v) => d == v
                                 case Failure(_) => d == Finite(1000000000000000.0)
    {
      GetDoubleProperty(jdk, properties, "validation.max.number.value", Finite(1000000000000000.0))
    }

    function MinNumberValue(jdk: Jdk): (d: Double)
      reads this
      ensures "validation.min.number.value" !in properties ==> d == Finite(-1000000000000000.0)
      ensures "validation.min.number.value" in properties ==> match jdk.parseDouble(Trim(properties["validation.min.number.value"]))
                                 case Success(v) => d == v
                                 case Failure(_) => d == Finite(-1000000000000000.0)
    {
      GetDoubleProperty(jdk, properties, "validation.min.number.value", Finite(-1000000000000000.0))
    }
  }

  // ---------------------------------------------------------------------------

  /** An int getter always answers within its bounds when its default does. */
  lemma IntPropertyInRange(properties: Properties, key: string, defaultValue: Int32, minValue: Int32, maxValue: Int32)
    requires minValue <= defaultValue <= maxValue
    ensures minValue <= GetIntProperty(properties, key, defaultValue, minValue, maxValue) <= maxValue
  {
  }

  /** A stored int within range is returned as stored, whatever the surrounding blanks. */
  lemma IntPropertyStored(properties: Properties, key: string, defaultValue: Int32, minValue: Int32, maxValue: Int32, n: Int32)
    requires key in properties && Trim(properties[key]) == IntText(n) && minValue <= n <= maxValue
    ensures GetIntProperty(properties, key, defaultValue, minValue, maxValue) == n
  {
    ParseIntText(n, INT_MIN, INT_MAX);
  }

  /** Every rounding mode is found by its own name, and by no other. */
  lemma RoundingModeNames(m: RoundingMode, name: string)
    ensures RoundingModeValueOf(m.Name()) == Some(m)
    ensures RoundingModeValueOf(name) == Some(m) ==> name == m.Name()
  {
  }

  /** A value that is not a rounding mode's exact name falls back to HALF_UP; names are
      case-sensitive and not trimmed. */
  lemma RoundingModeFallback()
    ensures GetRoundingMode(map["calculation.rounding.mode" := "half_up"]) == HALF_UP
    ensures GetRoundingMode(map["calculation.rounding.mode" := " FLOOR"]) == HALF_UP
    ensures GetRoundingMode(map["calculation.rounding.mode" := "FLOOR"]) == FLOOR
  {
  }

  /** Any value other than "true" (ignoring case and surrounding blanks) reads as false,
      even when the default is true. */
  lemma BooleanPropertyExamples()
    ensures !GetBooleanProperty(map["k" := "maybe"], "k", true)
    ensures GetBooleanProperty(map[], "k", true)
  {
    TrimInner("maybe");
    assert |ToLowerAscii("maybe")| == 5;
  }

  /** The value is trimmed and compared ignoring case. */
  lemma BooleanPropertyTrimmed()
    ensures GetBooleanProperty(map["k" := " TRUE "], "k", false)
  {
    TrimBlankTrue();
    var t := ToLowerAscii("TRUE");
    assert t[0] == 't' && t[1] == 'r' && t[2] == 'u' && t[3] == 'e';
    assert t == "true";
  }

  lemma TrimBlankTrue()
    ensures Trim(" TRUE ") == "TRUE"
  {
    assert LeadingTrimmable(" TRUE ") == 1;
    assert " TRUE "[1..] == "TRUE ";
    assert TrailingTrimmable("TRUE ") == 1;
    assert "TRUE "[..4] == "TRUE";
  }

  /** The default table holds the precision getter's fallback, 4. */
  lemma PrecisionDefaultAgrees()
    ensures GetIntProperty(DEFAULTS, "calculation.precision", 4, 0, 10) == 4
  {
    assert IntText(4) == "4";
    DefaultInt("calculation.precision", 4, 0, 10);
  }

  /** The default table holds the history-size getter's fallback, 100. */
  lemma HistoryDefaultAgrees()
    ensures GetIntProperty(DEFAULTS, "history.max.entries", 100, 10, 1000) == 100
  {
    assert NatText(10) == "10";
    assert IntText(100) == "100";
    DefaultInt("history.max.entries", 100, 10, 1000);
  }

  /** With only the defaults loaded, validation is on, strict mode is off and rounding is HALF_UP. */
  lemma DefaultSwitches()
    ensures GetRoundingMode(DEFAULTS) == HALF_UP
    ensures GetBooleanProperty(DEFAULTS, "validation.enabled", true)
    ensures !GetBooleanProperty(DEFAULTS, "validation.strict.mode", false)
  {
    DefaultRoundingMode();
    DefaultValidationOn();
    DefaultStrictOff();
  }

  lemma DefaultRoundingMode()
    ensures GetRoundingMode(DEFAULTS) == HALF_UP
  {
    assert DEFAULTS["calculation.rounding.mode"] == "HALF_UP";
    assert RoundingModeValueOf("HALF_UP") == Some(HALF_UP);
  }

  lemma DefaultValidationOn()
    ensures GetBooleanProperty(DEFAULTS, "validation.enabled", true)
  {
    assert DEFAULTS["validation.enabled"] == "true";
    TrimInner("true");
  }

  lemma DefaultStrictOff()
    ensures !GetBooleanProperty(DEFAULTS, "validation.strict.mode", false)
  {
    assert DEFAULTS["validation.strict.mode"] == "false";
    TrimInner("false");
  }

  /** A default entry that is the text of an int in range is read back as that int. */
  lemma DefaultInt(key: string, n: Int32, minValue: Int32, maxValue: Int32)
    requires key in DEFAULTS && DEFAULTS[key] == IntText(n) && minValue <= n <= maxValue
    ensures GetIntProperty(DEFAULTS, key, n, minValue, maxValue) == n
  {
    ParseIntText(n, INT_MIN, INT_MAX);
    TrimInner(IntText(n));
  }
}
