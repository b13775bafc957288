/** The property map, its integer view and the log-level filter of pluginbase.PluginBase. */
module PluginBaseModel {
  import opened Wrappers
  import opened JavaText
  import opened PropertiesKeys

  /** `parseInt(value)`: `Integer.parseInt` of the untrimmed text, -1 for null, blank or non-numeric input. */
  function ParseIntOrMinusOne(value: Option<string>): int {
    if value.None? || IsBlank(value.value) then -1
    else ParseInt(value.value).GetOr(-1)
  }

  /** A missing or blank value reads as -1. */
  lemma ParseIntOfNothing(value: Option<string>)
    requires value.None? || IsBlank(value.value)
    ensures ParseIntOrMinusOne(value) == -1
  {
  }

  /** The text of an `int` reads back as that `int`. */
  lemma ParseIntOfIntText(n: int)
    requires InInt32(n)
    ensures ParseIntOrMinusOne(Some(IntToString(n))) == n
  {
    var s := IntToString(n);
    TrimLeftStopsAtNonSpace(s);
    TrimRightNonEmpty(s);
    BlankIffAllSpace(s);
    assert s[0] > ' ';
    ParseIntToString(n);
  }

  /** The text is not trimmed before parsing: a numeral with a space around it reads as -1. */
  lemma ParseIntUntrimmed(n: int)
    ensures ParseIntOrMinusOne(Some(" " + IntToString(n))) == -1
    ensures ParseIntOrMinusOne(Some(IntToString(n) + " ")) == -1
  {
    var s := IntToString(n) + " ";
    assert s[|s| - 1] == ' ';
    assert (" " + IntToString(n))[0] == ' ';
  }

  /** Where a file of properties is read from: the backup, if present, wins over the main file. */
  datatype PropSource = BackupFile | MainFile | NoFile

  /** `loadProp()`'s choice between "prop.txt.old" and "prop.txt". */
  function LoadPropSource(backupExists: bool, mainExists: bool): (s: PropSource)
    ensures s == BackupFile <==> backupExists
    ensures s == MainFile <==> !backupExists && mainExists
    ensures s == NoFile <==> !backupExists && !mainExists
  {
    if backupExists then BackupFile else if mainExists then MainFile else NoFile
  }

  /** `prop.getProperty(name)`. */
  function Lookup(prop: map<string, string>, name: string): Option<string> {
    if name in prop then Some(prop[name]) else None
  }

  /** The value of a key, if the key is given (`getProp`). */
  function KeyLookup(prop: map<string, string>, key: Option<PropertiesKey>): (v: Option<string>)
    ensures key.None? ==> v.None?
  {
    if key.None? then None else Lookup(prop, Name(key.value))
  }

  /** Storing an `int` with `setIntProp` and reading it with `getIntProp` gives it back. */
  lemma IntPropRoundTrip(prop: map<string, string>, key: PropertiesKey, n: int)
    requires InInt32(n)
    ensures ParseIntOrMinusOne(KeyLookup(prop[Name(key) := IntToString(n)], Some(key))) == n
  {
    ParseIntOfIntText(n);
  }

  /** Setting one key leaves every other key as it was. */
  lemma SetPropFrames(prop: map<string, string>, key: PropertiesKey, value: string, other: PropertiesKey)
    requires other != key
    ensures KeyLookup(prop[Name(key) := value], Some(other)) == KeyLookup(prop, Some(other))
  {
    if Name(other) == Name(key) {
      NameInjective(other, key);
    }
  }

  class PluginBase {
    var prop: map<string, string>
    /** The lines appended to each log file. */
    var logs: map<string, seq<string>>

    /**
     * Loads the properties from the backup file when it exists, else from the main file,
     * else starts empty; a missing log level is then set to 0.
     */
    constructor (backup: Option<map<string, string>>, main: Option<map<string, string>>)
      ensures logs == map[]
      ensures var loaded := match LoadPropSource(backup.Some?, main.Some?)
                            case BackupFile => backup.value
                            case MainFile => main.value
                            case NoFile => map[];
        prop == if Name(LogLevel) in loaded then loaded else loaded[Name(LogLevel) := "0"]
    {
      var loaded := if backup.Some? then backup.value else if main.Some? then main.value else map[];
      prop := if Name(LogLevel) in loaded then loaded else loaded[Name(LogLevel) := "0"];
      logs := map[];
    }

    function GetProp(key: Option<PropertiesKey>): Option<string>
      reads this
    {
      KeyLookup(prop, key)
    }

    /** `getIntProp(key)` is `parseInt(getProp(key))`, so a missing key gives -1. */
    function GetIntProp(key: Option<PropertiesKey>): (n: int)
      reads this
      ensures GetProp(key).None? ==> n == -1
    {
      ParseIntOrMinusOne(GetProp(key))
    }

    /** `setProp`: a null key or value changes nothing. */
    method SetProp(key: Option<PropertiesKey>, value: Option<string>)
      modifies this`prop
      ensures key.None? || value.None? ==> prop == old(prop)
      ensures key.Some? && value.Some? ==> prop == old(prop)[Name(key.value) := value.value]
    {
      if key.None? || value.None? {
        return;
      }
      prop := prop[Name(key.value) := value.value];
    }

    /** `setIntProp`: stores the decimal text, which `getIntProp` reads back. */
    method SetIntProp(key: Option<PropertiesKey>, value: int)
      modifies this`prop
      ensures key.None? ==> prop == old(prop)
      ensures key.Some? ==> prop == old(prop)[Name(key.value) := IntToString(value)]
      ensures key.Some? && InInt32(value) ==> GetIntProp(key) == value
    {
      SetProp(key, Some(IntToString(value)));
      if key.Some? && InInt32(value) {
        IntPropRoundTrip(old(prop), key.value, value);
      }
    }

    method RemoveProp(key: Option<PropertiesKey>)
      modifies this`prop
      ensures key.None? ==> prop == old(prop)
      ensures key.Some? ==> prop == old(prop) - {Name(key.value)}
    {
      if key.None? {
        return;
      }
      prop := prop - {Name(key.value)};
    }

    /** `removeProp(String)`, used for property names that are not keys. */
    method RemovePropNamed(name: Option<string>)
      modifies this`prop
      ensures name.None? ==> prop == old(prop)
      ensures name.Some? ==> prop == old(prop) - {name.value}
    {
      if name.None? {
        return;
      }
      prop := prop - {name.value};
    }

    /** The lines logged to a file so far. */
    function LogLines(fileName: string): seq<string>
      reads this
    {
      if fileName in logs then logs[fileName] else []
    }

    /**
     * `logFile(name, text, level)`: a line "<date>  <text>" is appended only when the level
     * does not exceed the configured log level.
     */
    method LogFile(fileName: string, text: string, level: int, date: string) returns (written: bool)
      modifies this`logs
      ensures written <==> level <= GetIntProp(Some(LogLevel))
      ensures written ==> logs == old(logs)[fileName := old(LogLines(fileName)) + [date + "  " + text + "\n"]]
      ensures !written ==> logs == old(logs)
    {
      written := level <= GetIntProp(Some(LogLevel));
      if written {
        logs := logs[fileName := LogLines(fileName) + [date + "  " + text + "\n"]];
      }
    }
  }
}
