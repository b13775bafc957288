/** The property keys of the plugin (keepalive.model.PropertiesKey). */
module PropertiesKeys {
  import opened JavaText

  /** A key's default: none, a String or an Integer. */
  datatype DefaultValue = NoDefault | StringDefault(s: string) | IntDefault(n: int)

  datatype PropertiesKey =
    // common properties
    | DbVersion | Version | LogLevel | Ids | Power | Active | SplitfileTolerance
    | SplitfileTestSize | LogLinks | LogUtc | SingleUrlTimeslot | StackTrace
    // per-URI properties, stored as "<key>_<uriId>"
    | Uri | Blocks | SuccessSegments | Success | History | Segment

  /** `PropertiesKey.values()`, in declaration order. */
  const AllKeys: seq<PropertiesKey> := [
    DbVersion, Version, LogLevel, Ids, Power, Active, SplitfileTolerance,
    SplitfileTestSize, LogLinks, LogUtc, SingleUrlTimeslot, StackTrace,
    Uri, Blocks, SuccessSegments, Success, History, Segment]

  /** `key.toString()`: the property name given at declaration. */
  function Name(k: PropertiesKey): string {
    match k
    case DbVersion => "db_version"
    case Version => "version"
    case LogLevel => "loglevel"
    case Ids => "ids"
    case Power => "power"
    case Active => "active"
    case SplitfileTolerance => "splitfile_tolerance"
    case SplitfileTestSize => "splitfile_test_size"
    case LogLinks => "log_links"
    case LogUtc => "log_utc"
    case SingleUrlTimeslot => "single_url_timeslot"
    case StackTrace => "stackTrace"
    case Uri => "uri"
    case Blocks => "blocks"
    case SuccessSegments => "success_segments"
    case Success => "success"
    case History => "history"
    case Segment => "segment"
  }

  /** `key.getDefault()`. */
  function Default(k: PropertiesKey): DefaultValue {
    match k
    case LogLevel => IntDefault(1)
    case Ids => StringDefault("")
    case Power => IntDefault(6)
    case Active => IntDefault(-1)
    case SplitfileTolerance => IntDefault(66)
    case SplitfileTestSize => IntDefault(18)
    case LogLinks => IntDefault(1)
    case LogUtc => IntDefault(1)
    case SingleUrlTimeslot => IntDefault(4)
    case StackTrace => StringDefault("false")
    case _ => NoDefault
  }

  /** The name of a per-URI property: `key.toString() + "_" + id`. */
  function PerIdName(k: PropertiesKey, id: int): string {
    Name(k) + "_" + IntToString(id)
  }

  /** `values()` lists every key exactly once. */
  lemma AllKeysComplete(k: PropertiesKey)
    ensures k in AllKeys
    ensures forall i, j :: 0 <= i < j < |AllKeys| ==> AllKeys[i] != AllKeys[j]
  {
  }

  /** The version keys and the six per-URI keys have no default; every other key has one. */
  lemma DefaultsTable()
    ensures forall k :: Default(k).NoDefault? <==>
      k in {DbVersion, Version, Uri, Blocks, SuccessSegments, Success, History, Segment}
    ensures Default(Power) == IntDefault(6) && Default(SplitfileTolerance) == IntDefault(66)
    ensures Default(SplitfileTestSize) == IntDefault(18) && Default(SingleUrlTimeslot) == IntDefault(4)
    ensures Default(Active) == IntDefault(-1) && Default(LogLevel) == IntDefault(1)
    ensures Default(Ids) == StringDefault("") && Default(LogLinks) == IntDefault(1)
    ensures Default(LogUtc) == IntDefault(1) && Default(StackTrace) == StringDefault("false")
  {
  }

  /** No two keys share a property name. */
  lemma NameInjective(a: PropertiesKey, b: PropertiesKey)
    requires Name(a) == Name(b)
    ensures a == b
  {
    assert Name(a)[0] == Name(b)[0];
    assert |Name(a)| == |Name(b)|;
  }

  /** Every property name ends in a letter. */
  lemma NameEndsInLetter(k: PropertiesKey)
    ensures |Name(k)| > 0 && !IsDigit(Name(k)[|Name(k)| - 1])
  {
  }

  /** `a + "_" + d` determines `a` and `d` when `d` has no '_'. */
  lemma LastSeparatorSplit(a1: string, d1: string, a2: string, d2: string)
    requires forall k :: 0 <= k < |d1| ==> d1[k] != '_'
    requires forall k :: 0 <= k < |d2| ==> d2[k] != '_'
    requires a1 + "_" + d1 == a2 + "_" + d2
    ensures a1 == a2 && d1 == d2
  {
    var s := a1 + "_" + d1;
    assert s == a2 + "_" + d2;
    forall j | |a1| < j < |s| ensures s[j] != '_' {
      assert s[j] == d1[j - |a1| - 1];
    }
    forall j | |a2| < j < |s| ensures s[j] != '_' {
      assert s[j] == d2[j - |a2| - 1];
    }
    assert s[|a1|] == '_' && s[|a2|] == '_';
    assert |a1| == |a2|;
    assert a1 == s[..|a1|] == a2;
    assert d1 == s[|a1| + 1..] == d2;
  }

  lemma IntToStringHasNoUnderscore(n: int)
    ensures forall k :: 0 <= k < |IntToString(n)| ==> IntToString(n)[k] != '_'
  {
  }

  /** Per-URI property names never collide: the key and the id can be read back from the name. */
  lemma PerIdNameInjective(k1: PropertiesKey, i1: int, k2: PropertiesKey, i2: int)
    requires PerIdName(k1, i1) == PerIdName(k2, i2)
    ensures k1 == k2 && i1 == i2
  {
    IntToStringHasNoUnderscore(i1);
    IntToStringHasNoUnderscore(i2);
    LastSeparatorSplit(Name(k1), IntToString(i1), Name(k2), IntToString(i2));
    NameInjective(k1, k2);
    IntToStringInjective(i1, i2);
  }

  /** A per-URI property name is never the name of a common setting. */
  lemma PerIdNameNotAKey(k: PropertiesKey, id: int, other: PropertiesKey)
    ensures PerIdName(k, id) != Name(other)
  {
    var s := PerIdName(k, id);
    assert s[|s| - 1] == IntToString(id)[|IntToString(id)| - 1];
    NameEndsInLetter(other);
  }
}
