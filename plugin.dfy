/** The plugin's own rules around its properties and statistics (keepalive.Plugin). */
module PluginModel {
  import opened Wrappers
  import opened JavaText
  import opened PropertiesKeys
  import opened PluginBaseModel
  import opened SuccessValuesModel
  import opened UriValueModel

  const VERSION: string := "0.3.4.0-PlantEater"

  // ----- defaults of the common keys -----

  /** The text a key's default is stored as, if it has one. */
  function DefaultText(k: PropertiesKey): Option<string> {
    match Default(k)
    case NoDefault => None
    case StringDefault(s) => Some(s)
    case IntDefault(n) => Some(IntToString(n))
  }

  /** `initPropKey(k)` on a property map. */
  function WithDefault(prop: map<string, string>, k: PropertiesKey): map<string, string> {
    if Name(k) in prop || DefaultText(k).None? then prop else prop[Name(k) := DefaultText(k).value]
  }

  /** `initPropKey` applied to each key of `ks` in turn. */
  function WithDefaults(prop: map<string, string>, ks: seq<PropertiesKey>): map<string, string> {
    if |ks| == 0 then prop else WithDefault(WithDefaults(prop, ks[..|ks| - 1]), ks[|ks| - 1])
  }

  /**
   * After initialising keys: a key that was present keeps its value, an absent key gets its
   * default if it has one and stays absent otherwise, and no other property is touched.
   */
  lemma {:induction false} WithDefaultsSpec(prop: map<string, string>, ks: seq<PropertiesKey>)
    ensures forall k :: k in ks ==>
      Lookup(WithDefaults(prop, ks), Name(k)) ==
        (if Name(k) in prop then Some(prop[Name(k)]) else DefaultText(k))
    ensures forall n :: (forall k :: k in ks ==> n != Name(k)) ==>
      Lookup(WithDefaults(prop, ks), n) == Lookup(prop, n)
  {
    if |ks| > 0 {
      var init, last := ks[..|ks| - 1], ks[|ks| - 1];
      WithDefaultsSpec(prop, init);
      var before := WithDefaults(prop, init);
      assert WithDefaults(prop, ks) == WithDefault(before, last);
      forall k | k in ks
        ensures Lookup(WithDefaults(prop, ks), Name(k)) ==
          (if Name(k) in prop then Some(prop[Name(k)]) else DefaultText(k))
      {
        if k != last {
          assert k in init;
          if Name(k) == Name(last) {
            NameInjective(k, last);
          }
          assert Lookup(WithDefault(before, last), Name(k)) == Lookup(before, Name(k));
        } else if k !in init {
          forall j | j in init ensures Name(k) != Name(j) {
            if Name(k) == Name(j) {
              NameInjective(k, j);
            }
          }
          assert Lookup(before, Name(k)) == Lookup(prop, Name(k));
        }
      }
    }
  }

  // ----- statistics -----

  /** Each entry parsed as `Integer.parseInt` does; None where it throws. */
  function ParsedEntries(parts: seq<string>): (r: seq<Option<int>>)
    ensures |r| == |parts|
  {
    seq(|parts|, k requires 0 <= k < |parts| => ParseInt(parts[k]))
  }

  /** The sums of the values at indices 0, 2, 4, … and 1, 3, 5, … below n; None when one is missing. */
  function SumPairs(xs: seq<Option<int>>, n: nat): Option<(int, int)>
    requires n <= |xs| && n % 2 == 0
  {
    if n == 0 then Some((0, 0))
    else
      match (SumPairs(xs, n - 2), xs[n - 2], xs[n - 1])
      case (Some(acc), Some(s), Some(f)) => Some((acc.0 + s, acc.1 + f))
      case _ => None
  }

  /** The sums of entries 0, 2, 4, … and 1, 3, 5, … among the first n entries; None when one does not parse. */
  function PairSums(parts: seq<string>, n: nat): Option<(int, int)>
    requires n <= |parts| && n % 2 == 0
  {
    SumPairs(ParsedEntries(parts), n)
  }

  /**
   * The success and failed totals of a counter string: none on a null string, 0/0 with fewer
   * than two entries, and none (an exception) with an odd count or an entry that does not parse.
   */
  function CounterTotals(success: Option<string>): Option<(int, int)> {
    if success.None? then None
    else
      var parts := Split(success.value, ',');
      if |parts| < 2 then Some((0, 0))
      else if |parts| % 2 == 1 then None
      else PairSums(parts, |parts|)
  }

  /** The number of '1' characters in s. */
  function CountOnes(s: string): nat {
    if |s| == 0 then 0 else CountOnes(s[..|s| - 1]) + (if s[|s| - 1] == '1' then 1 else 0)
  }

  /** How many characters of the segment string count: those up to and including the cursor. */
  function SegmentPrefix(segments: string, cursor: int): (n: nat)
    ensures n <= |segments|
  {
    if cursor + 1 <= 0 then 0 else if cursor + 1 < |segments| then cursor + 1 else |segments|
  }

  /** What `getSuccessValues` reports for a record; any exception gives (0, 0, 0). */
  function SuccessValuesOf(success: Option<string>, successSegments: Option<string>, cursor: int): SuccessValues {
    match CounterTotals(success)
    case None => SuccessValues(0, 0, 0)
    case Some((s, f)) =>
      SuccessValues(s, f,
        if successSegments.None? then 0
        else CountOnes(successSegments.value[..SegmentPrefix(successSegments.value, cursor)]))
  }

  /** The sums of the values at indices 0, 2, 4, … and 1, 3, 5, … below n. */
  function Totals(vals: seq<int>, n: nat): (int, int)
    requires n <= |vals| && n % 2 == 0
  {
    if n == 0 then (0, 0)
    else
      var acc := Totals(vals, n - 2);
      (acc.0 + vals[n - 2], acc.1 + vals[n - 1])
  }

  /** The decimal numerals of a list of values. */
  function Numerals(vals: seq<int>): (r: seq<string>)
    ensures |r| == |vals| && forall k :: 0 <= k < |vals| ==> r[k] == IntToString(vals[k])
  {
    seq(|vals|, k requires 0 <= k < |vals| => IntToString(vals[k]))
  }

  lemma {:induction false} SumPairsOfValues(xs: seq<Option<int>>, vals: seq<int>, n: nat)
    requires |xs| == |vals| && n <= |xs| && n % 2 == 0
    requires forall k :: 0 <= k < |xs| ==> xs[k] == Some(vals[k])
    ensures SumPairs(xs, n) == Some(Totals(vals, n))
  {
    if n > 0 {
      SumPairsOfValues(xs, vals, n - 2);
      assert xs[n - 2] == Some(vals[n - 2]) && xs[n - 1] == Some(vals[n - 1]);
    }
  }

  /** When every entry parses, the pair sums are the totals of the parsed values. */
  lemma ParsedPairSums(parts: seq<string>, vals: seq<int>, n: nat)
    requires |parts| == |vals| && n <= |parts| && n % 2 == 0
    requires forall k :: 0 <= k < |parts| ==> ParseInt(parts[k]) == Some(vals[k])
    ensures PairSums(parts, n) == Some(Totals(vals, n))
  {
    var xs := ParsedEntries(parts);
    forall k | 0 <= k < |xs| ensures xs[k] == Some(vals[k]) {
      assert xs[k] == ParseInt(parts[k]);
    }
    SumPairsOfValues(xs, vals, n);
  }

  lemma {:induction false} SumPairsFails(xs: seq<Option<int>>, i: nat, n: nat)
    requires i < n <= |xs| && n % 2 == 0 && xs[i].None?
    ensures SumPairs(xs, n).None?
  {
    if i < n - 2 {
      SumPairsFails(xs, i, n - 2);
    }
  }

  /** The next two entries, both parsed, extend the pair sums by their values. */
  lemma PairSumsNext(parts: seq<string>, i: nat, acc: (int, int), s: int, f: int)
    requires i + 2 <= |parts| && i % 2 == 0 && PairSums(parts, i) == Some(acc)
    requires ParseInt(parts[i]) == Some(s) && ParseInt(parts[i + 1]) == Some(f)
    ensures PairSums(parts, i + 2) == Some((acc.0 + s, acc.1 + f))
  {
    var xs := ParsedEntries(parts);
    assert xs[i] == Some(s) && xs[i + 1] == Some(f);
  }

  /** Two different even numbers are at least two apart. */
  lemma EvenGap(i: int, n: int)
    requires i % 2 == 0 && n % 2 == 0 && i < n
    ensures i + 2 <= n
  {
  }

  /** The next even number after an even one. */
  lemma EvenStep(i: int)
    requires i % 2 == 0
    ensures (i + 2) % 2 == 0
  {
  }

  /** One entry that does not parse spoils every longer sum. */
  lemma PairSumsFails(parts: seq<string>, i: nat, n: nat)
    requires i < n <= |parts| && n % 2 == 0 && ParseInt(parts[i]).None?
    ensures PairSums(parts, n).None?
  {
    var xs := ParsedEntries(parts);
    assert xs[i] == ParseInt(parts[i]);
    SumPairsFails(xs, i, n);
  }

  lemma IntTextHasNoComma(n: int)
    ensures ',' !in IntToString(n) && IntToString(n) != ""
  {
    var s := IntToString(n);
    assert forall k :: 0 <= k < |s| ==> s[k] != ',';
  }

  /**
   * A counter string written as the comma-joined numerals of an even number (two or more)
   * of `int` values reads back as the totals of the even- and odd-index values.
   */
  lemma CounterStringTotals(vals: seq<int>)
    requires |vals| >= 2 && |vals| % 2 == 0
    requires forall k :: 0 <= k < |vals| ==> InInt32(vals[k])
    ensures CounterTotals(Some(Join(Numerals(vals), ","))) == Some(Totals(vals, |vals|))
  {
    var e := Numerals(vals);
    forall k | 0 <= k < |e| ensures ',' !in e[k] && e[k] != "" && ParseInt(e[k]) == Some(vals[k]) {
      IntTextHasNoComma(vals[k]);
      ParseIntToString(vals[k]);
    }
    SplitJoin(e, ',');
    ParsedPairSums(e, vals, |vals|);
  }

  // ----- the plugin object -----

  class Plugin {
    const base: PluginBase
    var propSavingTimestamp: int
    /** The property maps handed to the file writer, oldest first. */
    var savedProps: seq<map<string, string>>

    constructor (base: PluginBase)
      ensures this.base == base && propSavingTimestamp == 0 && savedProps == []
    {
      this.base := base;
      propSavingTimestamp := 0;
      savedProps := [];
    }

    /** `saveProp(force)`: writes when forced or when the last write is more than 10 s old, and then remembers the time. */
    /** The effect of an unforced `saveProp()` at time `now` on a plugin that was at (ts, saved). */
    ghost predicate SavedSince(ts: int, saved: seq<map<string, string>>, now: int)
      reads this, base
    {
      if ts < now - 10 * 1000 then propSavingTimestamp == now && savedProps == saved + [base.prop]
      else propSavingTimestamp == ts && savedProps == saved
    }

    method SaveProp(force: bool, now: int) returns (wrote: bool)
      modifies this`propSavingTimestamp, this`savedProps
      ensures wrote <==> force || old(propSavingTimestamp) < now - 10 * 1000
      ensures wrote ==> propSavingTimestamp == now && savedProps == old(savedProps) + [base.prop]
      ensures !wrote ==> propSavingTimestamp == old(propSavingTimestamp) && savedProps == old(savedProps)
    {
      wrote := force || propSavingTimestamp < now - 10 * 1000;
      if wrote {
        savedProps := savedProps + [base.prop];
        propSavingTimestamp := now;
      }
    }

    /** `initPropKey(key)`: an absent key with a String or Integer default gets that default. */
    method InitPropKey(key: PropertiesKey)
      modifies base`prop
      ensures base.prop == WithDefault(old(base.prop), key)
    {
      if base.GetProp(Some(key)).None? {
        match Default(key)
        case NoDefault =>
        case StringDefault(s) =>
          base.SetProp(Some(key), Some(s));
        case IntDefault(n) =>
          base.SetIntProp(Some(key), n);
      }
    }

    /** `initPropKeys()`: every key in declaration order, then a forced save. */
    method InitPropKeys(now: int)
      modifies base`prop, this`propSavingTimestamp, this`savedProps
      ensures base.prop == WithDefaults(old(base.prop), AllKeys)
      ensures propSavingTimestamp == now && savedProps == old(savedProps) + [base.prop]
    {
      InitKeys(AllKeys);
      var _ := SaveProp(true, now);
    }

    /** The loop of `initPropKeys()`: `initPropKey` on each key of `ks` in turn. */
    method InitKeys(ks: seq<PropertiesKey>)
      modifies base`prop
      ensures base.prop == WithDefaults(old(base.prop), ks)
    {
      var i := 0;
      while i < |ks|
        invariant 0 <= i <= |ks|
        invariant base.prop == WithDefaults(old(base.prop), ks[..i])
      {
        InitPropKey(ks[i]);
        assert ks[..i + 1][..i] == ks[..i];
        i := i + 1;
      }
      assert ks[..i] == ks;
    }

    /** `getSuccessValues(uriValue)`: the block totals and the number of available segments. */
    method GetSuccessValues(v: UriValue) returns (r: SuccessValues)
      ensures r == SuccessValuesOf(v.success, v.successSegments, v.segment)
    {
      r := SuccessValues(0, 0, 0);
      if v.success.None? {
        return;
      }
      var totals := SumCounters(Split(v.success.value, ','));
      if totals.None? {
        return;
      }
      var availableSegments := 0;
      if v.successSegments.Some? {
        availableSegments := CountAvailable(v.successSegments.value, v.segment);
      }
      r := SuccessValues(totals.value.0, totals.value.1, availableSegments);
    }
  }

  /** The summing loop of `getSuccessValues`; None where it throws. */
  method SumCounters(successMap: seq<string>) returns (totals: Option<(int, int)>)
    ensures |successMap| < 2 ==> totals == Some((0, 0))
    ensures |successMap| >= 2 && |successMap| % 2 == 1 ==> totals.None?
    ensures |successMap| >= 2 && |successMap| % 2 == 0 ==> totals == PairSums(successMap, |successMap|)
  {
    var success, failed := 0, 0;
    if |successMap| >= 2 {
      var i := 0;
      while i < |successMap|
        invariant 0 <= i <= |successMap| && i % 2 == 0
        invariant PairSums(successMap, i) == Some((success, failed))
      {
        var s := ParseInt(successMap[i]);
        if |successMap| % 2 == 0 {
          EvenGap(i, |successMap|);
        }
        if s.None? || i + 1 >= |successMap| {
          if |successMap| % 2 == 0 {
            PairSumsFails(successMap, i, |successMap|);
          }
          return None;
        }
        var f := ParseInt(successMap[i + 1]);
        if f.None? {
          if |successMap| % 2 == 0 {
            PairSumsFails(successMap, i + 1, |successMap|);
          }
          return None;
        }
        PairSumsNext(successMap, i, (success, failed), s.value, f.value);
        success := success + s.value;
        failed := failed + f.value;
        EvenStep(i);
        i := i + 2;
      }
    }
    return Some((success, failed));
  }

  /** The counting loop of `getSuccessValues`: the '1's among the characters up to the cursor. */
  method CountAvailable(segments: string, cursor: int) returns (n: nat)
    ensures n == CountOnes(segments[..SegmentPrefix(segments, cursor)])
  {
    n := 0;
    var i := 0;
    while i <= cursor && i < |segments|
      invariant 0 <= i <= SegmentPrefix(segments, cursor)
      invariant n == CountOnes(segments[..i])
    {
      assert segments[..i + 1][..i] == segments[..i];
      if segments[i] == '1' {
        n := n + 1;
      }
      i := i + 1;
    }
  }
}
