/**
 * The bookkeeping pieces of keepalive.service.reinserter.Reinserter: the comma-separated success
 * counters, the segment bitstring, the history entry, the block numbering during registration,
 * the segment cursor and the activity watchdog.
 */
module ReinserterState {
  import opened Wrappers
  import opened JavaText
  import opened FreenetKeys
  import opened BlockModel
  import opened SegmentModel
  import opened UriValueModel
  import opened UriValuesDao
  import opened SingleJobModel
  import opened PluginModel
  import opened SuccessValuesModel

  // ----- the segment bitstring -----

  /**
   * `updateSegmentStatistic(segment, success)` on the bitstring: a success sets character `id`
   * to '1' through two substrings (a null string or an id outside it throws); a failure
   * leaves the string as it is.
   */
  function SegmentBitsAfter(bits: Option<string>, id: int, success: bool): (r: Result<Option<string>>)
    ensures !success ==> r == Ok(bits)
    ensures success ==> (r.Ok? <==> bits.Some? && 0 <= id < |bits.value|)
    ensures success && r.Ok? ==>
      r.value.Some? && |r.value.value| == |bits.value| && r.value.value[id] == '1' &&
      forall k :: 0 <= k < |bits.value| && k != id ==> r.value.value[k] == bits.value[k]
  {
    if !success then Ok(bits)
    else if bits.None? then Err(NULL_POINTER)
    else if !(0 <= id < |bits.value|) then Err(STRING_INDEX_OUT_OF_BOUNDS)
    else Ok(Some(bits.value[..id] + "1" + bits.value[id + 1..]))
  }

  // ----- the success counters -----

  /**
   * `updateBlockStatistic(id, success, failed)` on the counter text: entries 2·id and 2·id+1 of
   * its comma split take the two numbers (a null text or a missing entry throws).
   */
  function CountersAfter(success: Option<string>, id: int, s: int, f: int): (r: Result<seq<string>>)
    ensures r.Ok? <==> success.Some? && 0 <= id && 2 * id + 1 < |Split(success.value, ',')|
    ensures r.Ok? ==>
      var parts := Split(success.value, ',');
      |r.value| == |parts| && r.value[2 * id] == IntToString(s) && r.value[2 * id + 1] == IntToString(f) &&
      forall k :: 0 <= k < |parts| && k != 2 * id && k != 2 * id + 1 ==> r.value[k] == parts[k]
  {
    if success.None? then Err(NULL_POINTER)
    else
      var parts := Split(success.value, ',');
      if !(0 <= id && 2 * id + 1 < |parts|) then Err(INDEX_OUT_OF_BOUNDS)
      else Ok(parts[2 * id := IntToString(s)][2 * id + 1 := IntToString(f)])
  }

  /** The rewritten counters, joined as `saveSuccessToProp` stores them, split back to the same entries. */
  lemma CountersReadBack(success: Option<string>, id: int, s: int, f: int)
    requires CountersAfter(success, id, s, f).Ok?
    ensures var r := CountersAfter(success, id, s, f).value;
      Split(Join(r, ","), ',') == r
  {
    var r := CountersAfter(success, id, s, f).value;
    var parts := Split(success.value, ',');
    IntTextShape(s);
    IntTextShape(f);
    forall k | 0 <= k < |r| ensures ',' !in r[k] {
      if k != 2 * id && k != 2 * id + 1 {
        assert r[k] == parts[k];
      }
    }
    if 2 * id + 1 < |r| - 1 {
      var last := |parts| - 1;
      SplitLastNonEmpty(success.value, ',');
    }
    SplitJoin(r, ',');
  }

  // ----- resetting the counters at the start of a run -----

  /** Segments 0 .. maxSegmentId. */
  function SegmentCount(maxSegmentId: int): nat {
    if maxSegmentId < 0 then 0 else maxSegmentId + 1
  }

  /** m counter entries that all read "0". */
  function ZeroEntries(m: nat): (r: seq<string>)
    ensures |r| == m && forall k :: 0 <= k < m ==> r[k] == "0"
  {
    seq(m, _ => "0")
  }

  /** Two more zero entries extend the joined counter text by "0,0", after a comma unless it was empty. */
  lemma ZeroEntriesStep(i: nat)
    ensures Join(ZeroEntries(2 * i + 2), ",") ==
      Join(ZeroEntries(2 * i), ",") + (if i > 0 then "," else "") + "0,0"
  {
    var z := ZeroEntries(2 * i + 2);
    assert ZeroEntries(2 * i + 1) == ZeroEntries(2 * i) + ["0"];
    assert z == ZeroEntries(2 * i + 1) + ["0"];
    if i > 0 {
      JoinSnoc(ZeroEntries(2 * i), "0", ",");
      JoinSnoc(ZeroEntries(2 * i + 1), "0", ",");
    } else {
      assert z == ["0", "0"];
    }
  }

  /**
   * The loop that starts a run from scratch: "0,0" per segment, comma separated, and one '0'
   * per segment in the bitstring.
   */
  method ResetCounterTexts(maxSegmentId: int) returns (success: string, bits: string)
    ensures success == Join(ZeroEntries(2 * SegmentCount(maxSegmentId)), ",")
    ensures bits == Repeat('0', SegmentCount(maxSegmentId))
  {
    success := "";
    bits := "";
    var i := 0;
    while i <= maxSegmentId
      invariant 0 <= i <= SegmentCount(maxSegmentId)
      invariant success == Join(ZeroEntries(2 * i), ",")
      invariant bits == Repeat('0', i)
    {
      ZeroEntriesStep(i);
      if i > 0 {
        success := success + ",";
      }
      success := success + "0,0";
      bits := bits + "0";
      i := i + 1;
    }
  }

  lemma {:induction false} TotalsOfZeros(vals: seq<int>, n: nat)
    requires n <= |vals| && n % 2 == 0
    requires forall k :: 0 <= k < |vals| ==> vals[k] == 0
    ensures Totals(vals, n) == (0, 0)
  {
    if n > 0 {
      TotalsOfZeros(vals, n - 2);
    }
  }

  lemma {:induction false} NoOnesInZeros(n: nat, m: nat)
    requires m <= n
    ensures CountOnes(Repeat('0', n)[..m]) == 0
    decreases m
  {
    if m > 0 {
      var s := Repeat('0', n)[..m];
      assert s[..m - 1] == Repeat('0', n)[..m - 1];
      NoOnesInZeros(n, m - 1);
    }
  }

  /**
   * Right after the reset the record reports no successes, no failures and no successful
   * segment, whatever the cursor says.
   */
  lemma ResetReportsNothing(maxSegmentId: int, cursor: int)
    ensures var n := SegmentCount(maxSegmentId);
      SuccessValuesOf(Some(Join(ZeroEntries(2 * n), ",")), Some(Repeat('0', n)), cursor) ==
      SuccessValues(0, 0, 0)
  {
    var n := SegmentCount(maxSegmentId);
    var bits := Repeat('0', n);
    if n > 0 {
      var vals := seq(2 * n, _ => 0);
      assert IntToString(0) == "0";
      assert Numerals(vals) == ZeroEntries(2 * n);
      CounterStringTotals(vals);
      TotalsOfZeros(vals, 2 * n);
    } else {
      assert Join(ZeroEntries(0), ",") == "";
      assert Split("", ',') == [""];
    }
    NoOnesInZeros(n, SegmentPrefix(bits, cursor));
  }

  // ----- resuming a run -----

  /** The counter entries after a resumed run zeroes the ones from index start on. */
  function ZeroedFrom(parts: seq<string>, start: int): (r: seq<string>)
    requires start >= 0
    ensures |r| == |parts|
    ensures forall k :: 0 <= k < |parts| ==> r[k] == (if k < start then parts[k] else "0")
  {
    seq(|parts|, k requires 0 <= k < |parts| => if k < start then parts[k] else "0")
  }

  /**
   * The loop that resets the counters of the segments after the cursor, in place; a negative
   * start index throws before anything is written.
   */
  method ZeroFrom(parts: array<string>, start: int) returns (st: Status)
    modifies parts
    ensures st.Done? <==> start >= 0
    ensures st.Failed? ==> st.fault == INDEX_OUT_OF_BOUNDS && parts[..] == old(parts[..])
    ensures st.Done? ==> parts[..] == ZeroedFrom(old(parts[..]), start)
  {
    if start < 0 {
      return Failed(INDEX_OUT_OF_BOUNDS);
    }
    var i := start;
    while i < parts.Length
      invariant start <= i
      invariant forall k :: 0 <= k < parts.Length ==>
        parts[k] == (if start <= k < i then "0" else old(parts[k]))
    {
      parts[i] := "0";
      i := i + 1;
    }
    st := Done;
  }

  lemma {:induction false} SumPairsAgree(xs: seq<Option<int>>, ys: seq<Option<int>>, n: nat)
    requires n <= |xs| && n <= |ys| && n % 2 == 0
    requires forall k :: 0 <= k < n ==> xs[k] == ys[k]
    ensures SumPairs(xs, n) == SumPairs(ys, n)
  {
    if n > 0 {
      SumPairsAgree(xs, ys, n - 2);
      assert xs[n - 2] == ys[n - 2] && xs[n - 1] == ys[n - 1];
    }
  }

  lemma {:induction false} SumPairsOverZeros(xs: seq<Option<int>>, start: nat, n: nat)
    requires start <= n <= |xs| && start % 2 == 0 && n % 2 == 0
    requires forall k :: start <= k < |xs| ==> xs[k] == Some(0)
    ensures SumPairs(xs, n) == SumPairs(xs, start)
    decreases n
  {
    if n > start {
      SumPairsOverZeros(xs, start, n - 2);
      assert xs[n - 2] == Some(0) && xs[n - 1] == Some(0);
    }
  }

  lemma ParseZero()
    ensures ParseInt("0") == Some(0)
  {
    assert IntToString(0) == "0";
    ParseIntToString(0);
  }

  /**
   * Resuming keeps the counters of the segments up to the cursor: the rewritten text reads back
   * as the pair sums of the entries below (cursor + 1) · 2.
   */
  lemma ResumeKeepsFinishedTotals(success: string, cursor: int)
    requires cursor >= -1
    requires var parts := Split(success, ',');
      |parts| >= 2 && |parts| % 2 == 0 && (cursor + 1) * 2 <= |parts|
    ensures var parts := Split(success, ',');
      CounterTotals(Some(Join(ZeroedFrom(parts, (cursor + 1) * 2), ","))) == PairSums(parts, (cursor + 1) * 2)
  {
    DoubleIsEven(cursor + 1);
    ResumeTotalsFrom(success, (cursor + 1) * 2);
  }

  lemma ResumeTotalsFrom(success: string, start: nat)
    requires var parts := Split(success, ',');
      |parts| >= 2 && |parts| % 2 == 0 && start <= |parts| && start % 2 == 0
    ensures var parts := Split(success, ',');
      CounterTotals(Some(Join(ZeroedFrom(parts, start), ","))) == PairSums(parts, start)
  {
    var parts := Split(success, ',');
    ZeroedSplitsBack(success, start);
    ZeroedTextTotals(parts, start, Join(ZeroedFrom(parts, start), ","));
  }

  /** A text that splits into the zeroed entries totals the pair sums below the zeroed part. */
  lemma ZeroedTextTotals(parts: seq<string>, start: nat, text: string)
    requires start <= |parts| && start % 2 == 0 && |parts| % 2 == 0 && |parts| >= 2
    requires Split(text, ',') == ZeroedFrom(parts, start)
    ensures CounterTotals(Some(text)) == PairSums(parts, start)
  {
    CounterTotalsOfSplit(text, ZeroedFrom(parts, start));
    ZeroedPairSums(parts, start);
  }

  lemma ZeroedSplitsBack(success: string, start: nat)
    requires |Split(success, ',')| >= 2 && start <= |Split(success, ',')|
    ensures var z := ZeroedFrom(Split(success, ','), start); Split(Join(z, ","), ',') == z
  {
    var parts := Split(success, ',');
    var z := ZeroedFrom(parts, start);
    forall k | 0 <= k < |z| ensures ',' !in z[k] {
      if k < start {
        assert z[k] == parts[k];
      }
    }
    var last := |z| - 1;
    if start <= last {
      assert z[last] == "0";
    } else {
      assert z[last] == parts[last];
      SplitLastNonEmpty(success, ',');
    }
    SplitJoin(z, ',');
  }

  lemma CounterTotalsOfSplit(text: string, parts: seq<string>)
    requires Split(text, ',') == parts && |parts| >= 2 && |parts| % 2 == 0
    ensures CounterTotals(Some(text)) == PairSums(parts, |parts|)
  {
  }

  lemma DoubleIsEven(m: nat)
    ensures (m * 2) % 2 == 0
  {
  }

  /** Zeroing the entries from an even index on leaves the pair sums of the entries below it. */
  lemma ZeroedPairSums(parts: seq<string>, start: nat)
    requires start <= |parts| && start % 2 == 0 && |parts| % 2 == 0
    ensures PairSums(ZeroedFrom(parts, start), |parts|) == PairSums(parts, start)
  {
    var z := ZeroedFrom(parts, start);
    var xs, ys := ParsedEntries(z), ParsedEntries(parts);
    ParseZero();
    forall k | start <= k < |xs| ensures xs[k] == Some(0) {
      assert z[k] == "0" && xs[k] == ParseInt(z[k]);
    }
    SumPairsOverZeros(xs, start, |xs|);
    forall k | 0 <= k < start ensures xs[k] == ys[k] {
      assert z[k] == parts[k] && xs[k] == ParseInt(z[k]) && ys[k] == ParseInt(parts[k]);
    }
    SumPairsAgree(xs, ys, start);
  }

  // ----- the history -----

  function Min(a: int, b: int): int {
    if a <= b then a else b
  }

  /** What the StringBuilder loop over the history entries produces: a comma before every entry after a non-empty prefix. */
  function BufJoin(parts: seq<string>): string
    decreases |parts|
  {
    if |parts| == 0 then ""
    else
      var b := BufJoin(parts[..|parts| - 1]);
      (if |b| > 0 then b + "," else b) + parts[|parts| - 1]
  }

  /** The StringBuilder loop that joins the history entries. */
  method JoinHistory(parts: seq<string>) returns (buf: string)
    ensures buf == BufJoin(parts)
  {
    buf := "";
    var i := 0;
    while i < |parts|
      invariant 0 <= i <= |parts|
      invariant buf == BufJoin(parts[..i])
    {
      assert parts[..i + 1][..i] == parts[..i];
      if |buf| > 0 {
        buf := buf + ",";
      }
      buf := buf + parts[i];
      i := i + 1;
    }
    assert parts[..i] == parts;
  }

  /** With no empty entry, the loop is `String.join(",", parts)`. */
  lemma {:induction false} BufJoinIsJoin(parts: seq<string>)
    requires forall k :: 0 <= k < |parts| ==> parts[k] != ""
    ensures BufJoin(parts) == Join(parts, ",")
    decreases |parts|
  {
    if |parts| > 1 {
      var init := parts[..|parts| - 1];
      BufJoinIsJoin(init);
      JoinHead(init, ",");
      JoinSnoc(init, parts[|parts| - 1], ",");
      assert init + [parts[|parts| - 1]] == parts;
    }
  }

  /** The history text of one month: "MM.yyyy-percent". */
  function HistoryEntry(month: string, percent: int): string {
    month + "-" + IntToString(percent)
  }

  /**
   * The history after a finished pass in `month` with the given persistence: a blank history has
   * no entries; if the history mentions the month, the last entry's number (after its first '-')
   * is parsed and the entry becomes the month with the smaller of the two values, otherwise a new
   * entry is appended (after a comma when the old text was non-empty). A missing number throws
   * an index exception, a malformed one a number-format exception.
   */
  function HistoryAfter(history: Option<string>, month: string, percent: int): Result<string>
  {
    var entries := HistoryEntries(history);
    if history.Some? && Contains(history.value, month) then LastEntryRewritten(entries, month, percent)
    else Ok(BufJoin(entries) + (if history.Some? && |history.value| > 0 then "," else "") + HistoryEntry(month, percent))
  }

  /** The comma-separated entries of a history; a missing or blank history has none. */
  function HistoryEntries(history: Option<string>): seq<string> {
    if history.None? || IsBlank(history.value) then [] else Split(history.value, ',')
  }

  /** The entries joined once the last one is rewritten to the month with the smaller percentage. */
  function LastEntryRewritten(entries: seq<string>, month: string, percent: int): Result<string> {
    if |entries| == 0 then Err(INDEX_OUT_OF_BOUNDS)
    else
      var fields := Split(entries[|entries| - 1], '-');
      if |fields| < 2 then Err(INDEX_OUT_OF_BOUNDS)
      else match ParseInt(fields[1])
        case None => Err(NUMBER_FORMAT)
        case Some(previous) =>
          Ok(BufJoin(entries[|entries| - 1 := HistoryEntry(month, Min(percent, previous))]))
  }

  /**
   * The history text `addToHistory` builds: the entries of a history mentioning the month get
   * their last one rewritten, otherwise the new entry is appended to the joined entries.
   */
  method BuildHistory(history: Option<string>, month: string, percent: int) returns (r: Result<string>)
    ensures r == HistoryAfter(history, month, percent)
  {
    var entries := HistoryEntries(history);
    if history.Some? && Contains(history.value, month) {
      r := RewriteLastEntry(entries, month, percent);
      return;
    }
    var text := JoinHistory(entries);
    var separator := if history.Some? && |history.value| > 0 then "," else "";
    return Ok(text + separator + HistoryEntry(month, percent));
  }

  /** The branch of `addToHistory` for a month already in the history. */
  method RewriteLastEntry(entries: seq<string>, month: string, percent: int) returns (r: Result<string>)
    ensures r == LastEntryRewritten(entries, month, percent)
  {
    if |entries| == 0 {
      return Err(INDEX_OUT_OF_BOUNDS);
    }
    var fields := Split(entries[|entries| - 1], '-');
    if |fields| < 2 {
      return Err(INDEX_OUT_OF_BOUNDS);
    }
    var previous := ParseInt(fields[1]);
    if previous.None? {
      return Err(NUMBER_FORMAT);
    }
    var text := JoinHistory(entries[|entries| - 1 := HistoryEntry(month, Min(percent, previous.value))]);
    return Ok(text);
  }

  /** A history of one or more non-empty comma-free entries whose text does not start blank. */
  predicate WellFormedHistory(entries: seq<string>) {
    |entries| >= 1 && entries[0] != "" && entries[0][0] > ' ' &&
    forall k :: 0 <= k < |entries| ==> entries[k] != "" && ',' !in entries[k]
  }

  /** The first pass of a file (no history yet) writes one entry. */
  lemma HistoryFromEmpty(history: Option<string>, month: string, percent: int)
    requires history == None || history == Some("")
    requires month != ""
    ensures HistoryAfter(history, month, percent) == Ok(HistoryEntry(month, percent))
  {
    var e := HistoryEntry(month, percent);
    assert BufJoin([]) == "";
    if history.Some? {
      assert !Contains("", month);
      assert IsBlank("");
      assert HistoryAfter(history, month, percent) == Ok(BufJoin([]) + "" + e);
    } else {
      assert HistoryAfter(history, month, percent) == Ok(BufJoin([]) + "" + e);
    }
    assert BufJoin([]) + "" + e == e;
  }

  /** The joined text of a well-formed history is not blank and splits back into its entries. */
  lemma HistoryText(entries: seq<string>)
    requires WellFormedHistory(entries)
    ensures var h := Join(entries, ",");
      h != "" && !IsBlank(h) && Split(h, ',') == entries && BufJoin(entries) == h
  {
    var h := Join(entries, ",");
    JoinHead(entries, ",");
    BlankIffAllSpace(h);
    SplitJoin(entries, ',');
    BufJoinIsJoin(entries);
  }

  /** A pass in a month the history does not mention appends that month's entry. */
  lemma HistoryNewMonth(entries: seq<string>, month: string, percent: int)
    requires WellFormedHistory(entries)
    requires !Contains(Join(entries, ","), month)
    ensures HistoryAfter(Some(Join(entries, ",")), month, percent) ==
      Ok(Join(entries + [HistoryEntry(month, percent)], ","))
  {
    HistoryText(entries);
    JoinSnoc(entries, HistoryEntry(month, percent), ",");
  }

  /** The entry of month `month` for a value that is not negative splits at its '-' into the month and the numeral. */
  lemma EntryFields(month: string, previous: int)
    requires '-' !in month && 0 <= previous
    ensures Split(HistoryEntry(month, previous), '-') == [month, IntToString(previous)]
  {
    var ip := IntToString(previous);
    assert '-' !in ip by {
      assert forall k :: 0 <= k < |ip| ==> ip[k] != '-';
    }
    assert Join([month, ip], "-") == HistoryEntry(month, previous);
    SplitJoin([month, ip], '-');
  }

  lemma EntryCommaFree(month: string, a: int, b: int)
    requires ',' !in HistoryEntry(month, a)
    ensures HistoryEntry(month, b) != "" && ',' !in HistoryEntry(month, b)
    ensures HistoryEntry(month, b)[0] == HistoryEntry(month, a)[0]
  {
    assert HistoryEntry(month, a)[..|month|] == month;
    IntTextHasNoComma(b);
  }

  lemma ReplacedLastWellFormed(earlier: seq<string>, x: string, y: string)
    requires WellFormedHistory(earlier + [x])
    requires x != "" && y != "" && ',' !in y && y[0] == x[0]
    ensures WellFormedHistory(earlier + [y])
  {
    var u := earlier + [y];
    var e := earlier + [x];
    forall k | 0 <= k < |u| ensures u[k] != "" && ',' !in u[k] {
      if k < |earlier| {
        assert u[k] == e[k];
      }
    }
  }

  /** The last entry's month occurs in the history text. */
  lemma LastEntryMonthOccurs(earlier: seq<string>, month: string, rest: string)
    ensures Contains(Join(earlier + [month + rest], ","), month)
  {
    var last := month + rest;
    var h := Join(earlier + [last], ",");
    if |earlier| == 0 {
      assert h == last;
      ContainsAt(h, month, 0);
    } else {
      JoinSnoc(earlier, last, ",");
      var i := |Join(earlier, ",")| + 1;
      assert h[i..i + |month|] == month;
      ContainsAt(h, month, i);
    }
  }

  lemma SameMonthCase(h: string, month: string, percent: int, entries: seq<string>, previous: int)
    requires !IsBlank(h) && Split(h, ',') == entries && |entries| >= 1 && Contains(h, month)
    requires var f := Split(entries[|entries| - 1], '-'); |f| >= 2 && ParseInt(f[1]) == Some(previous)
    ensures HistoryAfter(Some(h), month, percent) ==
      Ok(BufJoin(entries[|entries| - 1 := HistoryEntry(month, Min(percent, previous))]))
  {
  }

  /**
   * A second pass in the month of the last entry replaces that entry and keeps the smaller
   * persistence value.
   */
  lemma HistorySameMonth(earlier: seq<string>, month: string, previous: int, percent: int)
    requires WellFormedHistory(earlier + [HistoryEntry(month, previous)])
    requires '-' !in month && 0 <= previous <= INT_MAX
    ensures HistoryAfter(Some(Join(earlier + [HistoryEntry(month, previous)], ",")), month, percent) ==
      Ok(Join(earlier + [HistoryEntry(month, Min(percent, previous))], ","))
  {
    var entries := earlier + [HistoryEntry(month, previous)];
    var updated := earlier + [HistoryEntry(month, Min(percent, previous))];
    LastEntryReadsBack(earlier, month, previous);
    assert entries[|entries| - 1 := HistoryEntry(month, Min(percent, previous))] == updated;
    SameMonthCase(Join(entries, ","), month, percent, entries, previous);
    UpdatedHistoryText(earlier, month, previous, Min(percent, previous));
  }

  lemma LastEntryReadsBack(earlier: seq<string>, month: string, previous: int)
    requires WellFormedHistory(earlier + [HistoryEntry(month, previous)])
    requires '-' !in month && 0 <= previous <= INT_MAX
    ensures var entries := earlier + [HistoryEntry(month, previous)];
      var h := Join(entries, ",");
      var f := Split(entries[|entries| - 1], '-');
      !IsBlank(h) && Split(h, ',') == entries && Contains(h, month) &&
      |f| >= 2 && ParseInt(f[1]) == Some(previous)
  {
    var last := HistoryEntry(month, previous);
    var entries := earlier + [last];
    var h := Join(entries, ",");
    assert !IsBlank(h) && Split(h, ',') == entries by {
      HistoryText(entries);
    }
    assert Contains(h, month) by {
      assert last == month + ("-" + IntToString(previous));
      LastEntryMonthOccurs(earlier, month, "-" + IntToString(previous));
    }
    assert entries[|entries| - 1] == last;
    var f := Split(last, '-');
    assert f == [month, IntToString(previous)] by {
      EntryFields(month, previous);
    }
    assert ParseInt(f[1]) == Some(previous) by {
      ParseIntToString(previous);
    }
  }

  lemma UpdatedHistoryText(earlier: seq<string>, month: string, previous: int, m: int)
    requires WellFormedHistory(earlier + [HistoryEntry(month, previous)])
    ensures var u := earlier + [HistoryEntry(month, m)]; BufJoin(u) == Join(u, ",")
  {
    var entries := earlier + [HistoryEntry(month, previous)];
    assert ',' !in entries[|earlier|];
    EntryCommaFree(month, previous, m);
    ReplacedLastWellFormed(earlier, HistoryEntry(month, previous), HistoryEntry(month, m));
    HistoryText(earlier + [HistoryEntry(month, m)]);
  }
}
