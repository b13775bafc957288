/**
 * The Reinserter object of keepalive.service.reinserter: the segments of a run, the block
 * numbering used while the metadata is parsed, the activity watchdog, and the statistic
 * updates it persists through the URI store.
 */
module ReinserterModel {
  import opened Wrappers
  import opened JavaText
  import opened FreenetKeys
  import opened PropertiesKeys
  import opened PluginBaseModel
  import opened PluginModel
  import opened BlockModel
  import opened SegmentModel
  import opened UriValueModel
  import opened UriValuesDao
  import opened SingleJobModel
  import opened ReinserterState

  const MINUTE_MS: int := 60_000

  // ----- the activity watchdog -----

  /** Java's `/` on integers: the quotient truncated toward zero. */
  function JavaDiv(a: int, b: int): int
    requires b > 0
  {
    if a >= 0 then a / b else -((-a) / b)
  }

  /**
   * What `isActive()` answers at time `now`: false when the last activity is the unset marker
   * `Integer.MIN_VALUE`, otherwise whether fewer than MAX_LIFETIME + 5 whole minutes have passed.
   */
  predicate StillActive(last: int, now: int) {
    last != INT_MIN && JavaDiv(now - last, MINUTE_MS) < MAX_LIFETIME + 5
  }

  /** The watchdog gives up 35 minutes after the last activity; a clock that went back never makes it give up. */
  lemma ActiveWindow(last: int, now: int)
    ensures StillActive(last, now) <==> last != INT_MIN && now - last < (MAX_LIFETIME + 5) * MINUTE_MS
  {
    var d := now - last;
    if d >= 0 {
      if d < 35 * MINUTE_MS {
        assert d / MINUTE_MS < 35;
      } else {
        assert d / MINUTE_MS >= 35;
      }
    } else {
      assert (-d) / MINUTE_MS >= 0;
    }
  }

  // ----- the USK step at the start of a run -----

  /** How the USK step ends when it does not throw. */
  datatype UskStep =
    | SameUri     // not a USK, no newer edition, or the same URI
    | Duplicate   // the new edition is tracked as a record of its own: this one is removed
    | NewUri      // the record now carries the new edition

  /** The record after `setUri(newUri)` and `setBlockCount(-1)`. */
  function WithNewUri(rec: Record, newUri: FreenetUri): Record {
    rec.(uri := Some(newUri), blockCount := -1)
  }

  /**
   * The USK step as written asks `update` to store the record under a URI that `exist` has just
   * reported missing, which `update` always refuses.
   */
  lemma UskRefreshAsWrittenFails(prop: map<string, string>, rec: Record, newUri: FreenetUri)
    requires UriStoredIn(prop, newUri) == Ok(false)
    ensures UpdateOutcome(prop, WithNewUri(rec, newUri)) == (Failed(DaoFault("The uri doesnt exist")), prop)
  {
  }

  /** The USK step as intended: the new edition is written under the record's id before `update`. */
  function UskRefreshCorrected(prop: map<string, string>, rec: Record, newUri: FreenetUri): (Status, map<string, string>) {
    UpdateOutcome(prop[PerIdName(Uri, rec.uriId) := Text(newUri)], WithNewUri(rec, newUri))
  }

  /** For a stored record the corrected step succeeds and leaves the new edition findable. */
  lemma UskRefreshCorrectedStores(prop: map<string, string>, rec: Record, newUri: FreenetUri)
    requires UriIds(Lookup(prop, Name(Ids))).Ok? && rec.uriId in UriIds(Lookup(prop, Name(Ids))).value
    ensures UskRefreshCorrected(prop, rec, newUri).0 == Done
    ensures UriStoredIn(UskRefreshCorrected(prop, rec, newUri).1, newUri) == Ok(true)
  {
    var p1 := prop[PerIdName(Uri, rec.uriId) := Text(newUri)];
    PerIdNameNotAKey(Uri, rec.uriId, Ids);
    assert Lookup(p1, Name(Ids)) == Lookup(prop, Name(Ids));
    var ids := UriIds(Lookup(prop, Name(Ids))).value;
    var k :| 0 <= k < |ids| && ids[k] == rec.uriId;
    assert UriMatchesIn(p1, Text(newUri), ids[k]);
    UpdateKeepsRecordFound(p1, WithNewUri(rec, newUri));
  }

  // ----- the block numbering -----

  /** A block just made by `new Block(key, segmentId, id, isDataBlock)`. */
  predicate NewBlock(b: Block, key: FreenetUri, segmentId: int, id: int, isDataBlock: bool)
    reads b
  {
    b.uri == key && b.segmentId == segmentId && b.id == id && b.dataBlock == isDataBlock &&
    !b.fetchDone && !b.fetchSuccessful && !b.insertDone && !b.insertSuccessful &&
    b.bucket == None && b.resultLog == None
  }

  /** Every key of a segment is a CHK, not registered yet, and distinct from the others once normalised. */
  /** The normalised forms of the keys present. */
  function NormalizedKeys(keys: seq<Option<FreenetUri>>, normalize: FreenetUri -> FreenetUri): set<FreenetUri> {
    set j | 0 <= j < |keys| && keys[j].Some? :: normalize(keys[j].value)
  }

  /** The normalised keys of one more key. */
  lemma NormalizedKeysNext(keys: seq<Option<FreenetUri>>, normalize: FreenetUri -> FreenetUri, j: nat)
    requires j < |keys| && keys[j].Some?
    ensures NormalizedKeys(keys[..j + 1], normalize) == NormalizedKeys(keys[..j], normalize) + {normalize(keys[j].value)}
  {
    var a, b := keys[..j + 1], keys[..j];
    forall x | x in NormalizedKeys(a, normalize) ensures x in NormalizedKeys(b, normalize) + {normalize(keys[j].value)} {
      var i :| 0 <= i < |a| && a[i].Some? && x == normalize(a[i].value);
      if i < j {
        assert b[i] == a[i];
      }
    }
    forall x | x in NormalizedKeys(b, normalize) ensures x in NormalizedKeys(a, normalize) {
      var i :| 0 <= i < |b| && b[i].Some? && x == normalize(b[i].value);
      assert a[i] == b[i];
    }
    assert a[j] == keys[j];
  }

  /** A key that no earlier key normalises to is not among their normalised forms. */
  lemma NotNormalized(keys: seq<Option<FreenetUri>>, normalize: FreenetUri -> FreenetUri, j: nat, key: FreenetUri)
    requires j <= |keys|
    requires forall i :: 0 <= i < j && keys[i].Some? ==> normalize(keys[i].value) != key
    ensures key !in NormalizedKeys(keys[..j], normalize)
  {
    forall i | 0 <= i < j && keys[..j][i].Some?
      ensures normalize(keys[..j][i].value) != key
    {
      assert keys[..j][i] == keys[i];
    }
  }

  predicate AllNewKeys(keys: seq<Option<FreenetUri>>, normalize: FreenetUri -> FreenetUri, blocks: map<FreenetUri, Block>) {
    (forall j :: 0 <= j < |keys| ==> keys[j].Some? && IsChk(keys[j].value) && normalize(keys[j].value) !in blocks) &&
    (forall i, j :: 0 <= i < j < |keys| && keys[i].Some? && keys[j].Some? ==>
      normalize(keys[i].value) != normalize(keys[j].value))
  }

  /** No segment of the run changed its array and no array its slots: the run is still well formed. */
  twostate lemma ValidKept(r: Reinserter)
    requires old(r.Valid()) && unchanged(r)
    requires forall s :: s in old(r.Live()) ==> unchanged(s`blocks) && (s.blocks != null ==> unchanged(s.blocks))
    ensures r.Valid()
  {
    assert r.Live() == old(r.Live());
    forall k | 0 <= k < |r.segments| && r.segments[k] != null
      ensures r.segments[k].id == k && r.segments[k].Valid()
    {
      assert r.segments[k] in old(r.Live());
      assert old(r.segments[k].Valid());
    }
  }

  class Reinserter {
    const dao: PropertiesUriValuesDao
    const uriValue: UriValue
    /** The segments of the run by id; those up to a resumed cursor are null placeholders. */
    var segments: seq<Segment?>
    var parsedSegmentId: int
    var parsedBlockId: int
    var lastActivityTime: int

    constructor (dao: PropertiesUriValuesDao, uriValue: UriValue)
      ensures this.dao == dao && this.uriValue == uriValue
      ensures segments == [] && parsedSegmentId == 0 && parsedBlockId == 0 && lastActivityTime == 0
    {
      this.dao := dao;
      this.uriValue := uriValue;
      segments := [];
      parsedSegmentId := 0;
      parsedBlockId := 0;
      lastActivityTime := 0;
    }

    /** The segment objects held. */
    ghost function Live(): set<Segment>
      reads this
    {
      set k | 0 <= k < |segments| && segments[k] != null :: segments[k]
    }

    /** Slot k holds segment k, and every segment held is well formed. */
    ghost predicate Valid()
      reads this, Live(), set s | s in Live() :: s.blocks
    {
      forall k :: 0 <= k < |segments| && segments[k] != null ==> segments[k].id == k && segments[k].Valid()
    }

    /** The store: the property map, the time of the last write and the maps written so far. */
    ghost function Store(): (map<string, string>, int, seq<map<string, string>>)
      reads dao.plugin, dao.plugin.base
    {
      (dao.plugin.base.prop, dao.plugin.propSavingTimestamp, dao.plugin.savedProps)
    }

    /** The store after `update(uriValue)` at time `now` answered st on the store `before`. */
    ghost predicate Persisted(st: Status, before: (map<string, string>, int, seq<map<string, string>>), now: int)
      reads uriValue, dao.plugin, dao.plugin.base
    {
      (st, dao.plugin.base.prop) == UpdateOutcome(before.0, RecordOf(uriValue)) &&
      (st.Failed? ==> dao.plugin.propSavingTimestamp == before.1 && dao.plugin.savedProps == before.2) &&
      (st.Done? ==> dao.plugin.SavedSince(before.1, before.2, now))
    }

    /** `plugin.uriPropsDAO.update(uriValue)`. */
    method Persist(now: int) returns (st: Status)
      modifies dao.plugin.base`prop, dao.plugin`propSavingTimestamp, dao.plugin`savedProps
      ensures Persisted(st, old(Store()), now)
    {
      st := dao.Update(uriValue, now);
    }

    /** `Persist` on a well-formed run, which writes only to the store and so keeps the run well formed. */
    method PersistValid(now: int) returns (st: Status)
      requires Valid()
      modifies dao.plugin.base`prop, dao.plugin`propSavingTimestamp, dao.plugin`savedProps
      ensures Persisted(st, old(Store()), now) && Valid()
    {
      st := Persist(now);
    }

    // ----- statistics -----

    /**
     * `updateSegmentStatistic(segment, success)`: the bitstring as `SegmentBitsAfter` rewrites it
     * is stored and the record persisted; a throwing rewrite stores nothing.
     */
    method UpdateSegmentStatistic(segment: Segment, success: bool, now: int) returns (st: Status)
      modifies uriValue`successSegments, dao.plugin.base`prop, dao.plugin`propSavingTimestamp, dao.plugin`savedProps
      ensures var bits := SegmentBitsAfter(old(uriValue.successSegments), segment.id, success);
        if bits.Err? then
          st == Failed(bits.fault) && uriValue.successSegments == old(uriValue.successSegments) && Store() == old(Store())
        else
          uriValue.successSegments == bits.value && Persisted(st, old(Store()), now)
    {
      var bits := uriValue.successSegments;
      if success {
        if bits.None? {
          return Failed(NULL_POINTER);
        }
        if !(0 <= segment.id < |bits.value|) {
          return Failed(STRING_INDEX_OUT_OF_BOUNDS);
        }
        bits := Some(bits.value[..segment.id] + "1" + bits.value[segment.id + 1..]);
      }
      uriValue.SetSuccessSegments(bits);
      st := Persist(now);
    }

    /**
     * `updateBlockStatistic(id, success, failed)`: the counters as `CountersAfter` rewrites them
     * are joined, stored and persisted; a throwing rewrite stores nothing.
     */
    method UpdateBlockStatistic(id: int, s: int, f: int, now: int) returns (st: Status)
      modifies uriValue`success, dao.plugin.base`prop, dao.plugin`propSavingTimestamp, dao.plugin`savedProps
      ensures var parts := CountersAfter(old(uriValue.success), id, s, f);
        if parts.Err? then
          st == Failed(parts.fault) && uriValue.success == old(uriValue.success) && Store() == old(Store())
        else
          uriValue.success == Some(Join(parts.value, ",")) && Persisted(st, old(Store()), now)
    {
      if uriValue.success.None? {
        return Failed(NULL_POINTER);
      }
      var parts := Split(uriValue.success.value, ',');
      if !(0 <= id && 2 * id + 1 < |parts|) {
        return Failed(INDEX_OUT_OF_BOUNDS);
      }
      parts := parts[2 * id := IntToString(s)][2 * id + 1 := IntToString(f)];
      st := SaveSuccessToProp(parts, now);
    }

    /** `saveSuccessToProp(parts)`: the comma join becomes the counter text and the record is persisted. */
    method SaveSuccessToProp(parts: seq<string>, now: int) returns (st: Status)
      modifies uriValue`success, dao.plugin.base`prop, dao.plugin`propSavingTimestamp, dao.plugin`savedProps
      ensures uriValue.success == Some(Join(parts, ",")) && Persisted(st, old(Store()), now)
    {
      uriValue.SetSuccess(Some(Join(parts, ",")));
      st := Persist(now);
    }

    /**
     * The counter set-up of `run`: a cursor at the last segment or at -1 starts over with zero
     * counters and an all-'0' bitstring; any other cursor resumes, putting one null placeholder
     * per segment up to the cursor and zeroing the counters from the next segment on (a null
     * counter text or a cursor below -1 throws before anything is stored).
     */
    method StartCounters(maxSegmentId: int, now: int) returns (st: Status)
      modifies this`segments, uriValue`segment, uriValue`success, uriValue`successSegments
      modifies dao.plugin.base`prop, dao.plugin`propSavingTimestamp, dao.plugin`savedProps
      ensures old(uriValue.segment) == maxSegmentId || old(uriValue.segment) == -1 ==>
        var n := SegmentCount(maxSegmentId);
        uriValue.segment == -1 && segments == old(segments) &&
        uriValue.success == Some(Join(ZeroEntries(2 * n), ",")) &&
        uriValue.successSegments == Some(Repeat('0', n)) && Persisted(st, old(Store()), now)
      ensures old(uriValue.segment) != maxSegmentId && old(uriValue.segment) != -1 ==>
        var cursor := old(uriValue.segment);
        uriValue.segment == cursor && uriValue.successSegments == old(uriValue.successSegments) &&
        segments == old(segments) + seq(SegmentCount(cursor), _ => null) &&
        (old(uriValue.success).None? ==>
          st == Failed(NULL_POINTER) && uriValue.success == old(uriValue.success) && Store() == old(Store())) &&
        (old(uriValue.success).Some? && cursor < -1 ==>
          st == Failed(INDEX_OUT_OF_BOUNDS) && uriValue.success == old(uriValue.success) && Store() == old(Store())) &&
        (old(uriValue.success).Some? && cursor >= 0 ==>
          uriValue.success == Some(Join(ZeroedFrom(Split(old(uriValue.success).value, ','), (cursor + 1) * 2), ",")) &&
          Persisted(st, old(Store()), now))
    {
      if uriValue.segment == maxSegmentId || uriValue.segment == -1 {
        st := StartOver(maxSegmentId, now);
      } else {
        st := Resume(now);
      }
    }

    /** A run that starts over: the cursor goes back to -1 and the counters are reset. */
    method StartOver(maxSegmentId: int, now: int) returns (st: Status)
      requires uriValue.segment == maxSegmentId || uriValue.segment == -1
      modifies uriValue`segment, uriValue`success, uriValue`successSegments
      modifies dao.plugin.base`prop, dao.plugin`propSavingTimestamp, dao.plugin`savedProps
      ensures var n := SegmentCount(maxSegmentId);
        uriValue.segment == -1 &&
        uriValue.success == Some(Join(ZeroEntries(2 * n), ",")) &&
        uriValue.successSegments == Some(Repeat('0', n)) && Persisted(st, old(Store()), now)
    {
      if uriValue.segment == maxSegmentId {
        uriValue.SetSegment(-1);
      }
      st := ResetCounters(maxSegmentId, now);
    }

    /** A run that resumes at the cursor: placeholders for the segments up to it, then the counters. */
    method Resume(now: int) returns (st: Status)
      modifies this`segments, uriValue`success
      modifies dao.plugin.base`prop, dao.plugin`propSavingTimestamp, dao.plugin`savedProps
      ensures var cursor := uriValue.segment;
        segments == old(segments) + seq(SegmentCount(cursor), _ => null) &&
        (old(uriValue.success).None? ==>
          st == Failed(NULL_POINTER) && uriValue.success == old(uriValue.success) && Store() == old(Store())) &&
        (old(uriValue.success).Some? && cursor < -1 ==>
          st == Failed(INDEX_OUT_OF_BOUNDS) && uriValue.success == old(uriValue.success) && Store() == old(Store())) &&
        (old(uriValue.success).Some? && cursor >= -1 ==>
          uriValue.success == Some(Join(ZeroedFrom(Split(old(uriValue.success).value, ','), (cursor + 1) * 2), ",")) &&
          Persisted(st, old(Store()), now))
    {
      var cursor := uriValue.segment;
      AddPlaceholders(cursor);
      st := ResumeCounters(cursor, now);
    }

    /** The counters of a run started over: zero counters and an all-'0' bitstring, persisted. */
    method ResetCounters(maxSegmentId: int, now: int) returns (st: Status)
      modifies uriValue`success, uriValue`successSegments
      modifies dao.plugin.base`prop, dao.plugin`propSavingTimestamp, dao.plugin`savedProps
      ensures var n := SegmentCount(maxSegmentId);
        uriValue.success == Some(Join(ZeroEntries(2 * n), ",")) &&
        uriValue.successSegments == Some(Repeat('0', n)) && Persisted(st, old(Store()), now)
    {
      var success, bits := ResetCounterTexts(maxSegmentId);
      uriValue.SetSuccess(Some(success));
      uriValue.SetSuccessSegments(Some(bits));
      st := Persist(now);
    }

    /** One null placeholder per segment up to the cursor, for the segments a resumed run skips. */
    method AddPlaceholders(cursor: int)
      modifies this`segments
      ensures segments == old(segments) + seq(SegmentCount(cursor), _ => null)
    {
      var i := 0;
      while i <= cursor
        invariant 0 <= i <= SegmentCount(cursor)
        invariant segments == old(segments) + seq(i, _ => null)
      {
        segments := segments + [null];
        i := i + 1;
      }
    }

    /**
     * The counters of a resumed run: the counter text is split, the entries of the segments
     * after the cursor are zeroed in place and the joined text is persisted; a null counter text
     * or a cursor below -1 throws before anything is stored.
     */
    method ResumeCounters(cursor: int, now: int) returns (st: Status)
      modifies uriValue`success, dao.plugin.base`prop, dao.plugin`propSavingTimestamp, dao.plugin`savedProps
      ensures old(uriValue.success).None? ==>
        st == Failed(NULL_POINTER) && uriValue.success == old(uriValue.success) && Store() == old(Store())
      ensures old(uriValue.success).Some? && cursor < -1 ==>
        st == Failed(INDEX_OUT_OF_BOUNDS) && uriValue.success == old(uriValue.success) && Store() == old(Store())
      ensures old(uriValue.success).Some? && cursor >= -1 ==>
        uriValue.success == Some(Join(ZeroedFrom(Split(old(uriValue.success).value, ','), (cursor + 1) * 2), ",")) &&
        Persisted(st, old(Store()), now)
    {
      if uriValue.success.None? {
        return Failed(NULL_POINTER);
      }
      var parts := Split(uriValue.success.value, ',');
      var buffer := new string[|parts|](k requires 0 <= k < |parts| => parts[k]);
      assert buffer[..] == parts;
      var zeroed := ZeroFrom(buffer, (cursor + 1) * 2);
      if zeroed.Failed? {
        return zeroed;
      }
      st := SaveSuccessToProp(buffer[..], now);
    }

    // ----- the watchdog -----

    /** `isActive(newActivity)`: a new activity is recorded and answers true; otherwise the window decides. */
    method IsActive(newActivity: bool, now: int) returns (r: bool)
      modifies this`lastActivityTime
      ensures newActivity ==> r && lastActivityTime == now
      ensures !newActivity ==> lastActivityTime == old(lastActivityTime) && r == StillActive(lastActivityTime, now)
    {
      if newActivity {
        lastActivityTime := now;
        return true;
      }
      if lastActivityTime != INT_MIN {
        var delay := JavaDiv(now - lastActivityTime, MINUTE_MS);
        return delay < MAX_LIFETIME + 5;
      }
      return false;
    }
  
    // ----- the segment cursor -----

    /** The blocks held by the segments of the run. */
    ghost function BlockFrame(): set<Block>
      reads this, Live(), set s | s in Live() :: s.blocks
    {
      set s, b | s in Live() && b in s.Blocks() :: b
    }

    /** Every segment after c up to the cursor is there and has dropped its blocks. */
    ghost predicate PassedFinished(c: int)
      reads this, uriValue, Live()
    {
      FinishedBetween(c, uriValue.segment)
    }

    /** Every segment after c up to d is there and has dropped its blocks. */
    ghost predicate FinishedBetween(c: int, d: int)
      reads this, Live()
    {
      forall k :: c < k <= d ==> FinishedAt(k)
    }

    /** Segment k is there and has dropped its blocks. */
    ghost predicate FinishedAt(k: int)
      reads this, Live()
    {
      0 <= k < |segments| && segments[k] != null && segments[k].blocks == null
    }

    /** The cursor may not move on from c: there is no later segment, or the next one is not finished. */
    ghost predicate StoppedAt(c: int)
      reads this, Live(), set s | s in Live() :: s.blocks, BlockFrame()
    {
      c >= |segments| - 1 || (0 <= c + 1 && segments[c + 1] != null && segments[c + 1].FinishedNow() == Ok(false))
    }

    /** Asking segment c + 1 whether it is finished throws: a negative index, a null placeholder or a missing slot. */
    ghost predicate ThrowsAt(c: int, st: Status)
      reads this, Live(), set s | s in Live() :: s.blocks, BlockFrame()
    {
      c < |segments| - 1 && st.Failed? && st.fault.RuntimeFault? &&
      (c + 1 < 0 || segments[c + 1] == null || segments[c + 1].FinishedNow().Err?)
    }

    /**
     * From the earlier state to this one the segment list stayed, the cursor only moved forward,
     * onto segments that are there and have dropped their blocks, and every other segment kept
     * its block array.
     */
    twostate predicate CursorAdvanced()
      reads this, uriValue, Live()
    {
      old(segments) == segments && old(uriValue.segment) <= uriValue.segment &&
      (uriValue.segment == old(uriValue.segment) || uriValue.segment < |segments|) &&
      PassedFinished(old(uriValue.segment)) &&
      forall k :: 0 <= k < |segments| && !(old(uriValue.segment) < k <= uriValue.segment) && segments[k] != null ==>
        segments[k].blocks == old(segments[k].blocks)
    }

    /**
     * `checkFinishedSegments()`: the cursor loop of `AdvanceCursor`, then the record is persisted
     * unless the loop threw.
     */
    method CheckFinishedSegments(now: int) returns (st: Status)
      requires Valid()
      modifies uriValue`segment, Live()`blocks, BlockFrame()`bucket
      modifies dao.plugin.base`prop, dao.plugin`propSavingTimestamp, dao.plugin`savedProps
      ensures Valid()
      ensures CursorAdvanced()
      ensures st.Failed? && st.fault.RuntimeFault? ==> Store() == old(Store())
      ensures !(st.Failed? && st.fault.RuntimeFault?) ==> Persisted(st, old(Store()), now)
    {
      st := AdvanceCursor();
      if st.Done? {
        st := PersistValid(now);
      }
    }

    /**
     * The loop of `checkFinishedSegments()`: moves the cursor over every following segment that
     * is finished (each of those frees its buckets and drops its array) and stops at the first
     * that is not, or throws on a placeholder, a negative index or a single-block segment
     * without its block.
     */
    method AdvanceCursor() returns (st: Status)
      requires Valid()
      modifies uriValue`segment, Live()`blocks, BlockFrame()`bucket
      ensures Valid()
      ensures CursorAdvanced()
      ensures st.Done? ==> StoppedAt(uriValue.segment)
      ensures st.Failed? ==> ThrowsAt(uriValue.segment, st)
    {
      while uriValue.segment < |segments| - 1
        invariant Valid()
        invariant BlockFrame() <= old(BlockFrame())
        invariant old(uriValue.segment) <= uriValue.segment
        invariant uriValue.segment == old(uriValue.segment) || uriValue.segment < |segments|
        invariant PassedFinished(old(uriValue.segment))
        invariant forall k :: 0 <= k < |segments| && !(old(uriValue.segment) < k <= uriValue.segment) && segments[k] != null ==>
          segments[k].blocks == old(segments[k].blocks)
        decreases |segments| - uriValue.segment
      {
        var moved;
        st, moved := StepCursor(old(uriValue.segment));
        if !moved {
          return;
        }
      }
      return Done;
    }

    /**
     * One turn of that loop: the segment after the cursor is asked whether it is finished; when
     * it is, the cursor moves onto it, and otherwise the answer or the exception ends the loop.
     */
    method StepCursor(ghost start: int) returns (st: Status, moved: bool)
      requires Valid() && start <= uriValue.segment < |segments| - 1 && PassedFinished(start)
      modifies uriValue`segment, Live()`blocks, BlockFrame()`bucket
      ensures Valid() && BlockFrame() <= old(BlockFrame()) && PassedFinished(start)
      ensures moved ==>
        st.Done? && uriValue.segment == old(uriValue.segment) + 1 && 0 <= uriValue.segment < |segments| &&
        segments[uriValue.segment] != null && segments[uriValue.segment].blocks == null
      ensures !moved ==> uriValue.segment == old(uriValue.segment)
      ensures forall k :: 0 <= k < |segments| && !(old(uriValue.segment) < k <= uriValue.segment) && segments[k] != null ==>
        segments[k].blocks == old(segments[k].blocks)
      ensures !moved && st.Done? ==> StoppedAt(uriValue.segment)
      ensures !moved && !st.Done? ==> ThrowsAt(uriValue.segment, st)
    {
      var next := uriValue.segment + 1;
      if next < 0 {
        return Failed(INDEX_OUT_OF_BOUNDS), false;
      }
      var s := segments[next];
      if s == null {
        return Failed(NULL_POINTER), false;
      }
      assert forall k :: 0 <= k < |segments| && k != next && segments[k] != null ==> segments[k] != s;
      var finished := s.IsFinished();
      assert forall k :: 0 <= k < |segments| && k != next && segments[k] != null ==>
        segments[k].blocks == old(segments[k].blocks);
      forall k | start < k <= uriValue.segment ensures FinishedAt(k) {
        assert old(FinishedAt(k));
      }
      if finished.Err? {
        return Failed(finished.fault), false;
      }
      if !finished.value {
        return Done, false;
      }
      MoveCursor(start);
      return Done, true;
    }

    /** The cursor moves onto the next segment, which has dropped its blocks. */
    method MoveCursor(ghost start: int)
      requires Valid() && start <= uriValue.segment && 0 <= uriValue.segment + 1 < |segments|
      requires segments[uriValue.segment + 1] != null && segments[uriValue.segment + 1].blocks == null
      requires PassedFinished(start)
      modifies uriValue`segment
      ensures uriValue.segment == old(uriValue.segment) + 1
      ensures Valid() && PassedFinished(start)
    {
      var next := uriValue.segment + 1;
      uriValue.SetSegment(next);
      forall k | start < k <= next ensures FinishedAt(k) {
        assert old(FinishedAt(k));
      }
    }

    // ----- the block numbering -----

    /**
     * `registerBlockUri(uri, newSegment, isDataBlock)`: a CHK not registered yet is stored under
     * its normalised key as a new block numbered after the previous one (or as block 0 of the
     * next segment when it opens a segment); a missing URI, another key type or a known key
     * changes nothing.
     */
    method RegisterBlockUri(uri: Option<FreenetUri>, newSegment: bool, isDataBlock: bool, normalize: FreenetUri -> FreenetUri)
      returns (registered: bool)
      modifies this`parsedSegmentId, this`parsedBlockId, uriValue`blocks
      ensures registered <==> uri.Some? && IsChk(uri.value) && normalize(uri.value) !in old(uriValue.blocks)
      ensures !registered ==>
        parsedSegmentId == old(parsedSegmentId) && parsedBlockId == old(parsedBlockId) && uriValue.blocks == old(uriValue.blocks)
      ensures registered ==>
        var key := normalize(uri.value);
        parsedSegmentId == old(parsedSegmentId) + (if newSegment then 1 else 0) &&
        parsedBlockId == (if newSegment then 0 else old(parsedBlockId) + 1) &&
        key in uriValue.blocks && uriValue.blocks == old(uriValue.blocks)[key := uriValue.blocks[key]] &&
        fresh(uriValue.blocks[key]) && NewBlock(uriValue.blocks[key], key, parsedSegmentId, parsedBlockId, isDataBlock)
    {
      if uri.None? || !IsChk(uri.value) || normalize(uri.value) in uriValue.blocks {
        return false;
      }
      if newSegment {
        parsedSegmentId := parsedSegmentId + 1;
        parsedBlockId := -1;
      }
      var key := normalize(uri.value);
      parsedBlockId := parsedBlockId + 1;
      var block := new Block(key, parsedSegmentId, parsedBlockId, isDataBlock);
      uriValue.PutBlock(key, block);
      registered := true;
    }

    /**
     * The block loop over one segment of a splitfile: key j is registered with `newSegment`
     * for j = 0 and as a data block for j < dataBlocks. When every key is a fresh CHK the
     * keys become blocks 0 .. |keys| - 1 of the next segment id and nothing else is stored.
     */
    method RegisterSegmentKeys(keys: seq<Option<FreenetUri>>, dataBlocks: int, normalize: FreenetUri -> FreenetUri)
      modifies this`parsedSegmentId, this`parsedBlockId, uriValue`blocks
      ensures AllNewKeys(keys, normalize, old(uriValue.blocks)) && |keys| >= 1 ==>
        parsedSegmentId == old(parsedSegmentId) + 1 && parsedBlockId == |keys| - 1 &&
        uriValue.blocks.Keys == old(uriValue.blocks).Keys + NormalizedKeys(keys, normalize) &&
        (forall key :: key in old(uriValue.blocks) ==> uriValue.blocks[key] == old(uriValue.blocks)[key]) &&
        (forall j :: 0 <= j < |keys| ==>
          NewBlock(uriValue.blocks[normalize(keys[j].value)], normalize(keys[j].value), parsedSegmentId, j, j < dataBlocks))
    {
      ghost var start := uriValue.blocks;
      ghost var seg := parsedSegmentId + 1;
      var j := 0;
      while j < |keys|
        invariant 0 <= j <= |keys|
        invariant AllNewKeys(keys, normalize, start) ==> Registered(keys, dataBlocks, normalize, j, start, seg)
      {
        RegisterKey(keys, dataBlocks, normalize, j, start, seg);
        j := j + 1;
      }
      assert keys[..|keys|] == keys;
    }

    /**
     * The state after the first j keys of a segment of fresh keys were registered: the segment
     * is numbered seg, the map is `start` plus one new block per key, numbered in key order.
     */
    ghost predicate Registered(keys: seq<Option<FreenetUri>>, dataBlocks: int, normalize: FreenetUri -> FreenetUri,
                               j: nat, start: map<FreenetUri, Block>, seg: int)
      requires j <= |keys|
      reads this, uriValue, uriValue.blocks.Values
    {
      AllNewKeys(keys, normalize, start) &&
      (j == 0 ==> parsedSegmentId == seg - 1 && uriValue.blocks == start) &&
      (j >= 1 ==>
        parsedSegmentId == seg && parsedBlockId == j - 1 &&
        uriValue.blocks.Keys == start.Keys + NormalizedKeys(keys[..j], normalize) &&
        (forall key :: key in start ==> key in uriValue.blocks && uriValue.blocks[key] == start[key]) &&
        (forall i :: 0 <= i < j ==>
          normalize(keys[i].value) in uriValue.blocks &&
          NewBlock(uriValue.blocks[normalize(keys[i].value)], normalize(keys[i].value), seg, i, i < dataBlocks)))
    }

    /** One turn of that loop: key j is registered, opening the segment when j is 0. */
    method RegisterKey(keys: seq<Option<FreenetUri>>, dataBlocks: int, normalize: FreenetUri -> FreenetUri,
                       j: nat, ghost start: map<FreenetUri, Block>, ghost seg: int)
      requires j < |keys|
      requires AllNewKeys(keys, normalize, start) ==> Registered(keys, dataBlocks, normalize, j, start, seg)
      modifies this`parsedSegmentId, this`parsedBlockId, uriValue`blocks
      ensures AllNewKeys(keys, normalize, start) ==> Registered(keys, dataBlocks, normalize, j + 1, start, seg)
    {
      ghost var before := uriValue.blocks;
      var registered := RegisterBlockUri(keys[j], j == 0, j < dataBlocks, normalize);
      if AllNewKeys(keys, normalize, start) {
        var key := normalize(keys[j].value);
        NormalizedKeysNext(keys, normalize, j);
        assert key !in before by {
          forall i | 0 <= i < j ensures normalize(keys[i].value) != key {
          }
          NotNormalized(keys, normalize, j, key);
        }
        assert registered;
      }
    }

    // ----- fetch results -----

    /**
     * `registerBlockFetchSuccess(block)`: the block's segment counts the outcome and the new
     * counters are persisted; a store failure is swallowed, while a segment id outside the list
     * or a null placeholder throws before anything is counted.
     */
    method RegisterBlockFetchSuccess(block: Block, now: int) returns (st: Status)
      modifies Live()`success, Live()`failed
      modifies uriValue`success, dao.plugin.base`prop, dao.plugin`propSavingTimestamp, dao.plugin`savedProps
      ensures !(0 <= block.segmentId < |segments|) ==> st == Failed(INDEX_OUT_OF_BOUNDS) && Store() == old(Store())
      ensures 0 <= block.segmentId < |segments| && segments[block.segmentId] == null ==>
        st == Failed(NULL_POINTER) && Store() == old(Store())
      ensures 0 <= block.segmentId < |segments| && segments[block.segmentId] != null ==>
        var s := segments[block.segmentId];
        s.success == old(s.success) + (if block.fetchSuccessful then 1 else 0) &&
        s.failed == old(s.failed) + (if block.fetchSuccessful then 0 else 1) &&
        var parts := CountersAfter(old(uriValue.success), s.id, s.success, s.failed);
        (parts.Err? ==> st == Failed(parts.fault) && Store() == old(Store())) &&
        (parts.Ok? ==>
          uriValue.success == Some(Join(parts.value, ",")) && st == Done &&
          dao.plugin.base.prop == UpdateOutcome(old(dao.plugin.base.prop), RecordOf(uriValue)).1)
    {
      if !(0 <= block.segmentId < |segments|) {
        return Failed(INDEX_OUT_OF_BOUNDS);
      }
      var s := segments[block.segmentId];
      if s == null {
        return Failed(NULL_POINTER);
      }
      var stat := s.RegFetchOutcome(block.fetchSuccessful);
      st := UpdateBlockStatistic(stat.segmentId, stat.success, stat.failed, now);
      if st.IsDaoFault() {
        st := Done;
      }
    }

    // ----- the USK step -----

    /**
     * The USK step of `run` as written: for a USK whose newest edition `newUri` differs, a
     * failing `exist` throws, a stored edition makes this record a duplicate, and otherwise the
     * record takes the new edition and is persisted, which `update` refuses every time.
     */
    method RefreshUskAsWritten(uri: FreenetUri, newUri: FreenetUri, now: int) returns (step: UskStep, st: Status)
      modifies uriValue`uri, uriValue`blockCount
      modifies dao.plugin.base`prop, dao.plugin`propSavingTimestamp, dao.plugin`savedProps
      ensures uri.keyType != USK || newUri == uri ==>
        step == SameUri && st == Done && uriValue.uri == old(uriValue.uri) && Store() == old(Store())
      ensures uri.keyType == USK && newUri != uri ==>
        var e := old(dao.ExistUri(newUri));
        (e.Err? ==> st == Failed(e.fault) && uriValue.uri == old(uriValue.uri) && Store() == old(Store())) &&
        (e == Ok(true) ==> step == Duplicate && st == Done && uriValue.uri == old(uriValue.uri) && Store() == old(Store())) &&
        (e == Ok(false) ==>
          step == NewUri && uriValue.uri == Some(newUri) && uriValue.blockCount == -1 &&
          st == Failed(DaoFault("The uri doesnt exist")) && Store() == old(Store()))
    {
      step, st := SameUri, Done;
      if uri.keyType != USK || newUri == uri {
        return;
      }
      var e := dao.Exist(Some(newUri));
      if e.Err? {
        return step, Failed(e.fault);
      }
      if e.value {
        return Duplicate, Done;
      }
      ghost var prop := dao.plugin.base.prop;
      uriValue.SetUri(Some(newUri));
      uriValue.SetBlockCount(-1);
      step := NewUri;
      st := Persist(now);
      UskRefreshAsWrittenFails(prop, old(RecordOf(uriValue)), newUri);
      assert RecordOf(uriValue) == WithNewUri(old(RecordOf(uriValue)), newUri);
    }

    /**
     * The USK step as intended: the new edition is first written under the record's id, so the
     * `update` that follows finds it; for a record in the id list the step then succeeds and the
     * new edition is stored.
     */
    method RefreshUsk(uri: FreenetUri, newUri: FreenetUri, now: int) returns (step: UskStep, st: Status)
      modifies uriValue`uri, uriValue`blockCount
      modifies dao.plugin.base`prop, dao.plugin`propSavingTimestamp, dao.plugin`savedProps
      ensures uri.keyType != USK || newUri == uri ==>
        step == SameUri && st == Done && uriValue.uri == old(uriValue.uri) && Store() == old(Store())
      ensures uri.keyType == USK && newUri != uri ==>
        var e := old(dao.ExistUri(newUri));
        (e.Err? ==> st == Failed(e.fault) && uriValue.uri == old(uriValue.uri) && Store() == old(Store())) &&
        (e == Ok(true) ==> step == Duplicate && st == Done && uriValue.uri == old(uriValue.uri) && Store() == old(Store())) &&
        (e == Ok(false) ==>
          step == NewUri && uriValue.uri == Some(newUri) && uriValue.blockCount == -1 &&
          (st, dao.plugin.base.prop) == UskRefreshCorrected(old(dao.plugin.base.prop), old(RecordOf(uriValue)), newUri) &&
          (old(dao.AllUriIds()).Ok? && uriValue.uriId in old(dao.AllUriIds()).value ==>
            st == Done && dao.ExistUri(newUri) == Ok(true)))
    {
      step, st := SameUri, Done;
      if uri.keyType != USK || newUri == uri {
        return;
      }
      var e := dao.Exist(Some(newUri));
      if e.Err? {
        return step, Failed(e.fault);
      }
      if e.value {
        return Duplicate, Done;
      }
      dao.SetPropId(Some(Uri), uriValue.uriId, Some(Text(newUri)));
      uriValue.SetUri(Some(newUri));
      uriValue.SetBlockCount(-1);
      step := NewUri;
      st := Persist(now);
      assert RecordOf(uriValue) == WithNewUri(old(RecordOf(uriValue)), newUri);
      if old(dao.AllUriIds()).Ok? && uriValue.uriId in old(dao.AllUriIds()).value {
        UskRefreshCorrectedStores(old(dao.plugin.base.prop), old(RecordOf(uriValue)), newUri);
      }
    }

    // ----- the history -----

    /**
     * The history step at the end of a run: once the last segment of a file with a known
     * block count has been processed, this month's persistence percentage is written into the
     * history and the record persisted; a history whose last entry cannot be read raises that
     * exception.
     */
    method AddToHistory(maxSegmentId: int, month: string, percent: int, now: int) returns (st: Status)
      modifies uriValue`history, dao.plugin.base`prop, dao.plugin`propSavingTimestamp, dao.plugin`savedProps
      ensures !(uriValue.blockCount > 0 && uriValue.segment == maxSegmentId) ==>
        st == Done && uriValue.history == old(uriValue.history) && Store() == old(Store())
      ensures uriValue.blockCount > 0 && uriValue.segment == maxSegmentId ==>
        var h := HistoryAfter(old(uriValue.history), month, percent);
        (h.Err? ==> st == Failed(h.fault) && uriValue.history == old(uriValue.history) && Store() == old(Store())) &&
        (h.Ok? ==> uriValue.history == Some(h.value) && Persisted(st, old(Store()), now))
    {
      st := Done;
      if !(uriValue.blockCount > 0 && uriValue.segment == maxSegmentId) {
        return;
      }
      var text := BuildHistory(uriValue.history, month, percent);
      if text.Err? {
        return Failed(text.fault);
      }
      uriValue.SetHistory(Some(text.value));
      st := Persist(now);
    }
  }
}
