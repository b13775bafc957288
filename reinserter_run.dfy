/**
 * The steps of `Reinserter.run()` between the block map and the insert jobs: which segment
 * comes next, how many blocks are sampled and which, how the full probe is put together,
 * what the probes decide, and how the blocks of a segment are handed to insert jobs.
 */
module ReinserterRun {
  import opened Wrappers
  import opened JavaText
  import opened FreenetKeys
  import opened BlockModel
  import opened SegmentModel
  import opened FetchBlocksResultModel
  import opened UriValueModel
  import opened ReinserterState
  import opened ReinserterModel
  import opened SingleFetchModel

  // ----- the segments of the block map -----

  /** `maxSegmentId`: the largest segment id of the registered blocks, -1 when there are none. */
  method MaxSegmentId(blocks: map<FreenetUri, Block>) returns (m: int)
    ensures m >= -1
    ensures forall k :: k in blocks ==> blocks[k].segmentId <= m
    ensures m == -1 || exists k :: k in blocks && blocks[k].segmentId == m
  {
    m := -1;
    var rest := blocks.Keys;
    while rest != {}
      invariant rest <= blocks.Keys
      invariant m >= -1
      invariant forall k :: k in blocks && k !in rest ==> blocks[k].segmentId <= m
      invariant m == -1 || exists k :: k in blocks && blocks[k].segmentId == m
      decreases rest
    {
      var k :| k in rest;
      if blocks[k].segmentId > m {
        m := blocks[k].segmentId;
      }
      rest := rest - {k};
    }
  }

  /** The keys of the blocks registered for segment `id`. */
  function MembersOf(blocks: map<FreenetUri, Block>, id: int): set<FreenetUri> {
    set k | k in blocks && blocks[k].segmentId == id
  }

  /** The count of the blocks of segment `id`, one per map entry. */
  method SegmentSize(blocks: map<FreenetUri, Block>, id: int) returns (n: nat)
    ensures n == |MembersOf(blocks, id)|
    ensures n == 0 <==> forall k :: k in blocks ==> blocks[k].segmentId != id
  {
    n := 0;
    var rest := blocks.Keys;
    while rest != {}
      invariant rest <= blocks.Keys
      invariant n == |MembersOf(blocks, id) - rest|
      decreases rest
    {
      var k :| k in rest;
      ghost var before := MembersOf(blocks, id) - rest;
      if blocks[k].segmentId == id {
        assert MembersOf(blocks, id) - (rest - {k}) == before + {k};
        n := n + 1;
      } else {
        assert MembersOf(blocks, id) - (rest - {k}) == before;
      }
      rest := rest - {k};
    }
    assert MembersOf(blocks, id) - {} == MembersOf(blocks, id);
    if n == 0 {
      assert MembersOf(blocks, id) == {};
    }
  }

  /** What looking for the next segment finds. */
  datatype NextSegment = Ready | Broken(fault: Fault) | Opened(segment: Segment)

  /** A block of the segment whose id `addBlock` rejects with an exception. */
  predicate RejectedId(b: Block, size: int) {
    b.id < 0 || b.id == size
  }

  /**
   * The head of the segment loop: the blocks registered for the next segment id are counted;
   * none means the run is through; otherwise a new segment of that size takes them in slot by
   * id (ids past the size are skipped, a negative id or one equal to the size throws) and is
   * appended to the run's segments.
   */
  method NextSegmentOf(r: Reinserter, blocks: map<FreenetUri, Block>) returns (next: NextSegment)
    requires r.Valid()
    modifies r`segments
    ensures var id := old(|r.segments|);
      next.Ready? <==> MembersOf(blocks, id) == {}
    ensures !next.Opened? ==> r.segments == old(r.segments)
    ensures var id := old(|r.segments|); var n := |MembersOf(blocks, id)|;
      next.Broken? <==> n > 0 && exists k :: k in MembersOf(blocks, id) && RejectedId(blocks[k], n)
    ensures next.Broken? ==> next.fault == INDEX_OUT_OF_BOUNDS
    ensures next.Opened? ==>
      var id := old(|r.segments|); var s := next.segment;
      fresh(s) && fresh(s.blocks) && r.segments == old(r.segments) + [s] && r.Valid() &&
      s.id == id && s.size == |MembersOf(blocks, id)| && s.blocks != null && s.blocks.Length == s.size &&
      (forall i :: 0 <= i < s.blocks.Length && s.blocks[i] != null ==>
        s.blocks[i].id == i && exists k :: k in MembersOf(blocks, id) && blocks[k] == s.blocks[i]) &&
      (forall k :: k in MembersOf(blocks, id) && 0 <= blocks[k].id < s.size ==> s.blocks[blocks[k].id] != null)
  {
    var id := |r.segments|;
    var n: nat := SegmentSize(blocks, id);
    if n == 0 {
      assert MembersOf(blocks, id) == {} by {
        forall k | k in MembersOf(blocks, id) ensures false {
        }
      }
      return Ready;
    }
    var s: Segment := new Segment(id, n);
    var failure := FillSlots(s, blocks, id);
    if failure.Some? {
      return Broken(failure.value);
    }
    r.segments := r.segments + [s];
    next := Opened(s);
  }

  /**
   * The filling loop of `getNextSegment`: every block of segment `id` is added to its slot,
   * and the first one whose id the segment rejects ends the filling with its fault.
   */
  method FillSlots(s: Segment, blocks: map<FreenetUri, Block>, id: int) returns (failure: Option<Fault>)
    requires s.blocks != null && s.Valid()
    requires forall i :: 0 <= i < s.blocks.Length ==> s.blocks[i] == null
    modifies s.blocks, s`dataBlocksCount
    ensures s.Valid()
    ensures failure.Some? ==>
      failure.value == INDEX_OUT_OF_BOUNDS && exists k :: k in MembersOf(blocks, id) && RejectedId(blocks[k], s.size)
    ensures failure.None? ==> forall k :: k in MembersOf(blocks, id) ==> !RejectedId(blocks[k], s.size)
    ensures failure.None? ==>
      forall i :: 0 <= i < s.blocks.Length && s.blocks[i] != null ==>
        exists k :: k in MembersOf(blocks, id) && blocks[k] == s.blocks[i]
    ensures failure.None? ==>
      forall k :: k in MembersOf(blocks, id) && 0 <= blocks[k].id < s.size ==> s.blocks[blocks[k].id] != null
  {
    var slots: array<Block?> := s.blocks;
    var n := s.size;
    var rest := blocks.Keys;
    while rest != {}
      invariant rest <= blocks.Keys
      invariant s.blocks == slots && slots.Length == n && s.Valid()
      invariant forall k :: k in MembersOf(blocks, id) && k !in rest ==> !RejectedId(blocks[k], n)
      invariant forall i :: 0 <= i < n && s.blocks[i] != null ==>
        exists k :: k in MembersOf(blocks, id) && blocks[k] == s.blocks[i]
      invariant forall k :: k in MembersOf(blocks, id) && k !in rest && 0 <= blocks[k].id < n ==> slots[blocks[k].id] != null
      modifies slots, s`dataBlocksCount
      decreases rest
    {
      var k :| k in rest;
      if blocks[k].segmentId == id {
        assert k in MembersOf(blocks, id);
        var added := s.AddBlock(blocks[k]);
        if added.Err? {
          return Some(added.fault);
        }
      }
      rest := rest - {k};
    }
    failure := None;
  }

  // ----- the availability probes -----

  /** `min(splitfileTestSize, ceil(segmentSize / 2.0))`: how many blocks the first probe fetches. */
  function SampleQuota(testSize: int, segmentSize: nat): (q: int)
    ensures q <= testSize && 2 * q <= segmentSize + 1
    ensures q == testSize || 2 * q >= segmentSize
  {
    var half := (segmentSize + 1) / 2;
    if testSize < half then testSize else half
  }

  /** For a segment that is probed at all, the sample is at least one block and never the whole segment. */
  lemma SampleIsProperPart(testSize: int, segmentSize: nat)
    requires segmentSize >= 2 && testSize >= 1
    ensures 1 <= SampleQuota(testSize, segmentSize) < segmentSize
  {
  }

  /**
   * The first probe as the random draws `draws` decide it: step t looks at slot t mod size
   * and takes its block when the draw is true and the block is not taken yet.
   */
  function Sampled(slots: seq<Block?>, draws: seq<bool>): seq<Block?>
    requires |slots| > 0
  {
    if |draws| == 0 then []
    else
      var before := Sampled(slots, draws[..|draws| - 1]);
      var x := slots[(|draws| - 1) % |slots|];
      if draws[|draws| - 1] && x !in before then before + [x] else before
  }

  /** The sample holds blocks of the segment, each once. */
  lemma {:induction false} SampledDistinct(slots: seq<Block?>, draws: seq<bool>)
    requires |slots| > 0
    ensures forall i, j :: 0 <= i < j < |Sampled(slots, draws)| ==> Sampled(slots, draws)[i] != Sampled(slots, draws)[j]
    ensures forall x :: x in Sampled(slots, draws) ==> x in slots
    ensures |Sampled(slots, draws)| <= |draws|
    decreases |draws|
  {
    if |draws| > 0 {
      SampledDistinct(slots, draws[..|draws| - 1]);
    }
  }

  /** Stepping the slot index: one past the last slot is slot 0 again. */
  lemma NextSlot(t: nat, n: nat)
    requires n > 0
    ensures (t + 1) % n == if t % n + 1 == n then 0 else t % n + 1
  {
    var q, r := t / n, t % n;
    assert t == n * q + r;
    if r + 1 == n {
      assert n * (q + 1) == n * q + n;
      DivUnique(t + 1, n, q + 1);
    } else {
      DivUnique(t + 1, n, q);
    }
  }

  /**
   * The selection loop of the first probe, with `draws[t]` standing for `Math.random() < p`
   * at step t: it stops once `quota` blocks are taken or when the draws run out, and
   * reports how many draws it used.
   */
  method SelectSample(slots: seq<Block?>, quota: int, draws: seq<bool>) returns (requested: seq<Block?>, used: nat)
    requires |slots| > 0
    ensures used <= |draws| && requested == Sampled(slots, draws[..used])
    ensures |requested| < quota ==> used == |draws|
    ensures |requested| <= if quota > 0 then quota else 0
  {
    requested, used := [], 0;
    var i := 0;
    while |requested| < quota && used < |draws|
      invariant 0 <= used <= |draws| && 0 <= i < |slots| && i == used % |slots|
      invariant requested == Sampled(slots, draws[..used])
      invariant |requested| <= if quota > 0 then quota else 0
    {
      var x := slots[i];
      assert draws[..used + 1][..used] == draws[..used];
      if draws[used] && x !in requested {
        requested := requested + [x];
      }
      NextSlot(used, |slots|);
      used := used + 1;
      i := i + 1;
      if i == |slots| {
        i := 0;
      }
    }
  }

  /** The full probe's list: the sample followed by every slot's block not in it yet, in slot order. */
  function WithRest(slots: seq<Block?>, requested: seq<Block?>): seq<Block?> {
    if |slots| == 0 then requested
    else
      var before := WithRest(slots[..|slots| - 1], requested);
      var x := slots[|slots| - 1];
      if x in before then before else before + [x]
  }

  /** The full probe starts with the sample, covers the whole segment and adds nothing else; a distinct sample stays distinct. */
  lemma {:induction false} WithRestCovers(slots: seq<Block?>, requested: seq<Block?>)
    ensures var all := WithRest(slots, requested);
      |all| >= |requested| && all[..|requested|] == requested &&
      (forall x :: x in slots ==> x in all) &&
      (forall x :: x in all ==> x in requested || x in slots)
    ensures (forall i, j :: 0 <= i < j < |requested| ==> requested[i] != requested[j]) ==>
      var all := WithRest(slots, requested); forall i, j :: 0 <= i < j < |all| ==> all[i] != all[j]
    decreases |slots|
  {
    if |slots| > 0 {
      var front := slots[..|slots| - 1];
      WithRestCovers(front, requested);
      var before := WithRest(front, requested);
      forall x | x in slots
        ensures x in WithRest(slots, requested)
      {
        if x != slots[|slots| - 1] {
          assert x in front;
        }
      }
      if slots[|slots| - 1] !in before {
        assert (before + [slots[|slots| - 1]])[..|requested|] == before[..|requested|];
      }
    }
  }

  /** The loop that completes the full probe: every slot whose block is not requested yet is appended. */
  method AddRest(slots: seq<Block?>, requested: seq<Block?>) returns (all: seq<Block?>)
    ensures all == WithRest(slots, requested)
  {
    all := requested;
    var i := 0;
    while i < |slots|
      invariant 0 <= i <= |slots|
      invariant all == WithRest(slots[..i], requested)
    {
      assert slots[..i + 1][..i] == slots[..i];
      if slots[i] !in all {
        all := all + [slots[i]];
      }
      i := i + 1;
    }
    assert slots[..|slots|] == slots;
  }

  // ----- what the full probe can show -----

  /** The success flags of a round of fetches, from the logs the blocks had and the answers they got. */
  function Outcomes(logs: seq<Option<string>>, replies: seq<FetchReply>): (r: seq<bool>)
    requires |logs| == |replies|
    ensures |r| == |logs|
    ensures forall k :: 0 <= k < |r| ==> r[k] == FetchVerdict(logs[k], replies[k]).1
  {
    seq(|logs|, k requires 0 <= k < |logs| => FetchVerdict(logs[k], replies[k]).1)
  }

  /** Counting a prefix and the rest separately. */
  lemma {:induction false} CountAppend(xs: seq<bool>, ys: seq<bool>, v: bool)
    ensures Count(xs + ys, v) == Count(xs, v) + Count(ys, v)
    decreases |ys|
  {
    if |ys| > 0 {
      assert (xs + ys)[..|xs + ys| - 1] == xs + ys[..|ys| - 1];
      CountAppend(xs, ys[..|ys| - 1], v);
    } else {
      assert xs + ys == xs;
    }
  }

  /** A value can occur at most as often as there are entries. */
  lemma {:induction false} CountAtMost(xs: seq<bool>, v: bool)
    ensures Count(xs, v) <= |xs|
    decreases |xs|
  {
    if |xs| > 0 {
      CountAtMost(xs[..|xs| - 1], v);
    }
  }

  /** Entries that are all false count no success. */
  lemma {:induction false} CountNone(xs: seq<bool>)
    requires forall k :: 0 <= k < |xs| ==> !xs[k]
    ensures Count(xs, true) == 0
    decreases |xs|
  {
    if |xs| > 0 {
      CountNone(xs[..|xs| - 1]);
    }
  }

  /**
   * The full probe fetches the sampled blocks again; each of them already carries a result
   * log, so whatever the network answers it is counted as failed, and at most the unsampled
   * blocks can count as successes.
   */
  lemma FullProbeSuccessBound(logs: seq<Option<string>>, replies: seq<FetchReply>, sampled: nat)
    requires |logs| == |replies| && sampled <= |logs|
    requires forall k :: 0 <= k < sampled ==> logs[k].Some?
    ensures Count(Outcomes(logs, replies), true) <= |logs| - sampled
  {
    var r := Outcomes(logs, replies);
    assert r == r[..sampled] + r[sampled..];
    CountAppend(r[..sampled], r[sampled..], true);
    CountNone(r[..sampled]);
    CountAtMost(r[sampled..], true);
  }

  /** The rate of a round of fetches. */
  function RateOf(outcomes: seq<bool>): (r: Rate)
    ensures r.successful + r.failed == |outcomes|
  {
    CountPartition(outcomes);
    Rate(Count(outcomes, true), Count(outcomes, false))
  }

  /**
   * With the default settings (tolerance 66 %, test size 18) a segment of 2 to 52 blocks is
   * never accepted on its full probe: the sample is at least 18 blocks or half the segment,
   * and those can no longer count as fetched.
   */
  lemma SmallSegmentsFailFullProbe(logs: seq<Option<string>>, replies: seq<FetchReply>)
    requires |logs| == |replies| && 2 <= |logs| <= 52
    requires forall k :: 0 <= k < SampleQuota(18, |logs|) ==> logs[k].Some?
    ensures !RateOf(Outcomes(logs, replies)).AtLeastPercent(66)
  {
    var n := |logs|;
    var q := SampleQuota(18, n);
    FullProbeSuccessBound(logs, replies, q);
    var r := RateOf(Outcomes(logs, replies));
    assert r.successful <= n - q;
    assert 100 * (n - q) < 66 * n;
    assert 100 * r.successful <= 100 * (n - q);
  }

  // ----- the decision -----

  /** What the segment loop does with a segment. */
  datatype SegmentPlan =
    | AcceptedOnSample      // the first probe met the tolerance
    | AcceptedOnFullProbe   // the probe of every block met it
    | HealingFailed         // FEC decoding or encoding threw: the segment is given up
    | Reinsert(healed: bool) // reinsert, after FEC healing for a split segment

  /**
   * The decision of the segment loop for a segment of `size` blocks: a single block is
   * always reinserted; a split segment is accepted on the first probe that meets the
   * tolerance, and otherwise healed by FEC and reinserted, or given up when FEC throws.
   */
  function PlanFor(size: nat, tolerance: int, sample: Rate, full: Rate, decoded: bool, encoded: bool): (p: SegmentPlan)
    ensures size <= 1 ==> p == Reinsert(false)
    ensures size > 1 ==> (p == AcceptedOnSample <==> sample.AtLeastPercent(tolerance))
    ensures p == AcceptedOnFullProbe <==> size > 1 && !sample.AtLeastPercent(tolerance) && full.AtLeastPercent(tolerance)
    ensures p == HealingFailed <==>
      size > 1 && !sample.AtLeastPercent(tolerance) && !full.AtLeastPercent(tolerance) && !(decoded && encoded)
    ensures p == Reinsert(true) <==>
      size > 1 && !sample.AtLeastPercent(tolerance) && !full.AtLeastPercent(tolerance) && decoded && encoded
  {
    if size <= 1 then Reinsert(false)
    else if sample.AtLeastPercent(tolerance) then AcceptedOnSample
    else if full.AtLeastPercent(tolerance) then AcceptedOnFullProbe
    else if decoded && encoded then Reinsert(true)
    else HealingFailed
  }

  /**
   * Under the default settings a split segment of at most 52 blocks that fails its first
   * probe is never accepted on the full probe: it is healed or given up.
   */
  lemma SmallSegmentsNeverAcceptedOnFullProbe(sample: Rate, logs: seq<Option<string>>, replies: seq<FetchReply>,
                                              decoded: bool, encoded: bool)
    requires |logs| == |replies| && 2 <= |logs| <= 52
    requires forall k :: 0 <= k < SampleQuota(18, |logs|) ==> logs[k].Some?
    requires !sample.AtLeastPercent(66)
    ensures var p := PlanFor(|logs|, 66, sample, RateOf(Outcomes(logs, replies)), decoded, encoded);
      p == HealingFailed || p == Reinsert(true)
  {
    SmallSegmentsFailFullProbe(logs, replies);
  }

  // ----- accepting a segment -----

  /**
   * While no segment of the run changes its array and no array changes its slots, the blocks
   * held by the run are the same: a later call may still change their buckets.
   */
  twostate lemma BlockFrameKept(r: Reinserter)
    requires unchanged(r)
    requires forall s :: s in old(r.Live()) ==> unchanged(s`blocks) && (s.blocks != null ==> unchanged(s.blocks))
    ensures r.Live() == old(r.Live()) && r.BlockFrame() <= old(r.BlockFrame())
  {
    forall b | b in r.BlockFrame()
      ensures b in old(r.BlockFrame())
    {
      var s :| s in r.Live() && b in s.Blocks();
      var i :| 0 <= i < s.blocks.Length && s.blocks[i] == b;
      assert old(s.blocks) == s.blocks && old(s.blocks[i]) == b;
      assert s in old(r.Live());
      assert b in old(s.Blocks());
    }
  }

  /**
   * The statistics of an accepted segment are in the record: its counters rewritten from the
   * success text `success` and its bit set in the bitstring `bits`.
   */
  ghost predicate AcceptanceSaved(r: Reinserter, segment: Segment, success: Option<string>, bits: Option<string>)
    reads r, r.uriValue, segment
  {
    var parts := CountersAfter(success, segment.id, segment.success, segment.failed);
    parts.Ok? && r.uriValue.success == Some(Join(parts.value, ",")) &&
    SegmentBitsAfter(bits, segment.id, true) == Ok(r.uriValue.successSegments)
  }

  /**
   * The bookkeeping of an accepted segment: it is marked persistent with `success` the rounded
   * share of its size under the rate, and both statistics are persisted (counters, then the
   * segment's bit); the first exception stops it.
   */
  method SaveAcceptance(r: Reinserter, segment: Segment, rate: Rate, now: int) returns (st: Status)
    modifies segment`persistenceCheckOk, segment`success, segment`failed
    modifies r.uriValue`success, r.uriValue`successSegments
    modifies r.dao.plugin.base`prop, r.dao.plugin`propSavingTimestamp, r.dao.plugin`savedProps
    ensures segment.persistenceCheckOk
    ensures segment.success == RoundedShare(rate, segment.size) && segment.failed == segment.size - segment.success
    ensures var parts := CountersAfter(old(r.uriValue.success), segment.id, segment.success, segment.failed);
      parts.Err? ==> st == Failed(parts.fault)
    ensures st.Done? ==> AcceptanceSaved(r, segment, old(r.uriValue.success), old(r.uriValue.successSegments))
  {
    var stat := segment.RegFetchRate(rate);
    st := SaveCounters(r, stat.segmentId, stat.success, stat.failed, now);
    if !st.Done? {
      return;
    }
    st := SaveBit(r, segment, now);
  }

  /** `updateBlockStatistic`, seen from the acceptance: the counters as `CountersAfter` rewrites them. */
  method SaveCounters(r: Reinserter, id: int, s: int, f: int, now: int) returns (st: Status)
    modifies r.uriValue`success, r.dao.plugin.base`prop, r.dao.plugin`propSavingTimestamp, r.dao.plugin`savedProps
    ensures var parts := CountersAfter(old(r.uriValue.success), id, s, f);
      (parts.Err? ==> st == Failed(parts.fault)) &&
      (parts.Ok? ==> r.uriValue.success == Some(Join(parts.value, ",")))
  {
    st := r.UpdateBlockStatistic(id, s, f, now);
  }

  /** `updateSegmentStatistic(segment, true)`, seen from the acceptance: the segment's bit is set. */
  method SaveBit(r: Reinserter, segment: Segment, now: int) returns (st: Status)
    modifies r.uriValue`successSegments, r.dao.plugin.base`prop, r.dao.plugin`propSavingTimestamp, r.dao.plugin`savedProps
    ensures var bits := SegmentBitsAfter(old(r.uriValue.successSegments), segment.id, true);
      (bits.Err? ==> st == Failed(bits.fault)) && (bits.Ok? ==> r.uriValue.successSegments == bits.value)
  {
    st := r.UpdateSegmentStatistic(segment, true, now);
  }

  /**
   * A probe that met the tolerance: the acceptance is saved, and the cursor moves over finished
   * segments; the pass moves on (breaks) unless the cursor has reached the last segment. An
   * exception from any of these steps ends the run.
   */
  method AcceptSegment(r: Reinserter, segment: Segment, rate: Rate, maxSegmentId: int, now: int)
    returns (moveOn: bool, st: Status)
    requires r.Valid()
    modifies segment`persistenceCheckOk, segment`success, segment`failed
    modifies r.uriValue`success, r.uriValue`successSegments, r.uriValue`segment, r.Live()`blocks, r.BlockFrame()`bucket
    modifies r.dao.plugin.base`prop, r.dao.plugin`propSavingTimestamp, r.dao.plugin`savedProps
    ensures segment.persistenceCheckOk
    ensures segment.success == RoundedShare(rate, segment.size) && segment.failed == segment.size - segment.success
    ensures var parts := CountersAfter(old(r.uriValue.success), segment.id, segment.success, segment.failed);
      parts.Err? ==> st == Failed(parts.fault) && !moveOn
    ensures st.Done? ==>
      AcceptanceSaved(r, segment, old(r.uriValue.success), old(r.uriValue.successSegments)) &&
      old(r.uriValue.segment) <= r.uriValue.segment && r.PassedFinished(old(r.uriValue.segment)) &&
      (moveOn <==> r.uriValue.segment != maxSegmentId)
    ensures !st.Done? ==> !moveOn
  {
    moveOn := false;
    st := SaveAcceptance(r, segment, rate, now);
    if !st.Done? {
      return;
    }
    BlockFrameKept(r);
    ValidKept(r);
    moveOn, st := MoveOnFrom(r, maxSegmentId, now);
  }

  /**
   * The end of an acceptance: the cursor moves over finished segments, and the pass breaks
   * unless the cursor is on the last segment.
   */
  method MoveOnFrom(r: Reinserter, maxSegmentId: int, now: int) returns (moveOn: bool, st: Status)
    requires r.Valid()
    modifies r.uriValue`segment, r.Live()`blocks, r.BlockFrame()`bucket
    modifies r.dao.plugin.base`prop, r.dao.plugin`propSavingTimestamp, r.dao.plugin`savedProps
    ensures st.Done? ==>
      old(r.uriValue.segment) <= r.uriValue.segment && r.PassedFinished(old(r.uriValue.segment)) &&
      (moveOn <==> r.uriValue.segment != maxSegmentId)
    ensures !st.Done? ==> !moveOn
  {
    moveOn := false;
    st := MoveOverFinished(r, now);
    if !st.Done? {
      return;
    }
    moveOn := r.uriValue.segment != maxSegmentId;
  }

  // ----- healing a segment -----

  /** The length of a CHK data block, the size of the zero block standing in for a missing one. */
  const DATA_LENGTH := 32768

  function ZeroBlock(): (z: seq<int8>)
    ensures |z| == DATA_LENGTH && forall k :: 0 <= k < |z| ==> z[k] == 0
  {
    seq(DATA_LENGTH, _ => 0)
  }

  /** A slot the healing step can read: a block, holding its content when it was fetched. */
  predicate Readable(b: Block?)
    reads b
  {
    b != null && (b.fetchSuccessful ==> b.bucket.Some?)
  }

  /**
   * The FEC input read from a run of slots: the content of each fetched block marked present,
   * a zero block marked absent for each other one.
   */
  ghost function SlotInputs(slots: seq<Block?>): (r: (seq<seq<int8>>, seq<bool>))
    requires forall k :: 0 <= k < |slots| ==> Readable(slots[k])
    reads set k | 0 <= k < |slots| && slots[k] != null :: slots[k]
    ensures |r.0| == |slots| && |r.1| == |slots|
  {
    if |slots| == 0 then ([], [])
    else
      var before := SlotInputs(slots[..|slots| - 1]);
      var b := slots[|slots| - 1];
      assert Readable(b);
      if b.fetchSuccessful then (before.0 + [b.bucket.value.data], before.1 + [true])
      else (before.0 + [ZeroBlock()], before.1 + [false])
  }

  /** Slot k of the run gives its block's content marked present when it was fetched, a zero block marked absent otherwise. */
  lemma {:induction false} SlotInputsAt(slots: seq<Block?>)
    requires forall k :: 0 <= k < |slots| ==> Readable(slots[k])
    ensures var r := SlotInputs(slots);
      forall k :: 0 <= k < |slots| ==>
        (r.1[k] <==> slots[k].fetchSuccessful) &&
        r.0[k] == (if slots[k].fetchSuccessful then slots[k].bucket.value.data else ZeroBlock())
  {
    if |slots| > 0 {
      var init := slots[..|slots| - 1];
      assert forall k :: 0 <= k < |init| ==> init[k] == slots[k];
      SlotInputsAt(init);
    }
  }

  /**
   * The FEC codec of a segment, decoding and then encoding: from the data blocks and the check
   * blocks with their presence flags, all data and check blocks, or None when either step throws.
   */
  type Codec = (seq<seq<int8>>, seq<bool>, seq<seq<int8>>, seq<bool>) -> Option<(seq<seq<int8>>, seq<seq<int8>>)>

  /** The codec fills the arrays it is given: the healed runs have the lengths of the inputs. */
  ghost predicate FillsInPlace(fec: Codec) {
    forall d, dp, c, cp :: fec(d, dp, c, cp).Some? ==>
      |fec(d, dp, c, cp).value.0| == |d| && |fec(d, dp, c, cp).value.1| == |c|
  }

  /** What the healing step hands the codec, when every slot can be read. */
  ghost function HealingInputs(segment: Segment): Option<(seq<seq<int8>>, seq<bool>, seq<seq<int8>>, seq<bool>)>
    requires segment.blocks != null
    reads segment, segment.blocks, segment.Blocks()
  {
    var ds := segment.DataSize();
    if !(0 <= ds <= segment.blocks.Length) || exists k :: 0 <= k < segment.blocks.Length && !Readable(segment.blocks[k]) then None
    else
      var d := SlotInputs(segment.blocks[..ds]);
      var c := SlotInputs(segment.blocks[ds..]);
      Some((d.0, d.1, c.0, c.1))
  }

  /**
   * The two loops building the FEC arrays: the data slots here, then the check slots in
   * `CollectChecks`, a fetched block giving its content and any other block a zero block. An
   * array size that does not fit the segment throws before any slot is read; a slot that cannot
   * be read throws too.
   */
  method ReadHealingInputs(segment: Segment) returns (input: Result<(seq<seq<int8>>, seq<bool>, seq<seq<int8>>, seq<bool>)>)
    requires segment.blocks != null && segment.Valid()
    ensures input.Ok? <==> old(HealingInputs(segment)).Some?
    ensures input.Ok? ==> old(HealingInputs(segment)) == Some(input.value)
    ensures input.Err? ==>
      input.fault == if 0 <= segment.DataSize() <= segment.blocks.Length then NULL_POINTER else NEGATIVE_ARRAY_SIZE
  {
    var ds := segment.DataSize();
    var cs := segment.CheckSize();
    if ds < 0 || cs < 0 {
      return Err(NEGATIVE_ARRAY_SIZE);
    }
    var data: seq<seq<int8>>, dataPresent: seq<bool> := [], [];
    var i := 0;
    while i < ds
      invariant 0 <= i <= ds
      invariant forall k :: 0 <= k < i ==> Readable(segment.blocks[k])
      invariant (data, dataPresent) == SlotInputs(segment.blocks[..i])
    {
      var b := segment.blocks[i];
      if b == null || (b.fetchSuccessful && b.bucket.None?) {
        UnreadableSlot(segment, i);
        return Err(NULL_POINTER);
      }
      assert segment.blocks[..i + 1][..i] == segment.blocks[..i];
      if b.fetchSuccessful {
        data, dataPresent := data + [b.bucket.value.data], dataPresent + [true];
      } else {
        data, dataPresent := data + [ZeroBlock()], dataPresent + [false];
      }
      i := i + 1;
    }
    input := CollectChecks(segment, ds, cs, (data, dataPresent));
  }

  /**
   * The second loop, over the check slots, once the data slots were read into `data`: both runs
   * together are the healing input.
   */
  method CollectChecks(segment: Segment, ds: nat, cs: nat, data: (seq<seq<int8>>, seq<bool>))
    returns (input: Result<(seq<seq<int8>>, seq<bool>, seq<seq<int8>>, seq<bool>)>)
    requires segment.blocks != null && segment.Valid() && ds == segment.DataSize() && cs == segment.CheckSize()
    requires forall k :: 0 <= k < ds ==> Readable(segment.blocks[k])
    requires data == SlotInputs(segment.blocks[..ds])
    ensures input.Ok? <==> old(HealingInputs(segment)).Some?
    ensures input.Ok? ==> old(HealingInputs(segment)) == Some(input.value)
    ensures input.Err? ==> input.fault == NULL_POINTER
  {
    var check: seq<seq<int8>>, checkPresent: seq<bool> := [], [];
    var i := 0;
    while i < cs
      invariant 0 <= i <= cs
      invariant forall k :: ds <= k < ds + i ==> Readable(segment.blocks[k])
      invariant (check, checkPresent) == SlotInputs(segment.blocks[ds..ds + i])
    {
      var b := segment.blocks[ds + i];
      if b == null || (b.fetchSuccessful && b.bucket.None?) {
        UnreadableSlot(segment, ds + i);
        return Err(NULL_POINTER);
      }
      assert segment.blocks[ds..ds + i + 1][..i] == segment.blocks[ds..ds + i];
      if b.fetchSuccessful {
        check, checkPresent := check + [b.bucket.value.data], checkPresent + [true];
      } else {
        check, checkPresent := check + [ZeroBlock()], checkPresent + [false];
      }
      i := i + 1;
    }
    ReadableSlots(segment, ds, cs, data, (check, checkPresent));
    input := Ok((data.0, data.1, check, checkPresent));
  }

  /** One slot that cannot be read leaves the healing step without input. */
  lemma UnreadableSlot(segment: Segment, k: int)
    requires segment.blocks != null && 0 <= k < segment.blocks.Length && !Readable(segment.blocks[k])
    ensures HealingInputs(segment).None?
  {
  }

  /** When both runs of slots can be read, the healing input is what was read from them. */
  lemma ReadableSlots(segment: Segment, ds: nat, cs: nat, data: (seq<seq<int8>>, seq<bool>), check: (seq<seq<int8>>, seq<bool>))
    requires segment.blocks != null && segment.Valid() && ds == segment.DataSize() && cs == segment.CheckSize()
    requires forall k :: 0 <= k < ds ==> Readable(segment.blocks[k])
    requires forall k :: ds <= k < ds + cs ==> Readable(segment.blocks[k])
    requires data == SlotInputs(segment.blocks[..ds])
    requires check == SlotInputs(segment.blocks[ds..ds + cs])
    ensures HealingInputs(segment) == Some((data.0, data.1, check.0, check.1))
  {
    assert segment.blocks[ds..ds + cs] == segment.blocks[ds..];
    assert forall k :: 0 <= k < segment.blocks.Length ==> Readable(segment.blocks[k]) by {
      forall k | 0 <= k < segment.blocks.Length
        ensures Readable(segment.blocks[k])
      {
        if k >= ds {
          assert ds <= k < ds + cs;
        }
      }
    }
  }

  /** The healed contents are stored in the blocks of the slots from `from`, each in a fresh bucket. */
  method StoreHealed(segment: Segment, from: nat, contents: seq<seq<int8>>)
    requires segment.blocks != null && segment.Valid() && from + |contents| <= segment.blocks.Length
    requires forall k :: from <= k < from + |contents| ==> segment.blocks[k] != null
    modifies segment.Blocks()`bucket
    ensures forall k :: from <= k < from + |contents| ==> segment.blocks[k].bucket == Some(Bucket(contents[k - from], false))
    ensures forall k :: 0 <= k < segment.blocks.Length && !(from <= k < from + |contents|) && segment.blocks[k] != null ==>
      segment.blocks[k].bucket == old(segment.blocks[k].bucket)
  {
    var i := 0;
    while i < |contents|
      invariant 0 <= i <= |contents|
      invariant forall k :: from <= k < from + i ==> segment.blocks[k].bucket == Some(Bucket(contents[k - from], false))
      invariant forall k :: 0 <= k < segment.blocks.Length && !(from <= k < from + i) && segment.blocks[k] != null ==>
        segment.blocks[k].bucket == old(segment.blocks[k].bucket)
    {
      var b := segment.blocks[from + i];
      b.SetBucket(Some(Bucket(contents[i], false)));
      i := i + 1;
    }
  }

  /** Every slot holds its healed content: data block k the codec's k-th data block, check block k its k-th check block. */
  ghost predicate HealedStored(segment: Segment, ds: int, out: (seq<seq<int8>>, seq<seq<int8>>))
    reads segment, segment.blocks, segment.Blocks()
  {
    segment.blocks != null && 0 <= ds && |out.0| == ds && |out.1| == segment.blocks.Length - ds &&
    forall k :: 0 <= k < segment.blocks.Length ==>
      segment.blocks[k] != null &&
      segment.blocks[k].bucket == Some(Bucket(if k < ds then out.0[k] else out.1[k - ds], false))
  }

  /** A throwing codec: the segment's (unchanged) bit is persisted and the segment is marked as not healable. */
  method MarkUnhealable(r: Reinserter, segment: Segment, now: int) returns (st: Status)
    modifies segment`healingNotPossible
    modifies r.uriValue`successSegments, r.dao.plugin.base`prop, r.dao.plugin`propSavingTimestamp, r.dao.plugin`savedProps
    ensures r.uriValue.successSegments == old(r.uriValue.successSegments)
    ensures st.Done? ==> segment.healingNotPossible
  {
    st := r.UpdateSegmentStatistic(segment, false, now);
    if !st.Done? {
      return;
    }
    segment.SetHealingNotPossible(true);
  }

  /** `checkFinishedSegments()` seen from a step of the run: the cursor only moves over finished segments. */
  method MoveOverFinished(r: Reinserter, now: int) returns (st: Status)
    requires r.Valid()
    modifies r.uriValue`segment, r.Live()`blocks, r.BlockFrame()`bucket
    modifies r.dao.plugin.base`prop, r.dao.plugin`propSavingTimestamp, r.dao.plugin`savedProps
    ensures st.Done? ==> old(r.uriValue.segment) <= r.uriValue.segment && r.PassedFinished(old(r.uriValue.segment))
  {
    st := r.CheckFinishedSegments(now);
  }

  /**
   * A throwing codec: the segment is marked as not healable (its bit persisted unchanged), and
   * the cursor moves over finished segments.
   */
  method GiveUpHealing(r: Reinserter, segment: Segment, now: int) returns (st: Status)
    requires r.Valid()
    modifies segment`healingNotPossible
    modifies r.uriValue`successSegments, r.uriValue`segment, r.Live()`blocks, r.BlockFrame()`bucket
    modifies r.dao.plugin.base`prop, r.dao.plugin`propSavingTimestamp, r.dao.plugin`savedProps
    ensures st.Done? ==>
      segment.healingNotPossible && r.uriValue.successSegments == old(r.uriValue.successSegments) &&
      old(r.uriValue.segment) <= r.uriValue.segment && r.PassedFinished(old(r.uriValue.segment))
  {
    st := MarkUnhealable(r, segment, now);
    if !st.Done? {
      return;
    }
    BlockFrameKept(r);
    ValidKept(r);
    st := MoveOverFinished(r, now);
  }

  /** A codec that did not throw: its contents are stored in the blocks and the segment's bit is set. */
  method ApplyHealing(r: Reinserter, segment: Segment, ds: nat, out: (seq<seq<int8>>, seq<seq<int8>>), now: int)
    returns (healed: bool, st: Status)
    requires segment.blocks != null && segment.Valid() && ds == segment.DataSize()
    requires |out.0| == ds && |out.1| == segment.blocks.Length - ds
    requires forall k :: 0 <= k < segment.blocks.Length ==> segment.blocks[k] != null
    modifies segment.Blocks()`bucket
    modifies r.uriValue`successSegments, r.dao.plugin.base`prop, r.dao.plugin`propSavingTimestamp, r.dao.plugin`savedProps
    ensures (healed <==> st.Done?) && HealedStored(segment, ds, out)
    ensures st.Done? ==> SegmentBitsAfter(old(r.uriValue.successSegments), segment.id, true) == Ok(r.uriValue.successSegments)
  {
    StoreHealed(segment, 0, out.0);
    StoreHealed(segment, ds, out.1);
    assert HealedStored(segment, ds, out);
    st := r.UpdateSegmentStatistic(segment, true, now);
    healed := st.Done?;
  }

  /**
   * Healing a segment with FEC: the data blocks and the check blocks are read (fetched content
   * present, a zero block absent) and handed to the codec. When it throws, healing is given up
   * and nothing is reinserted; otherwise every block gets its healed content and the segment's
   * bit is set. Array sizes that do not fit the segment, or a slot that cannot be read, throw.
   */
  method HealSegment(r: Reinserter, segment: Segment, fec: Codec, now: int) returns (healed: bool, st: Status)
    requires r.Valid() && segment.Valid() && segment.blocks != null && FillsInPlace(fec)
    modifies segment`healingNotPossible, segment.Blocks()`bucket
    modifies r.uriValue`successSegments, r.uriValue`segment, r.Live()`blocks, r.BlockFrame()`bucket
    modifies r.dao.plugin.base`prop, r.dao.plugin`propSavingTimestamp, r.dao.plugin`savedProps
    ensures healed ==> st.Done? && segment.blocks == old(segment.blocks) && segment.Valid()
    ensures old(HealingInputs(segment)).None? ==>
      !healed && st.Failed? && segment.healingNotPossible == old(segment.healingNotPossible)
    ensures var input := old(HealingInputs(segment));
      input.Some? ==>
        var out := fec(input.value.0, input.value.1, input.value.2, input.value.3);
        (out.None? ==>
          !healed &&
          (st.Done? ==>
            segment.healingNotPossible && r.uriValue.successSegments == old(r.uriValue.successSegments) &&
            old(r.uriValue.segment) <= r.uriValue.segment && r.PassedFinished(old(r.uriValue.segment)))) &&
        (out.Some? ==>
          (healed <==> st.Done?) && HealedStored(segment, old(segment.DataSize()), out.value) &&
          (st.Done? ==> SegmentBitsAfter(old(r.uriValue.successSegments), segment.id, true) == Ok(r.uriValue.successSegments)))
  {
    healed := false;
    var input := ReadHealingInputs(segment);
    ValidKept(r);
    if input.Err? {
      return false, Failed(input.fault);
    }
    var out := fec(input.value.0, input.value.1, input.value.2, input.value.3);
    if out.None? {
      st := GiveUpHealing(r, segment, now);
      return;
    }
    healed, st := ApplyHealing(r, segment, segment.DataSize(), out.value, now);
  }

  // ----- the insertion dispatch -----

  /** The blocks a split segment hands to insert jobs: those not fetched, in slot order. */
  ghost function Unfetched(slots: seq<Block?>): seq<Block?>
    reads set k | 0 <= k < |slots| && slots[k] != null :: slots[k]
  {
    if |slots| == 0 then []
    else
      var before := Unfetched(slots[..|slots| - 1]);
      var x := slots[|slots| - 1];
      if x != null && x.fetchSuccessful then before else before + [x]
  }

  /** Extending the slots by one extends the queue by that slot exactly when it was not fetched. */
  lemma UnfetchedStep(slots: seq<Block?>, i: nat)
    requires i < |slots| && slots[i] != null
    ensures Unfetched(slots[..i + 1]) ==
      if slots[i].fetchSuccessful then Unfetched(slots[..i]) else Unfetched(slots[..i]) + [slots[i]]
  {
    assert slots[..i + 1][..i] == slots[..i];
  }

  /**
   * What `updateBlockStatistic(id, s, f)` leaves behind from the success text `before` and
   * the store `store`: the exception of a malformed text with the store untouched, or the
   * new text persisted.
   */
  ghost predicate StatisticSaved(r: Reinserter, before: Option<string>, store: (map<string, string>, int, seq<map<string, string>>),
                                 id: int, s: int, f: int, st: Status, now: int)
    reads r, r.uriValue, r.dao, r.dao.plugin, r.dao.plugin.base
  {
    var parts := CountersAfter(before, id, s, f);
    if parts.Err? then st == Failed(parts.fault) && r.Store() == store
    else r.uriValue.success == Some(Join(parts.value, ",")) && r.Persisted(st, store, now)
  }

  /**
   * Counts one block of a split segment: a success when it was fetched, a failure otherwise,
   * and persists the segment's new counters.
   */
  method CountSlot(r: Reinserter, segment: Segment, b: Block, now: int) returns (st: Status)
    modifies segment`success, segment`failed
    modifies r.uriValue`success, r.dao.plugin.base`prop, r.dao.plugin`propSavingTimestamp, r.dao.plugin`savedProps
    ensures b.fetchSuccessful ==> segment.success == old(segment.success) + 1 && segment.failed == old(segment.failed)
    ensures !b.fetchSuccessful ==> segment.failed == old(segment.failed) + 1 && segment.success == old(segment.success)
    ensures StatisticSaved(r, old(r.uriValue.success), old(r.Store()), segment.id, segment.success, segment.failed, st, now)
  {
    var stat := segment.RegFetchOutcome(b.fetchSuccessful);
    st := r.UpdateBlockStatistic(stat.segmentId, stat.success, stat.failed, now);
  }

  /** CountSlot seen from the dispatch loop, which needs only the segment's counters. */
  method TallySlot(r: Reinserter, segment: Segment, b: Block, now: int) returns (st: Status)
    modifies segment`success, segment`failed
    modifies r.uriValue`success, r.dao.plugin.base`prop, r.dao.plugin`propSavingTimestamp, r.dao.plugin`savedProps
    ensures b.fetchSuccessful ==> segment.success == old(segment.success) + 1 && segment.failed == old(segment.failed)
    ensures !b.fetchSuccessful ==> segment.failed == old(segment.failed) + 1 && segment.success == old(segment.success)
  {
    st := CountSlot(r, segment, b, now);
  }

  /**
   * One pass of the dispatch loop over slot i of a split segment: the reinserter is marked
   * active, the block is counted, and queued when it was not fetched.
   */
  method DispatchSlot(r: Reinserter, segment: Segment, i: nat, queue: seq<Block?>, now: int)
    returns (queue': seq<Block?>, st: Status)
    requires segment.blocks != null && i < segment.blocks.Length
    requires queue == Unfetched(segment.blocks[..i]) && segment.failed == |queue| && segment.success == i - |queue|
    modifies segment`success, segment`failed, r`lastActivityTime
    modifies r.uriValue`success, r.dao.plugin.base`prop, r.dao.plugin`propSavingTimestamp, r.dao.plugin`savedProps
    ensures r.lastActivityTime == now
    ensures segment.blocks[i] == null ==> st == Failed(NULL_POINTER)
    ensures st.Done? ==>
      segment.blocks[i] != null && queue' == old(Unfetched(segment.blocks[..i + 1])) &&
      segment.failed == |queue'| && segment.success == i + 1 - |queue'|
  {
    // the slot is read before the reinserter is marked active: marking it changes no block
    var b := segment.blocks[i];
    if b != null {
      UnfetchedStep(segment.blocks[..], i);
      assert segment.blocks[..][..i + 1] == segment.blocks[..i + 1] && segment.blocks[..][..i] == segment.blocks[..i];
    }
    queue' := if b != null && !b.fetchSuccessful then queue + [b] else queue;
    var active := r.IsActive(true, now);
    if b == null {
      return queue, Failed(NULL_POINTER);
    }
    st := TallySlot(r, segment, b, now);
  }

  /**
   * The loop of the dispatch over a split segment: slot by slot the reinserter is marked
   * active and the block is counted; the unfetched ones are queued. A null slot or a failing
   * persist ends it with that exception.
   */
  method QueueUnfetched(r: Reinserter, segment: Segment, now: int) returns (queue: seq<Block?>, st: Status)
    requires segment.blocks != null && segment.blocks.Length == segment.size > 1
    requires segment.success == 0 && segment.failed == 0
    modifies segment`success, segment`failed, r`lastActivityTime
    modifies r.uriValue`success, r.dao.plugin.base`prop, r.dao.plugin`propSavingTimestamp, r.dao.plugin`savedProps
    ensures r.lastActivityTime == now
    ensures st.Done? ==>
      queue == old(Unfetched(segment.blocks[..])) &&
      segment.failed == |queue| && segment.success == segment.size - |queue|
    ensures (exists k :: 0 <= k < segment.size && segment.blocks[k] == null) ==> st.Failed?
  {
    queue := [];
    var i := 0;
    while i < segment.size
      invariant 0 <= i <= segment.size
      invariant i > 0 ==> r.lastActivityTime == now
      invariant queue == old(Unfetched(segment.blocks[..i])) && segment.failed == |queue| && segment.success == i - |queue|
      invariant forall k :: 0 <= k < i ==> segment.blocks[k] != null
    {
      queue, st := DispatchSlot(r, segment, i, queue, now);
      if !st.Done? {
        return;
      }
      i := i + 1;
    }
    assert segment.blocks[..segment.size] == segment.blocks[..];
    st := Done;
  }

  /**
   * The start of the reinsertion of a segment: the counters are cleared and the reinserter is
   * marked active; a split segment counts each fetched block as a success and any other as a
   * failure (each count persisted) and queues the unfetched blocks, while the block of a
   * one-block segment is always queued. A segment that has already finished has no slots to
   * read from (a NullPointerException).
   */
  method DispatchInsertions(r: Reinserter, segment: Segment, now: int) returns (queue: seq<Block?>, st: Status)
    requires segment.Valid()
    modifies segment`success, segment`failed, r`lastActivityTime
    modifies r.uriValue`success, r.dao.plugin.base`prop, r.dao.plugin`propSavingTimestamp, r.dao.plugin`savedProps
    ensures segment.size > 0 ==> r.lastActivityTime == now
    ensures segment.size > 0 && segment.blocks == null ==> st == Failed(NULL_POINTER)
    ensures segment.blocks != null && segment.size == 1 ==>
      st == Done && queue == segment.blocks[..] && segment.success == 0 && segment.failed == 0
    ensures segment.blocks != null && segment.size > 1 && st.Done? ==>
      queue == Unfetched(segment.blocks[..]) &&
      segment.failed == |queue| && segment.success == segment.size - |queue|
    ensures segment.blocks != null && segment.size > 1 && (exists k :: 0 <= k < segment.size && segment.blocks[k] == null) ==>
      st.Failed?
  {
    segment.InitInsert();
    if segment.size == 0 {
      return [], Done;
    }
    if segment.size > 1 && segment.blocks != null {
      queue, st := QueueUnfetched(r, segment, now);
      return;
    }
    // the single pass of the loop over a one-block segment, or its first pass over none
    var active := r.IsActive(true, now);
    if segment.blocks == null {
      return [], Failed(NULL_POINTER);
    }
    queue := [segment.blocks[0]];
    assert queue == segment.blocks[..];
    st := Done;
  }

  // ----- one turn of the segment loop -----

  /**
   * The turn of the segment loop for a segment just built, given the rates of its two probes:
   * a single block goes straight to reinsertion; a split segment whose first probe meets the
   * tolerance is accepted without the full probe, then one whose full probe meets it; any
   * other is healed by FEC and reinserted, or given up when the codec throws. An accepted
   * segment ends the pass unless the cursor has reached the last segment.
   */
  method SegmentTurn(r: Reinserter, segment: Segment, tolerance: int, sample: Rate, full: Rate, fec: Codec,
                     maxSegmentId: int, now: int)
    returns (plan: SegmentPlan, moveOn: bool, queue: seq<Block?>, st: Status)
    requires r.Valid() && segment.Valid() && segment.blocks != null && FillsInPlace(fec)
    modifies segment`persistenceCheckOk, segment`success, segment`failed, segment`healingNotPossible, segment.Blocks()`bucket
    modifies r`lastActivityTime, r.uriValue`success, r.uriValue`successSegments, r.uriValue`segment
    modifies r.Live()`blocks, r.BlockFrame()`bucket
    modifies r.dao.plugin.base`prop, r.dao.plugin`propSavingTimestamp, r.dao.plugin`savedProps
    ensures var input := old(HealingInputs(segment));
      var healable := input.Some? && fec(input.value.0, input.value.1, input.value.2, input.value.3).Some?;
      st.Done? ==> plan == PlanFor(segment.size, tolerance, sample, full, healable, healable)
    ensures moveOn ==> st.Done? && (plan == AcceptedOnSample || plan == AcceptedOnFullProbe)
    ensures st.Done? && (plan == AcceptedOnSample || plan == AcceptedOnFullProbe) ==>
      segment.persistenceCheckOk && (moveOn <==> r.uriValue.segment != maxSegmentId)
    ensures !plan.Reinsert? ==> queue == []
    ensures st.Done? && plan == HealingFailed ==> segment.healingNotPossible
    ensures plan.Reinsert? ==> segment.blocks == old(segment.blocks)
    ensures st.Done? && plan.Reinsert? && segment.blocks != null && segment.size == 1 ==> queue == segment.blocks[..]
    ensures st.Done? && plan.Reinsert? && segment.blocks != null && segment.size > 1 ==>
      queue == Unfetched(segment.blocks[..])
  {
    moveOn, queue := false, [];
    if segment.size <= 1 {
      plan := Reinsert(false);
      queue, st := DispatchInsertions(r, segment, now);
      return;
    }
    if sample.AtLeastPercent(tolerance) {
      plan := AcceptedOnSample;
      moveOn, st := AcceptSegment(r, segment, sample, maxSegmentId, now);
      return;
    }
    if full.AtLeastPercent(tolerance) {
      plan := AcceptedOnFullProbe;
      moveOn, st := AcceptSegment(r, segment, full, maxSegmentId, now);
      return;
    }
    var healed;
    healed, st := HealSegment(r, segment, fec, now);
    if !healed {
      plan := HealingFailed;
      return;
    }
    plan := Reinsert(true);
    queue, st := DispatchInsertions(r, segment, now);
  }
}
