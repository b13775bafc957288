/**
 * A fetch job (keepalive.service.net.SingleFetch): how one answer of the network moves a
 * block's fetch flags, bucket and result log, and how the outcome reaches the segment counters.
 */
module SingleFetchModel {
  import opened Wrappers
  import opened JavaText
  import opened FreenetKeys
  import opened BlockModel
  import opened SegmentModel
  import opened SingleJobModel
  import opened ReinserterState
  import opened ReinserterModel

  /** What the client's fetch gives back: an exception with its message, no result, or the data. */
  datatype FetchReply = FetchError(message: string) | NoResult | Fetched(data: seq<int8>)

  /** The log once the request is over: a fetch exception overwrites it, anything else leaves it. */
  function ErrorLogged(log: Option<string>, reply: FetchReply): (r: Option<string>)
    ensures reply.FetchError? ==> r.Some? && StartsWith(r.value, "-> fetch error: ")
    ensures !reply.FetchError? ==> r == log
  {
    if reply.FetchError? then Some("-> fetch error: " + reply.message) else log
  }

  /**
   * The result log and the success flag an uninterrupted fetch answering `reply` leaves on a
   * block whose log was `log`: success is recorded only when the log is still unset, so data
   * arriving for a block that already carries a log (from an earlier fetch) is dropped.
   */
  function FetchVerdict(log: Option<string>, reply: FetchReply): (r: (Option<string>, bool))
    ensures r.0.Some?
    ensures r.1 <==> log.None? && reply.Fetched?
    ensures log.Some? && !reply.FetchError? ==> r == (log, false)
    ensures log.None? && reply.NoResult? ==> r.0 != Some("-> fetch successful")
  {
    var logged := ErrorLogged(log, reply);
    if logged.Some? then (logged, false)
    else if reply.NoResult? then (Some("-> fetch failed"), false)
    else (Some("-> fetch successful"), true)
  }

  class SingleFetch {
    const job: SingleJob
    const reinserter: Reinserter
    /** Whether the ignore-store client is asked; the answer arrives as the reply either way. */
    const persistenceCheck: bool

    constructor (reinserter: Reinserter, block: Block, persistenceCheck: bool)
      ensures this.reinserter == reinserter && this.persistenceCheck == persistenceCheck
      ensures fresh(job) && job.block == block && job.jobType == FetchJob
      ensures job.uriExtra == None && job.compressionAlgorithm == None
    {
      this.reinserter := reinserter;
      this.persistenceCheck := persistenceCheck;
      job := new SingleJob(FetchJob, block);
    }

    /**
     * `call()`: an unreadable key throws before the block is touched. Otherwise both fetch
     * flags are reset, the reply is logged; an interrupted thread returns false there; an
     * uninterrupted one applies `FetchVerdict`, registers the outcome with the reinserter and
     * only then marks the fetch done, so a throwing registration leaves the fetch not done.
     */
    method Call(reply: FetchReply, threadInterrupted: bool, compressorName: int8 -> Option<string>, now: int)
      returns (r: Result<bool>)
      modifies job`uriExtra, job`compressionAlgorithm
      modifies job.block`fetchDone, job.block`fetchSuccessful, job.block`resultLog, job.block`bucket
      modifies reinserter.Live()`success, reinserter.Live()`failed, reinserter.uriValue`success
      modifies reinserter.dao.plugin.base`prop, reinserter.dao.plugin`propSavingTimestamp, reinserter.dao.plugin`savedProps
      ensures var b := job.block;
        UriUnreadable(b.uri, compressorName) ==>
          r.Err? && b.fetchDone == old(b.fetchDone) && b.fetchSuccessful == old(b.fetchSuccessful) &&
          b.resultLog == old(b.resultLog) && b.bucket == old(b.bucket) && reinserter.Store() == old(reinserter.Store())
      ensures var b := job.block;
        !UriUnreadable(b.uri, compressorName) && threadInterrupted ==>
          r == Ok(false) && !b.fetchDone && !b.fetchSuccessful &&
          b.resultLog == ErrorLogged(old(b.resultLog), reply) && b.bucket == old(b.bucket) &&
          reinserter.Store() == old(reinserter.Store())
      ensures var b := job.block;
        !UriUnreadable(b.uri, compressorName) && !threadInterrupted ==>
          var v := FetchVerdict(old(b.resultLog), reply);
          b.resultLog == v.0 && b.fetchSuccessful == v.1 &&
          b.bucket == (if v.1 then Some(Bucket(reply.data, false)) else old(b.bucket)) &&
          (r.Ok? <==> b.fetchDone) && (r.Ok? ==> r.value == v.1)
      ensures var b := job.block; var sid := b.segmentId; var segs := reinserter.segments;
        !UriUnreadable(b.uri, compressorName) && !threadInterrupted && 0 <= sid < |segs| && segs[sid] != null ==>
          segs[sid].success == old(segs[sid].success) + (if b.fetchSuccessful then 1 else 0) &&
          segs[sid].failed == old(segs[sid].failed) + (if b.fetchSuccessful then 0 else 1)
      ensures var b := job.block; var sid := b.segmentId; var segs := reinserter.segments;
        !UriUnreadable(b.uri, compressorName) && !threadInterrupted && !(0 <= sid < |segs| && segs[sid] != null) ==>
          r.Err? && !b.fetchDone
    {
      var block := job.block;
      var fetchUri := job.GetUri(compressorName);
      if fetchUri.Err? {
        return Err(fetchUri.fault);
      }
      ghost var log := block.resultLog;
      ResetAndLog(block, reply);
      if threadInterrupted {
        return Ok(false);
      }
      r := Conclude(reply, now, log);
    }

    /**
     * The rest of an uninterrupted `call()`, once the flags are reset and the exception logged:
     * the verdict, its registration with the reinserter, then the fetch marked done.
     */
    method Conclude(reply: FetchReply, now: int, ghost log: Option<string>) returns (r: Result<bool>)
      requires !job.block.fetchDone && !job.block.fetchSuccessful && job.block.resultLog == ErrorLogged(log, reply)
      modifies job.block`fetchDone, job.block`fetchSuccessful, job.block`resultLog, job.block`bucket
      modifies reinserter.Live()`success, reinserter.Live()`failed, reinserter.uriValue`success
      modifies reinserter.dao.plugin.base`prop, reinserter.dao.plugin`propSavingTimestamp, reinserter.dao.plugin`savedProps
      ensures var b := job.block; var v := FetchVerdict(log, reply);
        b.resultLog == v.0 && b.fetchSuccessful == v.1 &&
        b.bucket == (if v.1 then Some(Bucket(reply.data, false)) else old(b.bucket)) &&
        (r.Ok? <==> b.fetchDone) && (r.Ok? ==> r.value == v.1)
      ensures var b := job.block; var sid := b.segmentId; var segs := reinserter.segments;
        0 <= sid < |segs| && segs[sid] != null ==>
          segs[sid].success == old(segs[sid].success) + (if b.fetchSuccessful then 1 else 0) &&
          segs[sid].failed == old(segs[sid].failed) + (if b.fetchSuccessful then 0 else 1)
      ensures var b := job.block; var sid := b.segmentId; var segs := reinserter.segments;
        !(0 <= sid < |segs| && segs[sid] != null) ==> r.Err? && !b.fetchDone
    {
      var block := job.block;
      var fetchSuccessful := ApplyVerdict(block, reply);
      assert (block.resultLog, block.fetchSuccessful) == FetchVerdict(log, reply);
      var st := CountFetch(now);
      if st.Failed? {
        return Err(st.fault);
      }
      block.SetFetchDone(true);
      r := Ok(fetchSuccessful);
    }

    /**
     * `registerBlockFetchSuccess(block)` seen from the fetch: the block's segment counts one more
     * success or failure; a missing segment throws.
     */
    method CountFetch(now: int) returns (st: Status)
      modifies reinserter.Live()`success, reinserter.Live()`failed, reinserter.uriValue`success
      modifies reinserter.dao.plugin.base`prop, reinserter.dao.plugin`propSavingTimestamp, reinserter.dao.plugin`savedProps
      ensures var b := job.block; var sid := b.segmentId; var segs := reinserter.segments;
        0 <= sid < |segs| && segs[sid] != null ==>
          segs[sid].success == old(segs[sid].success) + (if b.fetchSuccessful then 1 else 0) &&
          segs[sid].failed == old(segs[sid].failed) + (if b.fetchSuccessful then 0 else 1)
      ensures var sid := job.block.segmentId; var segs := reinserter.segments;
        !(0 <= sid < |segs| && segs[sid] != null) ==> st.Failed?
    {
      st := reinserter.RegisterBlockFetchSuccess(job.block, now);
    }

    /** Both fetch flags cleared and a fetch exception logged, as `call()` does once the key is read. */
    static method ResetAndLog(block: Block, reply: FetchReply)
      modifies block`fetchDone, block`fetchSuccessful, block`resultLog
      ensures !block.fetchDone && !block.fetchSuccessful
      ensures block.resultLog == ErrorLogged(old(block.resultLog), reply)
    {
      block.SetFetchDone(false);
      block.SetFetchSuccessful(false);
      if reply.FetchError? {
        block.SetResultLog(Some("-> fetch error: " + reply.message));
      }
    }

    /**
     * The verdict of an uninterrupted fetch on a block whose fetch exception, if any, is already
     * logged: a log left unset becomes "failed" for no result, or "successful" with the data kept.
     */
    static method ApplyVerdict(block: Block, reply: FetchReply) returns (fetchSuccessful: bool)
      requires !block.fetchSuccessful && block.resultLog == ErrorLogged(block.resultLog, reply)
      modifies block`fetchSuccessful, block`resultLog, block`bucket
      ensures (block.resultLog, block.fetchSuccessful) == FetchVerdict(old(block.resultLog), reply)
      ensures fetchSuccessful == block.fetchSuccessful
      ensures block.bucket == if fetchSuccessful then Some(Bucket(reply.data, false)) else old(block.bucket)
    {
      fetchSuccessful := false;
      if block.resultLog.None? {
        if reply.NoResult? {
          block.SetResultLog(Some("-> fetch failed"));
        } else {
          block.SetBucket(Some(Bucket(reply.data, false)));
          block.SetFetchSuccessful(true);
          block.SetResultLog(Some("-> fetch successful"));
          fetchSuccessful := true;
        }
      }
    }
  }
}
