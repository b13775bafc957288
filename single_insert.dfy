/**
 * An insert job (keepalive.service.net.SingleInsert): fetches the block first when it has no
 * data, hands the data to the network and records whether the network stored it under the
 * requested key.
 */
module SingleInsertModel {
  import opened Wrappers
  import opened FreenetKeys
  import opened BlockModel
  import opened SegmentModel
  import opened SingleJobModel
  import opened ReinserterState
  import opened ReinserterModel
  import opened SingleFetchModel

  /** What the insert client is asked for: the data, the key, the compressor, the 1255 crypto mode and the priority. */
  datatype InsertRequest = InsertRequest(data: seq<int8>, target: FreenetUri, compressor: Option<string>, compat1255: bool, priority: int)

  /** What the client answers: an exception with its message, no URI, or the URI the data was stored under. */
  datatype InsertReply = InsertError(message: string) | NoUri | InsertedAs(uri: FreenetUri)

  /** How `run()` ends: normally, by returning early, or by an exception (caught and logged, or thrown on). */
  datatype JobEnd = Completed | Stopped | Threw(fault: Fault)

  /** Top blocks and single-key files go at priority 1, every other block at 3. */
  function InsertPriority(segmentSize: int): (p: int)
    ensures p == 1 <==> segmentSize == 1
    ensures p == 1 || p == 3
  {
    if segmentSize == 1 then 1 else 3
  }

  /**
   * The request for the data of a block with key `key` in a segment of `segmentSize` blocks:
   * the raw-data key, the block's own compressor unless it has none, and the 1255 mode for
   * keys of crypto algorithm 2.
   */
  function RequestFor(data: seq<int8>, key: FreenetUri, compressorName: int8 -> Option<string>, segmentSize: int): (r: InsertRequest)
    requires |key.extra| >= 5
    ensures r.data == data && r.target == RawDataUri(key) && r.priority == InsertPriority(segmentSize)
    ensures r.compat1255 <==> key.extra[1] == 2
    ensures r.compressor.Some? ==> key.extra[4] >= 0 && r.compressor == compressorName(key.extra[4]) && r.compressor != Some("none")
    ensures key.extra[4] < 0 ==> r.compressor.None?
  {
    var name := if key.extra[4] >= 0 then compressorName(key.extra[4]) else Some("none");
    InsertRequest(data, RawDataUri(key), if name.Some? && name.value != "none" then name else None,
      key.extra[1] == 2, InsertPriority(segmentSize))
  }

  /** The result log and the success flag for the answer `reply` to a request for key `requested`. */
  function InsertVerdict(requested: FreenetUri, reply: InsertReply): (r: (string, bool))
    ensures r.1 <==> reply == InsertedAs(requested)
    ensures reply.InsertedAs? ==> r.0 != "failed"
  {
    match reply
    case InsertError(message) => ("error: " + message, false)
    case NoUri => ("failed", false)
    case InsertedAs(u) =>
      if u == requested then ("inserted: " + Text(u), true) else ("failed - different uri: " + Text(u), false)
  }

  class SingleInsert {
    const job: SingleJob
    const reinserter: Reinserter

    constructor (reinserter: Reinserter, block: Block)
      ensures this.reinserter == reinserter
      ensures fresh(job) && job.block == block && job.jobType == InsertionJob
      ensures job.uriExtra == None && job.compressionAlgorithm == None
    {
      this.reinserter := reinserter;
      job := new SingleJob(InsertionJob, block);
    }

    /**
     * `run()` with the network's answers as inputs: `fetchReply` for the fetch of a block
     * without data, `insert` for the insertion, and the clock at the two watchdog checks.
     */
    method Run(fetchReply: FetchReply, insert: InsertRequest -> InsertReply, threadInterrupted: bool,
               compressorName: int8 -> Option<string>, fetchedAt: int, insertedAt: int)
      returns (end: JobEnd)
      modifies job`uriExtra, job`compressionAlgorithm
      modifies job.block`fetchDone, job.block`fetchSuccessful, job.block`resultLog, job.block`bucket
      modifies job.block`insertDone, job.block`insertSuccessful
      modifies reinserter`lastActivityTime, reinserter.Live()`success, reinserter.Live()`failed
      modifies reinserter.uriValue`success, reinserter.uriValue`successSegments
      modifies reinserter.dao.plugin.base`prop, reinserter.dao.plugin`propSavingTimestamp, reinserter.dao.plugin`savedProps
      ensures var b := job.block;
        UriUnreadable(b.uri, compressorName) ==>
          end.Threw? && b.insertDone == old(b.insertDone) && b.insertSuccessful == old(b.insertSuccessful) &&
          b.bucket == old(b.bucket) && b.resultLog == old(b.resultLog)
      ensures var b := job.block;
        !UriUnreadable(b.uri, compressorName) ==> (b.insertDone <==> end == Completed)
      ensures var b := job.block;
        old(b.bucket).Some? ==>
          b.bucket == old(b.bucket) && b.fetchDone == old(b.fetchDone) && b.fetchSuccessful == old(b.fetchSuccessful)
      ensures var b := job.block;
        !UriUnreadable(b.uri, compressorName) && b.insertSuccessful ==>
          b.bucket.Some? &&
          var sid := b.segmentId; var segs := reinserter.segments;
          0 <= sid < |segs| && segs[sid] != null &&
          insert(RequestFor(b.bucket.value.data, b.uri, compressorName, segs[sid].size)) == InsertedAs(RawDataUri(b.uri))
      ensures var b := job.block;
        end == Completed && b.bucket.None? ==> b.resultLog == Some("failed: fetch failed") && !b.insertSuccessful
      ensures var b := job.block; var sid := b.segmentId; var segs := reinserter.segments;
        end == Completed && b.bucket.Some? ==>
          0 <= sid < |segs| && segs[sid] != null &&
          var v := InsertVerdict(RawDataUri(b.uri), insert(RequestFor(b.bucket.value.data, b.uri, compressorName, segs[sid].size)));
          b.resultLog == Some(v.0) && b.insertSuccessful == v.1
      ensures var b := job.block; var sid := b.segmentId; var segs := reinserter.segments;
        end == Completed ==>
          0 <= sid < |segs| && segs[sid] != null &&
          (segs[sid].size == 1 ==>
            SegmentBitsAfter(old(reinserter.uriValue.successSegments), segs[sid].id, b.insertSuccessful) ==
              Ok(reinserter.uriValue.successSegments)) &&
          (segs[sid].size != 1 ==> reinserter.uriValue.successSegments == old(reinserter.uriValue.successSegments))
      ensures var b := job.block; var sid := b.segmentId; var segs := reinserter.segments;
        end == Stopped && old(b.bucket).Some? ==>
          0 <= sid < |segs| &&
          (threadInterrupted ||
           (segs[sid] != null &&
            !insert(RequestFor(b.bucket.value.data, b.uri, compressorName, segs[sid].size)).InsertError? &&
            !StillActive(old(reinserter.lastActivityTime), insertedAt)))
    {
      var block := job.block;
      var fetchUri := job.GetUri(compressorName);
      if fetchUri.Err? {
        return Threw(fetchUri.fault);
      }
      block.SetInsertDone(false);
      block.SetInsertSuccessful(false);
      var early := FetchMissing(fetchReply, threadInterrupted, compressorName, fetchedAt);
      if early.Some? {
        return early.value;
      }
      end := Deliver(insert, threadInterrupted, compressorName, insertedAt);
    }

    /**
     * The rest of `run()` once the block has its data or the fetch gave up: the insertion, the
     * segment's bit for a single-block segment, and the block marked done.
     */
    method Deliver(insert: InsertRequest -> InsertReply, threadInterrupted: bool,
                   compressorName: int8 -> Option<string>, insertedAt: int)
      returns (end: JobEnd)
      requires !UriUnreadable(job.block.uri, compressorName)
      requires !job.block.insertDone && !job.block.insertSuccessful
      modifies job.block`resultLog, job.block`insertDone, job.block`insertSuccessful
      modifies reinserter`lastActivityTime, reinserter.uriValue`successSegments
      modifies reinserter.dao.plugin.base`prop, reinserter.dao.plugin`propSavingTimestamp, reinserter.dao.plugin`savedProps
      ensures job.block.insertDone <==> end == Completed
      ensures var b := job.block;
        b.insertSuccessful ==>
          b.bucket.Some? &&
          var sid := b.segmentId; var segs := reinserter.segments;
          0 <= sid < |segs| && segs[sid] != null &&
          insert(RequestFor(b.bucket.value.data, b.uri, compressorName, segs[sid].size)) == InsertedAs(RawDataUri(b.uri))
      ensures var b := job.block;
        end == Completed && b.bucket.None? ==> b.resultLog == Some("failed: fetch failed") && !b.insertSuccessful
      ensures var b := job.block; var sid := b.segmentId; var segs := reinserter.segments;
        end == Completed && b.bucket.Some? ==>
          0 <= sid < |segs| && segs[sid] != null &&
          var v := InsertVerdict(RawDataUri(b.uri), insert(RequestFor(b.bucket.value.data, b.uri, compressorName, segs[sid].size)));
          b.resultLog == Some(v.0) && b.insertSuccessful == v.1
      ensures var b := job.block; var sid := b.segmentId; var segs := reinserter.segments;
        end == Completed ==>
          0 <= sid < |segs| && segs[sid] != null &&
          (segs[sid].size == 1 ==>
            SegmentBitsAfter(old(reinserter.uriValue.successSegments), segs[sid].id, b.insertSuccessful) ==
              Ok(reinserter.uriValue.successSegments)) &&
          (segs[sid].size != 1 ==> reinserter.uriValue.successSegments == old(reinserter.uriValue.successSegments))
      ensures var b := job.block; var sid := b.segmentId; var segs := reinserter.segments;
        end == Stopped ==>
          b.bucket.Some? && 0 <= sid < |segs| &&
          (threadInterrupted ||
           (segs[sid] != null &&
            !insert(RequestFor(b.bucket.value.data, b.uri, compressorName, segs[sid].size)).InsertError? &&
            !StillActive(old(reinserter.lastActivityTime), insertedAt)))
    {
      var block := job.block;
      var sid := block.segmentId;
      if !(0 <= sid < |reinserter.segments|) {
        return Threw(INDEX_OUT_OF_BOUNDS);
      }
      var segment := reinserter.segments[sid];
      if block.bucket.None? {
        block.SetResultLog(Some("failed: fetch failed"));
      } else {
        if threadInterrupted {
          return Stopped;
        }
        if segment == null {
          return Threw(NULL_POINTER);
        }
        var stopped := InsertBucket(segment, insert, compressorName, insertedAt);
        if stopped {
          return Stopped;
        }
      }
      if segment == null {
        return Threw(NULL_POINTER);
      }
      if segment.size == 1 {
        var st := UpdateSegmentBit(segment, block.insertSuccessful, insertedAt);
        if st.Failed? {
          return Threw(st.fault);
        }
      }
      block.SetInsertDone(true);
      end := Completed;
    }

    /**
     * The fetch at the start of `run()` for a block without data: nothing happens to a block
     * that has data; otherwise a fetch job runs, and its exception or an inactive reinserter
     * afterwards ends the run.
     */
    method FetchMissing(fetchReply: FetchReply, threadInterrupted: bool, compressorName: int8 -> Option<string>, fetchedAt: int)
      returns (early: Option<JobEnd>)
      modifies job.block`fetchDone, job.block`fetchSuccessful, job.block`resultLog, job.block`bucket
      modifies reinserter`lastActivityTime, reinserter.Live()`success, reinserter.Live()`failed, reinserter.uriValue`success
      modifies reinserter.dao.plugin.base`prop, reinserter.dao.plugin`propSavingTimestamp, reinserter.dao.plugin`savedProps
      ensures old(job.block.bucket).Some? ==>
        early == None && job.block.bucket == old(job.block.bucket) &&
        job.block.fetchDone == old(job.block.fetchDone) && job.block.fetchSuccessful == old(job.block.fetchSuccessful) &&
        job.block.resultLog == old(job.block.resultLog) && reinserter.lastActivityTime == old(reinserter.lastActivityTime)
      ensures early.Some? ==> early.value != Completed
    {
      var block := job.block;
      if block.bucket.Some? {
        return None;
      }
      var fetch := new SingleFetch(reinserter, block, false);
      var fetched := fetch.Call(fetchReply, threadInterrupted, compressorName, fetchedAt);
      if fetched.Err? {
        return Some(Threw(fetched.fault));
      }
      var active := reinserter.IsActive(false, fetchedAt);
      if !active {
        return Some(Stopped);
      }
      early := None;
    }

    /**
     * The insertion of a block's data: the request built by `RequestFor` goes to the network.
     * An insert exception is caught at once and logged; after any other answer an inactive
     * reinserter stops the run, and otherwise the answer decides the log and whether the block
     * counts as inserted.
     */
    method InsertBucket(segment: Segment, insert: InsertRequest -> InsertReply, compressorName: int8 -> Option<string>, insertedAt: int)
      returns (stopped: bool)
      requires job.block.bucket.Some? && |job.block.uri.extra| >= 5 && !job.block.insertSuccessful
      modifies job.block`insertSuccessful, job.block`resultLog, reinserter`lastActivityTime
      ensures var b := job.block;
        var reply := insert(RequestFor(b.bucket.value.data, b.uri, compressorName, segment.size));
        stopped <==> !reply.InsertError? && !StillActive(old(reinserter.lastActivityTime), insertedAt)
      ensures stopped ==> !job.block.insertSuccessful && job.block.resultLog == old(job.block.resultLog)
      ensures !stopped ==>
        var b := job.block;
        var v := InsertVerdict(RawDataUri(b.uri), insert(RequestFor(b.bucket.value.data, b.uri, compressorName, segment.size)));
        b.resultLog == Some(v.0) && b.insertSuccessful == v.1
    {
      var block := job.block;
      var reply := insert(RequestFor(block.bucket.value.data, block.uri, compressorName, segment.size));
      if !reply.InsertError? {
        var active := reinserter.IsActive(false, insertedAt);
        if !active {
          return true;
        }
      }
      var verdict := InsertVerdict(RawDataUri(block.uri), reply);
      if verdict.1 {
        block.SetInsertSuccessful(true);
      }
      block.SetResultLog(Some(verdict.0));
      stopped := false;
    }

    /** `updateSegmentStatistic(segment, success)` seen from the job: when it returns normally the bit is rewritten. */
    method UpdateSegmentBit(segment: Segment, success: bool, now: int) returns (st: Status)
      modifies reinserter.uriValue`successSegments
      modifies reinserter.dao.plugin.base`prop, reinserter.dao.plugin`propSavingTimestamp, reinserter.dao.plugin`savedProps
      ensures st.Done? ==>
        SegmentBitsAfter(old(reinserter.uriValue.successSegments), segment.id, success) == Ok(reinserter.uriValue.successSegments)
    {
      st := reinserter.UpdateSegmentStatistic(segment, success, now);
    }
  }
}
