/** One key of a splitfile and its fetch/insert status (keepalive.model.Block). */
module BlockModel {
  import opened Wrappers
  import opened FreenetKeys

  /** An ArrayBucket: the block's bytes and whether `free()` has been called on it. */
  datatype Bucket = Bucket(data: seq<int8>, freed: bool)

  /** The bucket after `free()`, if there is one. */
  function Freed(b: Option<Bucket>): (r: Option<Bucket>)
    ensures r.None? <==> b.None?
    ensures r.Some? ==> r.value.data == b.value.data && r.value.freed
  {
    if b.None? then None else Some(b.value.(freed := true))
  }

  /** A Java String used as the left operand of `+`: null prints as "null". */
  function JavaString(s: Option<string>): string {
    if s.None? then "null" else s.value
  }

  class Block {
    // identity, fixed by the constructor
    const id: int
    const segmentId: int
    const uri: FreenetUri
    const dataBlock: bool
    // status
    var bucket: Option<Bucket>
    var fetchDone: bool        // done but not necessarily successful
    var fetchSuccessful: bool
    var insertDone: bool       // done but not necessarily successful
    var insertSuccessful: bool
    var resultLog: Option<string>

    constructor (uri: FreenetUri, segmentId: int, id: int, isDataBlock: bool)
      ensures this.uri == uri && this.segmentId == segmentId && this.id == id && this.dataBlock == isDataBlock
      ensures !fetchDone && !fetchSuccessful && !insertDone && !insertSuccessful
      ensures bucket == None && resultLog == None
    {
      this.uri := uri;
      this.segmentId := segmentId;
      this.id := id;
      this.dataBlock := isDataBlock;
      bucket := None;
      fetchDone := false;
      fetchSuccessful := false;
      insertDone := false;
      insertSuccessful := false;
      resultLog := None;
    }

    /** A block is being fetched until its fetch is marked done. */
    predicate IsFetchInProcess()
      reads this
      ensures IsFetchInProcess() <==> !fetchDone
    {
      !fetchDone
    }

    method SetBucket(b: Option<Bucket>)
      modifies this`bucket
      ensures bucket == b
    {
      bucket := b;
    }

    /** `getBucket().free()` on a block that holds a bucket. */
    method FreeBucket()
      modifies this`bucket
      ensures bucket == Freed(old(bucket))
    {
      bucket := Freed(bucket);
    }

    method SetFetchDone(done: bool)
      modifies this`fetchDone
      ensures fetchDone == done
    {
      fetchDone := done;
    }

    method SetFetchSuccessful(successful: bool)
      modifies this`fetchSuccessful
      ensures fetchSuccessful == successful
    {
      fetchSuccessful := successful;
    }

    method SetInsertDone(done: bool)
      modifies this`insertDone
      ensures insertDone == done
    {
      insertDone := done;
    }

    method SetInsertSuccessful(successful: bool)
      modifies this`insertSuccessful
      ensures insertSuccessful == successful
    {
      insertSuccessful := successful;
    }

    method SetResultLog(result: Option<string>)
      modifies this`resultLog
      ensures resultLog == result
    {
      resultLog := result;
    }

    /** `resultLog += result`: the old log (or "null") followed by `result`. */
    method AppendResultLog(result: string)
      modifies this`resultLog
      ensures resultLog == Some(JavaString(old(resultLog)) + result)
    {
      resultLog := Some(JavaString(resultLog) + result);
    }
  }
}
