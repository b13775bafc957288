/** What fetch and insert jobs share (keepalive.service.net.SingleJob). */
module SingleJobModel {
  import opened Wrappers
  import opened JavaText
  import opened FreenetKeys
  import opened BlockModel

  /** Minutes a job may run; the reinserter counts as stuck five minutes after that. */
  const MAX_LIFETIME := 30

  datatype JobType = FetchJob | InsertionJob

  function JobTypeName(t: JobType): string {
    match t
    case FetchJob => "fetch"
    case InsertionJob => "insertion"
  }

  /** The key with its control byte (extra byte 2) cleared, so that the raw data is requested. */
  function RawDataUri(u: FreenetUri): (r: FreenetUri)
    requires |u.extra| > 2
    ensures r.keyType == u.keyType && r.keyText == u.keyText && |r.extra| == |u.extra|
    ensures r.extra[2] == 0 && forall k :: 0 <= k < |u.extra| && k != 2 ==> r.extra[k] == u.extra[k]
  {
    u.(extra := u.extra[2 := 0])
  }

  /** Clearing the control byte twice is clearing it once. */
  lemma RawDataUriIdempotent(u: FreenetUri)
    requires |u.extra| > 2
    ensures RawDataUri(RawDataUri(u)) == RawDataUri(u)
  {
    var r := RawDataUri(u);
    assert RawDataUri(r).extra == r.extra;
  }

  /** `getUri()` throws on a key with fewer than five extra bytes or whose compressor id names no compressor. */
  predicate UriUnreadable(u: FreenetUri, compressorName: int8 -> Option<string>) {
    |u.extra| < 5 || (u.extra[4] >= 0 && compressorName(u.extra[4]).None?)
  }

  function Bold(msg: string): string {
    "<b>" + msg + "</b>"
  }

  class SingleJob {
    const jobType: JobType
    const block: Block
    /** The extra bytes of the last requested key, null before the first request. */
    var uriExtra: Option<seq<int8>>
    var compressionAlgorithm: Option<string>

    constructor (jobType: JobType, block: Block)
      ensures this.jobType == jobType && this.block == block
      ensures uriExtra == None && compressionAlgorithm == None
    {
      this.jobType := jobType;
      this.block := block;
      uriExtra := None;
      compressionAlgorithm := None;
    }

    /**
     * `getUri()`: a copy of the block's key with the control byte cleared, remembering its extra
     * bytes and the name of its compressor ("none" for a negative compressor id). A key with
     * fewer than five extra bytes, or an unknown compressor id, throws.
     */
    method GetUri(compressorName: int8 -> Option<string>) returns (r: Result<FreenetUri>)
      modifies this`uriExtra, this`compressionAlgorithm
      ensures r.Err? <==> UriUnreadable(block.uri, compressorName)
      ensures r.Ok? ==> r.value == RawDataUri(block.uri) && uriExtra == Some(r.value.extra)
      ensures r.Ok? && block.uri.extra[4] < 0 ==> compressionAlgorithm == Some("none")
      ensures r.Ok? && block.uri.extra[4] >= 0 ==> compressionAlgorithm == compressorName(block.uri.extra[4])
    {
      var extra := block.uri.extra;
      uriExtra := Some(extra);
      if |extra| < 3 {
        return Err(INDEX_OUT_OF_BOUNDS);
      }
      extra := extra[2 := 0];
      uriExtra := Some(extra);
      if |extra| < 5 {
        return Err(INDEX_OUT_OF_BOUNDS);
      }
      if extra[4] >= 0 {
        var name := compressorName(extra[4]);
        if name.None? {
          return Err(NULL_POINTER);
        }
        compressionAlgorithm := name;
      } else {
        compressionAlgorithm := Some("none");
      }
      return Ok(RawDataUri(block.uri));
    }

    /**
     * The line `finish()` hands to the log: only while the reinserter is active and neither it
     * nor the job's thread is interrupted; in bold when the block was neither fetched nor inserted.
     */
    function FinishLine(active: bool, interrupted: bool, threadInterrupted: bool): (line: Option<string>)
      reads block
      ensures line.Some? <==> active && !interrupted && !threadInterrupted
      ensures line.Some? ==>
        (StartsWith(line.value, "<b>") <==> !block.fetchSuccessful && !block.insertSuccessful)
    {
      if !(active && !interrupted && !threadInterrupted) then None
      else
        var msg := JobTypeName(jobType) + ": " + JavaString(block.resultLog) + " -> " + Text(block.uri);
        assert msg[0] != '<' by {
          assert msg[0] == JobTypeName(jobType)[0];
        }
        if !block.fetchSuccessful && !block.insertSuccessful then Some(Bold(msg)) else Some(msg)
    }
  }
}
