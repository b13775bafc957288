/** The record kept per tracked splitfile URI (keepalive.urivalues.impl.UriValue). */
module UriValueModel {
  import opened Wrappers
  import opened FreenetKeys
  import opened BlockModel

  class UriValue {
    const uriId: int
    var uri: Option<FreenetUri>
    /** The number of blocks, or -1 when they still have to be fetched. */
    var blockCount: int
    /** The registered blocks by key; `getBlocks()` hands out this very map. */
    var blocks: map<FreenetUri, Block>
    /** One character per segment, '1' for a segment found available. */
    var successSegments: Option<string>
    /** Comma-separated success and failed counts, two entries per segment. */
    var success: Option<string>
    /** Comma-separated "MM.yyyy-percent" entries. */
    var history: Option<string>
    /** The resumable segment cursor: the last segment fully handled, -1 for none. */
    var segment: int

    constructor (uriId: int)
      ensures this.uriId == uriId && uri == None
      ensures blockCount == -1 && blocks == map[] && successSegments == None
      ensures success == Some("") && history == Some("") && segment == -1
    {
      this.uriId := uriId;
      uri := None;
      blockCount := -1;
      blocks := map[];
      successSegments := None;
      success := Some("");
      history := Some("");
      segment := -1;
    }

    /** The two-argument constructor: the defaults plus the URI. */
    constructor WithUri(uriId: int, uri: Option<FreenetUri>)
      ensures this.uriId == uriId && this.uri == uri
      ensures blockCount == -1 && blocks == map[] && successSegments == None
      ensures success == Some("") && history == Some("") && segment == -1
    {
      this.uriId := uriId;
      this.uri := uri;
      blockCount := -1;
      blocks := map[];
      successSegments := None;
      success := Some("");
      history := Some("");
      segment := -1;
    }

    /** The URI as text; the record has no stored copy, so this is the URI's own text. */
    function UriString(): (s: Option<string>)
      reads this
      ensures s.None? <==> uri.None?
      ensures uri.Some? ==> s == Some(Text(uri.value))
    {
      if uri.None? then None else Some(Text(uri.value))
    }

    method SetUri(u: Option<FreenetUri>)
      modifies this`uri
      ensures uri == u
    {
      uri := u;
    }

    method SetBlockCount(n: int)
      modifies this`blockCount
      ensures blockCount == n
    {
      blockCount := n;
    }

    method SetBlocks(m: map<FreenetUri, Block>)
      modifies this`blocks
      ensures blocks == m
    {
      blocks := m;
    }

    /** `getBlocks().put(key, block)`: the put is visible in the record itself. */
    method PutBlock(key: FreenetUri, block: Block)
      modifies this`blocks
      ensures blocks == old(blocks)[key := block]
    {
      blocks := blocks[key := block];
    }

    method SetSuccessSegments(s: Option<string>)
      modifies this`successSegments
      ensures successSegments == s
    {
      successSegments := s;
    }

    method SetSuccess(s: Option<string>)
      modifies this`success
      ensures success == s
    {
      success := s;
    }

    method SetHistory(h: Option<string>)
      modifies this`history
      ensures history == h
    {
      history := h;
    }

    method SetSegment(n: int)
      modifies this`segment
      ensures segment == n
    {
      segment := n;
    }
  }
}
