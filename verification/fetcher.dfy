/** The stream fetcher of `downloader.go`: a resource of known length is
    fetched as consecutive `Range: bytes=a-b` requests of 10,000,000 bytes
    (sections 2.1 and 4.1 of RFC 7233); a resource of unknown length is
    fetched with one unranged request.

    The HTTP client is an oracle `transport` answering each request; the
    `io.Pipe` the bytes are written to is the `Stream` its reader sees. */
module Fetcher {
  import opened Results
  import opened Decimal
  import opened Strings
  import opened Streams

  const ChunkSize: int := 10_000_000
  const StatusPartialContent: int := 206

  /** The byte positions a `Range` header asks for, first and last
      inclusive. */
  datatype ByteRange = ByteRange(first: int, last: int)

  /** A GET of `url`, with the range its `Range` header asks for if it has
      one; `RangeHeader` gives the header's text. */
  datatype Request = Request(url: string, range: Option<ByteRange>)

  /** What the client gives back: an error from `client.Do`, or a response
      with its status, its `Content-Length` header ("" when absent), the
      body bytes, and the error reading the body stopped with, if any. */
  datatype Reply =
    | Refused(reason: string)
    | Answered(status: int, contentLength: string, body: seq<bv8>, bodyError: Option<string>)

  datatype FetchError = UnexpectedStatusCode(code: int) | TransportError(reason: string)

  /** `ErrUnexpectedStatusCode.Error()`; a transport error keeps its own text. */
  function ErrorText(e: FetchError): string {
    match e
    case UnexpectedStatusCode(code) => "unexpected status code: " + IntToDecimal(code)
    case TransportError(reason) => reason
  }

  /** The text of a `Range` header, `bytes=first-last`. */
  function RangeHeader(r: ByteRange): string {
    "bytes=" + IntToDecimal(r.first) + "-" + IntToDecimal(r.last)
  }

  /** The range the chunk request at offset `pos` asks for. */
  function ChunkRange(pos: int): ByteRange {
    ByteRange(pos, pos + ChunkSize - 1)
  }

  function RangeRequest(url: string, pos: int): Request {
    Request(url, Some(ChunkRange(pos)))
  }

  /** Reads a `bytes=first-last` byte-range-spec (section 2.1 of RFC 7233). */
  function ParseRange(h: string): Option<(nat, nat)> {
    if !HasPrefix(h, "bytes=") then None
    else
      var t := h[6..];
      var k := LeadingDigits(t);
      if k == 0 || k >= |t| || t[k] != '-' then None
      else
        var u := t[k + 1..];
        var m := LeadingDigits(u);
        if m == 0 || m != |u| then None
        else Some((DigitsValue(t[..k]), DigitsValue(u[..m])))
  }

  /** The header of the chunk request at `pos` reads back as the
      `ChunkSize` bytes starting at `pos`. */
  lemma RangeHeaderRoundTrip(pos: nat)
    ensures ParseRange(RangeHeader(ChunkRange(pos))) == Some((pos, pos + ChunkSize - 1))
  {
    RangeHeaderReadsBack(pos, pos + ChunkSize - 1);
  }

  /** Any `bytes=first-last` header with natural bounds reads back. */
  lemma RangeHeaderReadsBack(first: nat, last: nat)
    ensures ParseRange(RangeHeader(ByteRange(first, last))) == Some((first, last))
  {
    var a := NatToDecimal(first);
    var b := NatToDecimal(last);
    var h := RangeHeader(ByteRange(first, last));
    assert h == "bytes=" + (a + ("-" + b));
    var t := h[6..];
    assert t == a + ("-" + b);
    LeadingDigitsOfConcat(a, "-" + b);
    assert t[..|a|] == a;
    assert t[|a| + 1..] == b;
    LeadingDigitsOfConcat(b, "");
    assert b + "" == b;
    assert b[..|b|] == b;
    DecimalRoundTrip(first);
    DecimalRoundTrip(last);
  }

  /** What `loadChunk` copies into the pipe and the error it returns: a
      failed request or a status other than 206 copies nothing; a body that
      breaks off still delivers the bytes read before the break. */
  datatype Chunk = Chunk(copied: seq<bv8>, error: Option<FetchError>)

  function LoadChunk(reply: Reply): Chunk {
    match reply
    case Refused(reason) => Chunk([], Some(TransportError(reason)))
    case Answered(status, _, body, bodyError) =>
      if status != StatusPartialContent then Chunk([], Some(UnexpectedStatusCode(status)))
      else Chunk(body, if bodyError.None? then None else Some(TransportError(bodyError.value)))
  }

  predicate Advances(reply: Reply) {
    LoadChunk(reply).error.None? ==> |LoadChunk(reply).copied| > 0
  }

  /** The assumption the chunk loop needs to end: a successful chunk reply
      is never empty. The source would request the same range forever on
      an empty 206 reply. */
  ghost predicate ChunksAdvance(transport: Request -> Reply, url: string) {
    forall pos: nat :: Advances(transport(RangeRequest(url, pos)))
  }

  /** What `downloadChunked` did: the requests in the order sent, the bytes
      each one copied into the pipe, and the pipe as its reader sees it. */
  datatype Transfer = Transfer(requests: seq<Request>, chunks: seq<seq<bv8>>, output: Stream)

  predicate ChunkSucceeded(transport: Request -> Reply, req: Request) {
    LoadChunk(transport(req)).error.None?
  }

  predicate AllSucceeded(transport: Request -> Reply, requests: seq<Request>) {
    forall i :: 0 <= i < |requests| ==> ChunkSucceeded(transport, requests[i])
  }

  /** The last request of `t` failed, and the pipe was closed with its
      error. */
  predicate FailedLast(transport: Request -> Reply, t: Transfer) {
    && |t.requests| > 0
    && var e := LoadChunk(transport(t.requests[|t.requests| - 1])).error;
       e.Some? && t.output.failure == Some(ErrorText(e.value))
  }

  /** The chunk loop of `downloadChunked` from offset `pos`. */
  function ChunkLoop(transport: Request -> Reply, url: string, contentLength: int, pos: nat): (t: Transfer)
    requires ChunksAdvance(transport, url)
    ensures |t.requests| == |t.chunks|
    ensures t.output.data == Flatten(t.chunks)
    ensures t.output.failure.None? ==> pos + |t.output.data| >= contentLength
    decreases contentLength - pos
  {
    if pos >= contentLength then Transfer([], [], Stream([], None))
    else
      var req := RangeRequest(url, pos);
      var chunk := LoadChunk(transport(req));
      if chunk.error.Some? then
        Transfer([req], [chunk.copied], Stream(chunk.copied, Some(ErrorText(chunk.error.value))))
      else
        assert Advances(transport(RangeRequest(url, pos)));
        var rest := ChunkLoop(transport, url, contentLength, pos + |chunk.copied|);
        Transfer([req] + rest.requests, [chunk.copied] + rest.chunks,
                 Stream(chunk.copied + rest.output.data, rest.output.failure))
  }

  /** Request `i` of `t` asks for the range at the offset reached by the
      bytes the earlier requests copied, that offset is below the content
      length, and the request copied the body its reply carries. */
  predicate FollowsCopiedBytes(transport: Request -> Reply, url: string, contentLength: int, pos: int,
                               t: Transfer, i: int)
  {
    && 0 <= i < |t.requests|
    && i < |t.chunks|
    && pos + |Flatten(t.chunks[..i])| < contentLength
    && t.requests[i] == RangeRequest(url, pos + |Flatten(t.chunks[..i])|)
    && t.chunks[i] == LoadChunk(transport(t.requests[i])).copied
  }

  /** Each chunk request asks for the range starting at the offset reached
      by the bytes actually copied so far (not by multiples of the chunk
      size), and is only sent while that offset is below the content
      length. */
  lemma {:induction false} ChunkRequestsFollowCopiedBytes(transport: Request -> Reply, url: string,
                                                          contentLength: int, pos: nat)
    requires ChunksAdvance(transport, url)
    ensures forall i :: 0 <= i < |ChunkLoop(transport, url, contentLength, pos).requests| ==>
              FollowsCopiedBytes(transport, url, contentLength, pos, ChunkLoop(transport, url, contentLength, pos), i)
    decreases contentLength - pos
  {
    var t := ChunkLoop(transport, url, contentLength, pos);
    if pos < contentLength {
      var req := RangeRequest(url, pos);
      var chunk := LoadChunk(transport(req));
      assert t.chunks[..0] == [];
      assert FollowsCopiedBytes(transport, url, contentLength, pos, t, 0);
      if chunk.error.None? {
        assert Advances(transport(req));
        var pos' := pos + |chunk.copied|;
        var rest := ChunkLoop(transport, url, contentLength, pos');
        ChunkRequestsFollowCopiedBytes(transport, url, contentLength, pos');
        assert t.requests == [req] + rest.requests;
        assert t.chunks == [chunk.copied] + rest.chunks;
        forall i | 1 <= i < |t.requests|
          ensures FollowsCopiedBytes(transport, url, contentLength, pos, t, i)
        {
          assert FollowsCopiedBytes(transport, url, contentLength, pos', rest, i - 1);
          assert t.chunks[..i] == [chunk.copied] + rest.chunks[..i - 1];
          FlattenCons(chunk.copied, rest.chunks[..i - 1]);
          assert t.requests[i] == rest.requests[i - 1];
          assert t.chunks[i] == rest.chunks[i - 1];
        }
      }
    }
  }

  /** Every chunk request goes to the stream URL and carries a range. */
  lemma ChunkRequestsRanged(transport: Request -> Reply, url: string, contentLength: int, pos: nat)
    requires ChunksAdvance(transport, url)
    ensures forall i :: 0 <= i < |ChunkLoop(transport, url, contentLength, pos).requests| ==>
              ChunkLoop(transport, url, contentLength, pos).requests[i].url == url
              && ChunkLoop(transport, url, contentLength, pos).requests[i].range.Some?
  {
    var t := ChunkLoop(transport, url, contentLength, pos);
    ChunkRequestsFollowCopiedBytes(transport, url, contentLength, pos);
    forall i | 0 <= i < |t.requests|
      ensures t.requests[i].url == url && t.requests[i].range.Some?
    {
      assert FollowsCopiedBytes(transport, url, contentLength, pos, t, i);
    }
  }

  /** The pipe closes cleanly exactly when every chunk request succeeded;
      otherwise the failing request is the last one sent and the pipe is
      closed with its error. */
  lemma {:induction false} ChunkLoopStopsAtFirstFailure(transport: Request -> Reply, url: string,
                                                        contentLength: int, pos: nat)
    requires ChunksAdvance(transport, url)
    ensures forall i :: 0 <= i < |ChunkLoop(transport, url, contentLength, pos).requests| - 1 ==>
              ChunkSucceeded(transport, ChunkLoop(transport, url, contentLength, pos).requests[i])
    ensures ChunkLoop(transport, url, contentLength, pos).output.failure.None? <==>
              AllSucceeded(transport, ChunkLoop(transport, url, contentLength, pos).requests)
    ensures ChunkLoop(transport, url, contentLength, pos).output.failure.Some? ==>
              FailedLast(transport, ChunkLoop(transport, url, contentLength, pos))
    decreases contentLength - pos
  {
    var t := ChunkLoop(transport, url, contentLength, pos);
    if pos < contentLength {
      var req := RangeRequest(url, pos);
      var chunk := LoadChunk(transport(req));
      if chunk.error.None? {
        assert Advances(transport(req));
        var rest := ChunkLoop(transport, url, contentLength, pos + |chunk.copied|);
        ChunkLoopStopsAtFirstFailure(transport, url, contentLength, pos + |chunk.copied|);
        assert t.requests == [req] + rest.requests;
        assert forall i :: 1 <= i < |t.requests| ==> t.requests[i] == rest.requests[i - 1];
        if AllSucceeded(transport, rest.requests) {
          forall i | 0 <= i < |t.requests|
            ensures ChunkSucceeded(transport, t.requests[i])
          {
            if i > 0 {
              assert ChunkSucceeded(transport, rest.requests[i - 1]);
            }
          }
        } else {
          var j :| 0 <= j < |rest.requests| && !ChunkSucceeded(transport, rest.requests[j]);
          assert t.requests[j + 1] == rest.requests[j];
        }
      } else {
        assert !ChunkSucceeded(transport, t.requests[0]);
      }
    }
  }

  /** What the fetcher hands back: the requests it sent, the pipe's reader
      side, and the content length it reports. */
  datatype Fetched = Fetched(requests: seq<Request>, output: Stream, contentLength: int)

  /** `downloadOnce`: one unranged request. The response status is not
      examined; the reported length is the parsed `Content-Length` header. */
  function DownloadOnce(transport: Request -> Reply, url: string): Fetched {
    var req := Request(url, None);
    match transport(req)
    case Refused(reason) => Fetched([req], Stream([], Some(reason)), 0)
    case Answered(_, header, body, bodyError) => Fetched([req], Stream(body, bodyError), GoParseInt(header))
  }

  /** `GetStreamContext` once the stream URL is resolved (or failed to be):
      a zero format length selects the single unranged request, any other
      length the chunk loop from offset 0, which reports that length. */
  function GetStreamContext(streamUrl: Result<string>, formatLength: int, transport: Request -> Reply): (r: Result<Fetched>)
    requires streamUrl.Ok? && formatLength != 0 ==> ChunksAdvance(transport, streamUrl.value)
    ensures streamUrl.Err? ==> r == Err(streamUrl.error)
    ensures streamUrl.Ok? ==> r.Ok?
    ensures r.Ok? ==> forall i :: 0 <= i < |r.value.requests| ==> r.value.requests[i].url == streamUrl.value
    ensures r.Ok? ==> (formatLength == 0 <==> |r.value.requests| == 1 && r.value.requests[0].range.None?)
    ensures r.Ok? && formatLength != 0 ==>
              r.value.contentLength == formatLength
              && (r.value.output.failure.None? ==> |r.value.output.data| >= formatLength)
              && forall i :: 0 <= i < |r.value.requests| ==> r.value.requests[i].range.Some?
    ensures r.Ok? && formatLength == 0 ==>
              var reply := transport(Request(streamUrl.value, None));
              r.value.contentLength == (if reply.Refused? then 0 else GoParseInt(reply.contentLength))
  {
    match streamUrl
    case Err(e) => Err(e)
    case Ok(url) =>
      if formatLength == 0 then Ok(DownloadOnce(transport, url))
      else
        var t := ChunkLoop(transport, url, formatLength, 0);
        ChunkRequestsRanged(transport, url, formatLength, 0);
        Ok(Fetched(t.requests, t.output, formatLength))
  }

  /** The single request reports the length its `Content-Length` header
      states, whatever the response status; a missing header reports 0. */
  lemma SingleShotReportsHeaderLength(transport: Request -> Reply, url: string, status: int, n: int,
                                      body: seq<bv8>, bodyError: Option<string>)
    requires MinInt64 <= n <= MaxInt64
    requires transport(Request(url, None)) == Answered(status, IntToDecimal(n), body, bodyError)
    ensures GetStreamContext(Ok(url), 0, transport) == Ok(Fetched([Request(url, None)], Stream(body, bodyError), n))
  {
    ParseIntRoundTrip(n);
  }

  /** The error text of an unexpected status names the status, and the
      number can be read back from it. */
  lemma UnexpectedStatusTextNamesCode(code: int)
    requires MinInt64 <= code <= MaxInt64
    ensures var text := ErrorText(UnexpectedStatusCode(code));
            HasPrefix(text, "unexpected status code: ") && GoParseInt(text[24..]) == code
  {
    var text := ErrorText(UnexpectedStatusCode(code));
    assert text[24..] == IntToDecimal(code);
    ParseIntRoundTrip(code);
  }
}
