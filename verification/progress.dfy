/** The progress counter of `internal/dialogs/progress`: a byte tally fed
    by an `io.TeeReader` on the audio stream, with the content length fixed
    at construction, and the time-remaining estimate computed from it.

    The counter is a value: `Write` returns the updated counter. The Go
    getters `ContentLen` and `CurrentDownloaded` are the fields
    `contentLen` and `downloaded`. */
module Progress {
  import opened Results
  import opened Streams

  datatype Counter = Counter(contentLen: int, downloaded: int)

  /** `NewCounter`: the given content length, nothing downloaded yet. */
  function NewCounter(contentLen: int): (c: Counter)
    ensures c.contentLen == contentLen && c.downloaded == 0
  {
    Counter(contentLen, 0)
  }

  /** The updated counter, and the `(n, err)` pair `Write` returns. */
  datatype Written = Written(counter: Counter, n: int, error: Option<string>)

  /** `Counter.Write(p)`: never fails, never writes short, and leaves the
      content length alone. */
  function Write(c: Counter, p: seq<bv8>): (w: Written)
    ensures w.n == |p| && w.error.None?
    ensures w.counter.contentLen == c.contentLen
    ensures w.counter.downloaded - c.downloaded == w.n
  {
    Written(Counter(c.contentLen, c.downloaded + |p|), |p|, None)
  }

  /** The counter after a series of writes, in order. */
  function WriteAll(c: Counter, writes: seq<seq<bv8>>): Counter
    decreases |writes|
  {
    if |writes| == 0 then c else WriteAll(Write(c, writes[0]).counter, writes[1..])
  }

  /** The tally grows by exactly the number of bytes written, and the
      content length never changes. */
  lemma {:induction false} TallyCountsEveryByte(c: Counter, writes: seq<seq<bv8>>)
    ensures WriteAll(c, writes).downloaded == c.downloaded + |Flatten(writes)|
    ensures WriteAll(c, writes).contentLen == c.contentLen
    decreases |writes|
  {
    if |writes| > 0 {
      TallyCountsEveryByte(Write(c, writes[0]).counter, writes[1..]);
    }
  }

  /** The tally observed after any prefix of the writes is at most the
      tally after all of them. */
  lemma TallyNeverDecreases(c: Counter, writes: seq<seq<bv8>>, k: nat)
    requires k <= |writes|
    ensures WriteAll(c, writes[..k]).downloaded <= WriteAll(c, writes).downloaded
  {
    TallyCountsEveryByte(c, writes[..k]);
    TallyCountsEveryByte(c, writes);
    assert writes == writes[..k] + writes[k..];
    FlattenAppend(writes[..k], writes[k..]);
  }

  const UnknownLengthError: string := "can't compute estimated time if total content len is unknown"
  const NoDataError: string := "can't compute estimated time when there is not downloaded data"

  /** `EstimatedTime`, with `elapsed` the time since the counter was made.
      An unknown length is reported before the lack of data; otherwise the
      estimate is the remaining bytes at the average rate so far, which is
      negative when more bytes arrived than the content length announced. */
  function EstimatedTime(c: Counter, elapsed: real): (r: Result<real>)
    ensures c.contentLen == 0 ==> r == Err(UnknownLengthError)
    ensures c.contentLen != 0 && c.downloaded == 0 ==> r == Err(NoDataError)
    ensures r.Ok? <==> c.contentLen != 0 && c.downloaded != 0
    ensures r.Ok? ==> r.value * (c.downloaded as real) == ((c.contentLen - c.downloaded) as real) * elapsed
  {
    if c.contentLen == 0 then Err(UnknownLengthError)
    else if c.downloaded == 0 then Err(NoDataError)
    else Ok(((c.contentLen - c.downloaded) as real) * elapsed / (c.downloaded as real))
  }

  /** Over a positive elapsed time the estimate is the remaining bytes
      divided by the average rate `downloaded / elapsed`, as the source
      computes it. */
  lemma EstimateIsRemainingOverRate(c: Counter, elapsed: real)
    requires elapsed > 0.0 && c.contentLen != 0 && c.downloaded > 0
    ensures EstimatedTime(c, elapsed) == Ok(((c.contentLen - c.downloaded) as real) / ((c.downloaded as real) / elapsed))
  {
    var rem := (c.contentLen - c.downloaded) as real;
    var d := c.downloaded as real;
    var q := d / elapsed;
    assert q * elapsed == d;
    var x := rem / q;
    assert x * q == rem;
    assert x * d == x * q * elapsed;
    assert x * d == rem * elapsed;
    assert x == rem * elapsed / d;
    assert EstimatedTime(c, elapsed).Ok?;
    assert EstimatedTime(c, elapsed).value == rem * elapsed / d;
  }

  /** Over a positive elapsed time the estimate is non-negative exactly
      while the tally has not passed the content length. */
  lemma EstimateSign(c: Counter, elapsed: real)
    requires elapsed > 0.0 && c.contentLen != 0 && c.downloaded > 0
    ensures EstimatedTime(c, elapsed).Ok?
    ensures EstimatedTime(c, elapsed).value >= 0.0 <==> c.downloaded <= c.contentLen
  {
    var r := EstimatedTime(c, elapsed).value;
    var d := c.downloaded as real;
    assert r * d == ((c.contentLen - c.downloaded) as real) * elapsed;
    if r < 0.0 {
      assert r * d < 0.0;
    }
    if r >= 0.0 {
      assert r * d >= 0.0;
    }
  }
}
