/** Byte streams as seen by a reader: the bytes it will deliver, then either
    a clean end (EOF) or a failure. An `io.Pipe` whose writer closed with an
    error, or an ffmpeg stdout that broke, is a `Stream` with `failure` set. */
module Streams {
  import opened Results

  datatype Stream = Stream(data: seq<bv8>, failure: Option<string>)

  /** The bytes of consecutive pieces, in order. */
  function Flatten(pieces: seq<seq<bv8>>): seq<bv8> {
    if |pieces| == 0 then [] else pieces[0] + Flatten(pieces[1..])
  }

  lemma FlattenCons(c: seq<bv8>, rest: seq<seq<bv8>>)
    ensures Flatten([c] + rest) == c + Flatten(rest)
  {
    assert ([c] + rest)[1..] == rest;
  }

  lemma {:induction false} FlattenAppend(a: seq<seq<bv8>>, b: seq<seq<bv8>>)
    ensures Flatten(a + b) == Flatten(a) + Flatten(b)
  {
    if |a| == 0 {
      assert a + b == b;
    } else {
      assert (a + b)[1..] == a[1..] + b;
      FlattenAppend(a[1..], b);
    }
  }

  lemma FlattenDropEmptyLast(pieces: seq<seq<bv8>>)
    requires |pieces| > 0 && pieces[|pieces| - 1] == []
    ensures Flatten(pieces[..|pieces| - 1]) == Flatten(pieces)
  {
    var kept := pieces[..|pieces| - 1];
    assert pieces == kept + [[]];
    FlattenAppend(kept, [[]]);
    assert Flatten([[]]) == [] + Flatten([]);
  }

  /** Why an `io.CopyN` stopped: it copied all `n` bytes (nil error), the
      source ended first (`io.EOF`), or the source failed first. */
  datatype CopyEnd = Complete | EndOfStream | ReadFailed(error: string)

  datatype Copied = Copied(bytes: seq<bv8>, rest: Stream, end: CopyEnd)

  /** `io.CopyN(dst, src, n)`: the bytes copied, what the source still holds,
      and the error CopyN returns. */
  function CopyN(src: Stream, n: int): (r: Copied)
    ensures r.bytes + r.rest.data == src.data
    ensures r.rest.failure == src.failure
    ensures n > 0 ==> |r.bytes| <= n
    ensures n > 0 ==> (r.end.Complete? <==> |r.bytes| == n)
    ensures n > 0 ==> (r.end.EndOfStream? <==> |r.bytes| < n && src.failure.None?)
    ensures r.end.ReadFailed? ==> n > 0 && |r.bytes| < n && src.failure == Some(r.end.error)
    ensures n <= 0 ==> r.bytes == [] && r.end.Complete?
    ensures !r.end.Complete? ==> r.rest.data == []
  {
    if n <= 0 then Copied([], src, Complete)
    else if |src.data| >= n then Copied(src.data[..n], Stream(src.data[n..], src.failure), Complete)
    else Copied(src.data, Stream([], src.failure),
                if src.failure.None? then EndOfStream else ReadFailed(src.failure.value))
  }

  /** A complete copy of `n` bytes leaves exactly `n` fewer bytes. */
  lemma CopyNCompleteLength(src: Stream, n: int)
    requires n > 0 && CopyN(src, n).end.Complete?
    ensures |src.data| == |CopyN(src, n).rest.data| + n
  {
    var c := CopyN(src, n);
    assert |c.bytes + c.rest.data| == |c.bytes| + |c.rest.data|;
  }
}
