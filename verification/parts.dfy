/** The size arithmetic of `internal/dialogs/download/dialog.go`: the
    largest part the bot uploads, the part count it announces, the part
    file names and notices, and the `io.CopyN` split of the audio stream
    into parts. */
module Parts {
  import opened Results
  import opened Decimal
  import opened Strings
  import opened Streams

  const OneMB: int := 1048576
  const DefaultAudioMaxFileSizeMB: int := 48

  /** `megabytesToBytes`. The product is not wrapped to 64 bits. */
  function MegabytesToBytes(mb: int): (b: int)
    ensures b % OneMB == 0 && b / OneMB == mb
  {
    mb * OneMB
  }

  /** The part limit `New` stores: the configured megabytes, with 0 meaning
      the default of 48. It is never 0, and positive exactly when the
      configuration is not negative. */
  function MaxPartSize(mb: int): (r: int)
    ensures r != 0 && r % OneMB == 0
    ensures r > 0 <==> mb >= 0
    ensures r / OneMB == (if mb == 0 then DefaultAudioMaxFileSizeMB else mb)
  {
    if mb == 0 then MegabytesToBytes(DefaultAudioMaxFileSizeMB) else MegabytesToBytes(mb)
  }

  /** `math.Ceil(a / b)` for `a > 0`, in integers. */
  function CeilDiv(a: int, b: int): (q: int)
    requires a > 0 && b != 0
    ensures b > 0 ==> (q - 1) * b < a <= q * b
  {
    if b > 0 then (a + b - 1) / b else -(a / -b)
  }

  /** What `downloadAudio` announces before the first part: whether the
      total size is known, the part count (only meaningful when known),
      and whether the file is sent in several parts. */
  datatype Plan = Plan(known: bool, count: int, multipart: bool)

  /** The announcement: a count only for a positive length; several parts
      whenever the length is unknown or needs more than one part. */
  function PlanParts(contentLen: int, maxPart: int): (p: Plan)
    requires maxPart != 0
    ensures p.known <==> contentLen > 0
    ensures !p.known ==> p.count == 0 && p.multipart
    ensures p.known ==> (p.multipart <==> p.count > 1)
    ensures p.known && maxPart > 0 ==> p.count >= 1 && (p.count - 1) * maxPart < contentLen <= p.count * maxPart
  {
    if contentLen > 0 then
      var count := CeilDiv(contentLen, maxPart);
      Plan(true, count, count > 1)
    else Plan(false, 0, true)
  }

  /** A known length fits in one part exactly when it is at most the part
      limit. */
  lemma SinglePartIffFits(contentLen: int, maxPart: int)
    requires contentLen > 0 && maxPart > 0
    ensures !PlanParts(contentLen, maxPart).multipart <==> contentLen <= maxPart
  {
    var count := PlanParts(contentLen, maxPart).count;
    if contentLen <= maxPart && count >= 2 {
      MulAtLeast(count - 1, maxPart);
    }
    if contentLen > maxPart && count <= 1 {
      MulAtMost(count, maxPart);
    }
  }

  lemma MulAtLeast(x: int, m: int)
    requires x >= 1 && m > 0
    ensures x * m >= m
  {
  }

  lemma MulAtMost(x: int, m: int)
    requires x <= 1 && m > 0
    ensures x * m <= m
  {
  }

  lemma DivUnique(n: int, m: int, q: int, r: int)
    requires m > 0 && n == q * m + r && 0 <= r < m
    ensures n / m == q && n % m == r
  {
    var q', r' := n / m, n % m;
    assert (q - q') * m == r' - r;
    if q - q' >= 1 {
      MulAtLeast(q - q', m);
    } else if q' - q >= 1 {
      MulAtLeast(q' - q, m);
    }
  }

  lemma DivStep(a: int, m: int)
    requires a >= 0 && m > 0
    ensures (a + m) / m == a / m + 1 && (a + m) % m == a % m
  {
    assert a + m == (a / m + 1) * m + a % m;
    DivUnique(a + m, m, a / m + 1, a % m);
  }

  const Mp3Extension: string := ".mp3"

  /** The name of part `n`: the title with `.mp3`, prefixed `p<n>_` when
      the audio is sent in several parts. */
  function PartFileName(title: string, multipart: bool, n: nat): (name: string)
    ensures !multipart ==> name == title + Mp3Extension
    ensures multipart ==> HasPrefix(name, "p") && |name| > |title| + 5
                          && name[|name| - |title| - 5..] == "_" + title + Mp3Extension
  {
    (if multipart then "p" + NatToDecimal(n) + "_" else "") + title + Mp3Extension
  }

  /** Reads a multipart file name back into its part number and title. */
  function ParsePartFileName(name: string): Option<(nat, string)> {
    if |name| < 1 + |Mp3Extension| || name[0] != 'p' || name[|name| - |Mp3Extension|..] != Mp3Extension then None
    else
      var body := name[1..|name| - |Mp3Extension|];
      var k := LeadingDigits(body);
      if k == 0 || k == |body| || body[k] != '_' then None
      else Some((DigitsValue(body[..k]), body[k + 1..]))
  }

  /** A multipart name determines the part number and title. */
  lemma PartFileNameRoundTrip(title: string, n: nat)
    ensures ParsePartFileName(PartFileName(title, true, n)) == Some((n, title))
  {
    var name := PartFileName(title, true, n);
    var digits := NatToDecimal(n);
    assert name == "p" + digits + "_" + title + Mp3Extension;
    var body := name[1..|name| - |Mp3Extension|];
    assert body == digits + ("_" + title);
    LeadingDigitsOfConcat(digits, "_" + title);
    assert body[..|digits|] == digits;
    assert body[|digits| + 1..] == title;
    DecimalRoundTrip(n);
  }

  /** Parts with different numbers never share a name when the audio is
      sent in several parts. */
  lemma MultipartNamesDistinct(title: string, n1: nat, n2: nat)
    requires n1 != n2
    ensures PartFileName(title, true, n1) != PartFileName(title, true, n2)
  {
    PartFileNameRoundTrip(title, n1);
    PartFileNameRoundTrip(title, n2);
  }

  /** The message sent after a part upload: `n/count` or just `n`. */
  datatype Notice = PartOfCount(n: int, count: int) | PartNumber(n: int)

  /** The notice after part `n`: none for a single-part upload, the
      number out of the announced count when the length is known, the bare
      number otherwise. */
  function PartNotice(plan: Plan, n: int): (r: Option<Notice>)
    ensures r.None? <==> !plan.multipart
    ensures r.Some? ==> r.value.n == n
    ensures r.Some? ==> (r.value.PartOfCount? <==> plan.known) && (r.value.PartOfCount? ==> r.value.count == plan.count)
  {
    if !plan.multipart then None
    else if plan.known then Some(PartOfCount(n, plan.count))
    else Some(PartNumber(n))
  }

  /** The parts a stream is cut into, and the read error that ended the
      cutting, if any (the part in progress is then the last one). */
  datatype Split = Split(parts: seq<seq<bv8>>, failure: Option<string>)

  /** The `io.CopyN` loop of `downloadAudio` on the stream alone: copy up to
      `maxPart` bytes per part, stop after the first part that came up
      short. */
  function SplitStream(src: Stream, maxPart: int): (r: Split)
    requires maxPart > 0
    ensures r.failure == src.failure
    ensures |r.parts| >= 1
    ensures forall i :: 0 <= i < |r.parts| - 1 ==> |r.parts[i]| == maxPart
    ensures |r.parts[|r.parts| - 1]| < maxPart
    decreases |src.data|
  {
    var c := CopyN(src, maxPart);
    match c.end
    case ReadFailed(e) => Split([c.bytes], Some(e))
    case EndOfStream => Split([c.bytes], None)
    case Complete =>
      var rest := SplitStream(c.rest, maxPart);
      assert forall i :: 1 <= i < |rest.parts| + 1 ==> ([c.bytes] + rest.parts)[i] == rest.parts[i - 1];
      Split([c.bytes] + rest.parts, rest.failure)
  }

  /** The parts hold the stream's bytes, in order, and nothing else. */
  lemma {:induction false} SplitKeepsBytes(src: Stream, maxPart: int)
    requires maxPart > 0
    ensures Flatten(SplitStream(src, maxPart).parts) == src.data
    decreases |src.data|
  {
    var c := CopyN(src, maxPart);
    SplitStep(src, maxPart);
    if c.end.Complete? {
      SplitKeepsBytes(c.rest, maxPart);
      FlattenCons(c.bytes, SplitStream(c.rest, maxPart).parts);
    } else {
      FlattenCons(c.bytes, []);
    }
  }

  /** A stream of L bytes is cut into `L / maxPart + 1` parts, the last
      of which holds the `L % maxPart` remaining bytes. */
  lemma {:induction false} SplitCount(src: Stream, maxPart: int)
    requires maxPart > 0
    ensures |SplitStream(src, maxPart).parts| == |src.data| / maxPart + 1
    ensures |SplitStream(src, maxPart).parts[|SplitStream(src, maxPart).parts| - 1]| == |src.data| % maxPart
    decreases |src.data|
  {
    var c := CopyN(src, maxPart);
    if c.end.Complete? {
      var parts := SplitStream(src, maxPart).parts;
      var rest := SplitStream(c.rest, maxPart).parts;
      SplitCount(c.rest, maxPart);
      CompleteStep(src, maxPart);
      CopyNCompleteLength(src, maxPart);
      CountStep(|src.data|, |c.rest.data|, maxPart, |rest|, |rest[|rest| - 1]|);
    } else {
      LastStep(src, maxPart);
    }
  }

  /** The arithmetic of one complete cut: `maxPart` more bytes make one
      more whole part and leave the same remainder. */
  lemma CountStep(total: int, rest: int, maxPart: int, restCount: int, restLast: int)
    requires maxPart > 0 && rest >= 0 && total == rest + maxPart
    requires restCount == rest / maxPart + 1 && restLast == rest % maxPart
    ensures restCount + 1 == total / maxPart + 1 && restLast == total % maxPart
  {
    DivStep(rest, maxPart);
  }

  lemma CompleteStep(src: Stream, maxPart: int)
    requires maxPart > 0 && CopyN(src, maxPart).end.Complete?
    ensures var parts := SplitStream(src, maxPart).parts;
            var rest := SplitStream(CopyN(src, maxPart).rest, maxPart).parts;
            |parts| == |rest| + 1 && parts[|parts| - 1] == rest[|rest| - 1]
  {
    var c := CopyN(src, maxPart);
    var parts := SplitStream(src, maxPart).parts;
    var rest := SplitStream(c.rest, maxPart).parts;
    SplitStep(src, maxPart);
    LastOfCons(parts, c.bytes, rest);
  }

  lemma LastStep(src: Stream, maxPart: int)
    requires maxPart > 0 && !CopyN(src, maxPart).end.Complete?
    ensures SplitStream(src, maxPart).parts == [src.data]
    ensures |src.data| / maxPart == 0 && |src.data| % maxPart == |src.data|
  {
    DivUnique(|src.data|, maxPart, 0, |src.data|);
  }

  lemma LastOfCons(parts: seq<seq<bv8>>, first: seq<bv8>, rest: seq<seq<bv8>>)
    requires parts == [first] + rest && |rest| >= 1
    ensures |parts| == |rest| + 1 && parts[|parts| - 1] == rest[|rest| - 1]
  {
  }

  /** One cut of the split: the first part is what `CopyN` copied, and the
      split goes on over the rest only after a complete copy. */
  lemma SplitStep(src: Stream, maxPart: int)
    requires maxPart > 0
    ensures var c := CopyN(src, maxPart);
            SplitStream(src, maxPart).parts ==
              [c.bytes] + (if c.end.Complete? then SplitStream(c.rest, maxPart).parts else [])
  {
  }

  /** The announced count in terms of whole parts and remainder. */
  lemma CeilCount(contentLen: int, maxPart: int)
    requires contentLen > 0 && maxPart > 0
    ensures PlanParts(contentLen, maxPart).count ==
              contentLen / maxPart + (if contentLen % maxPart == 0 then 0 else 1)
  {
    var q, r := contentLen / maxPart, contentLen % maxPart;
    if r == 0 {
      DivUnique(contentLen + maxPart - 1, maxPart, q, maxPart - 1);
    } else {
      DivUnique(contentLen + maxPart - 1, maxPart, q + 1, r - 1);
    }
  }

  /** The split produces the announced number of parts exactly when the
      length is not a multiple of the part limit; on a multiple it
      produces one more, and that extra last part is empty. */
  lemma SplitAgreesWithPlanIff(src: Stream, maxPart: int)
    requires maxPart > 0 && |src.data| > 0
    ensures var parts := SplitStream(src, maxPart).parts;
            var count := PlanParts(|src.data|, maxPart).count;
            && (|parts| == count <==> |src.data| % maxPart != 0)
            && (|src.data| % maxPart == 0 ==> |parts| == count + 1 && parts[|parts| - 1] == [])
  {
    SplitCount(src, maxPart);
    CeilCount(|src.data|, maxPart);
  }

  /** A concrete case of the above: four bytes with a two-byte limit are
      announced as two parts but cut into three, the last one empty. */
  lemma ExactMultipleAddsEmptyPart()
    ensures PlanParts(4, 2).count == 2
    ensures SplitStream(Stream([1, 2, 3, 4], None), 2).parts == [[1, 2], [3, 4], []]
  {
    var s0 := Stream([1, 2, 3, 4], None);
    var s1 := Stream([3, 4], None);
    var s2 := Stream([], None);
    assert CopyN(s0, 2) == Copied([1, 2], s1, Complete);
    assert CopyN(s1, 2) == Copied([3, 4], s2, Complete);
    assert CopyN(s2, 2) == Copied([], s2, EndOfStream);
    SplitStep(s2, 2);
    SplitStep(s1, 2);
    SplitStep(s0, 2);
  }

  /** The cut the upload loop evidently intends: the same parts, minus the
      empty trailing part the as-written loop uploads after a stream whose
      length is an exact multiple of the limit. */
  function SplitWithoutEmptyTail(src: Stream, maxPart: int): (r: Split)
    requires maxPart > 0
    ensures Flatten(r.parts) == src.data
    ensures r.failure == src.failure
    ensures |r.parts| >= 1
    ensures forall i :: 0 <= i < |r.parts| ==> |r.parts[i]| <= maxPart
    ensures |src.data| > 0 ==> forall i :: 0 <= i < |r.parts| ==> r.parts[i] != []
  {
    var split := SplitStream(src, maxPart);
    SplitKeepsBytes(src, maxPart);
    SplitPartsNonEmpty(src, maxPart);
    DropEmptyTail(split.parts, maxPart);
    Split(WithoutEmptyTail(split.parts), split.failure)
  }

  /** The parts less an empty last one, when there are several. */
  function WithoutEmptyTail(parts: seq<seq<bv8>>): seq<seq<bv8>> {
    if |parts| > 1 && parts[|parts| - 1] == [] then parts[..|parts| - 1] else parts
  }

  /** Only the last part of a non-empty stream can be empty, and only
      when there are several. */
  lemma SplitPartsNonEmpty(src: Stream, maxPart: int)
    requires maxPart > 0
    ensures var parts := SplitStream(src, maxPart).parts;
            |src.data| > 0 ==>
            && (forall i :: 0 <= i < |parts| - 1 ==> parts[i] != [])
            && (|parts| == 1 ==> parts[0] != [])
  {
    SplitCount(src, maxPart);
    var parts := SplitStream(src, maxPart).parts;
    if |parts| == 1 && |src.data| > 0 {
      LastStep(src, maxPart);
    }
  }

  /** Dropping an empty last part keeps the bytes the parts hold, keeps
      every part within the limit, and leaves no empty part when only the
      last could be empty. */
  lemma DropEmptyTail(parts: seq<seq<bv8>>, maxPart: int)
    requires |parts| >= 1
    requires forall i :: 0 <= i < |parts| ==> |parts[i]| <= maxPart
    ensures var kept := WithoutEmptyTail(parts);
            && Flatten(kept) == Flatten(parts)
            && |kept| >= 1
            && (forall i :: 0 <= i < |kept| ==> |kept[i]| <= maxPart)
            && ((forall i :: 0 <= i < |parts| - 1 ==> parts[i] != []) && (|parts| == 1 ==> parts[0] != []) ==>
                  forall i :: 0 <= i < |kept| ==> kept[i] != [])
  {
    if |parts| > 1 && parts[|parts| - 1] == [] {
      FlattenDropEmptyLast(parts);
    }
  }

  /** With the empty tail dropped, every non-empty stream is cut into
      exactly the announced number of parts. */
  lemma SplitWithoutEmptyTailMatchesPlan(src: Stream, maxPart: int)
    requires maxPart > 0 && |src.data| > 0
    ensures |SplitWithoutEmptyTail(src, maxPart).parts| == PlanParts(|src.data|, maxPart).count
  {
    SplitCount(src, maxPart);
    CeilCount(|src.data|, maxPart);
  }
}
