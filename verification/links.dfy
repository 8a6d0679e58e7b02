/** Link handling of `internal/downloader`: rewriting `/live/` links to a
    bare video id, checking that a text is a YouTube link, and choosing the
    stream format. `url.Parse`, the YouTube client's video-id extractor and
    its format filter are oracles. */
module Links {
  import opened Results
  import opened Strings
  import opened Quoting

  const LivePath: string := "/live/"

  /** `transformLink`, given the path `url.Parse(link)` yields (`None` when
      the link does not parse). */
  function TransformLink(link: string, path: Option<string>): (r: string)
    ensures path.None? ==> r == link
    ensures path.Some? && !HasPrefix(path.value, LivePath) ==> r == link
    ensures path == Some(LivePath) ==> r == link
    ensures path.Some? && HasPrefix(path.value, LivePath) && |path.value| > |LivePath| ==>
              |r| > 0 && LivePath + r == path.value
    ensures r != link ==> path.Some? && |r| > 0 && LivePath + r == path.value
  {
    match path
    case None => link
    case Some(p) =>
      if !HasPrefix(p, LivePath) then link
      else if |p| == |LivePath| then link
      else p[|LivePath|..]
  }

  /** The cases of the repository's table test, with the paths `url.Parse`
      gives for them. */
  lemma TransformLinkExamples()
    ensures TransformLink("https://youtu.be/GQtVIUdr4sk", Some("/GQtVIUdr4sk")) == "https://youtu.be/GQtVIUdr4sk"
    ensures TransformLink("https://www.youtube.com/live/SL6b1Shryww?feature=share", Some("/live/SL6b1Shryww")) == "SL6b1Shryww"
    ensures TransformLink("https://www.youtube.com/live/?feature=share", Some("/live/")) == "https://www.youtube.com/live/?feature=share"
    ensures TransformLink("https://www.youtube.com/live/", Some("/live/")) == "https://www.youtube.com/live/"
  {
    assert "/GQtVIUdr4sk"[1] != LivePath[1];
  }

  const ShortHost: string := "youtu.be/"
  const LongHost: string := "youtube.com/"

  ghost predicate MentionsYoutubeHost(link: string) {
    Occurs(link, ShortHost) || Occurs(link, LongHost)
  }

  /** `ValidateLink`: `None` is Go's nil error. The host test comes first,
      and the id extractor decides only once a host was found. */
  function ValidateLink(link: string, extractVideoId: string -> Result<string>): (r: Option<string>)
    ensures !MentionsYoutubeHost(link) ==> r == Some("string " + Quote(link) + " doesn't contain youtube host")
    ensures MentionsYoutubeHost(link) && extractVideoId(link).Err? ==>
              r == Some("failed to extract video id from link: " + extractVideoId(link).error)
    ensures r.None? <==> MentionsYoutubeHost(link) && extractVideoId(link).Ok?
  {
    ContainsIff(link, ShortHost);
    ContainsIff(link, LongHost);
    if !Contains(link, ShortHost) && !Contains(link, LongHost) then
      Some("string " + Quote(link) + " doesn't contain youtube host")
    else match extractVideoId(link)
      case Err(e) => Some("failed to extract video id from link: " + e)
      case Ok(_) => None
  }

  /** Without a host the extractor is never consulted: any two extractors
      give the same verdict. */
  lemma HostCheckComesFirst(link: string, e1: string -> Result<string>, e2: string -> Result<string>)
    requires !MentionsYoutubeHost(link)
    ensures ValidateLink(link, e1) == ValidateLink(link, e2)
  {
  }

  /** Refused cases of the repository's table test: a plain word and a
      bare video id are refused whatever the extractor says. */
  lemma ValidateLinkRefusals(extractVideoId: string -> Result<string>)
    ensures ValidateLink("Статус", extractVideoId).Some?
    ensures ValidateLink("7UxNoFjmhBA", extractVideoId).Some?
  {
    ContainsIff("Статус", ShortHost);
    ContainsIff("Статус", LongHost);
    var id := "7UxNoFjmhBA";
    forall i | 0 <= i <= |id| - |ShortHost|
      ensures !OccursAt(id, ShortHost, i)
    {
      assert id[i..i + |ShortHost|][0] == id[i] != 'y';
    }
  }

  /** A text with `youtube.com/` anywhere in it, after any prefix or none
      (so no scheme is needed), is accepted once an id can be extracted;
      the same holds for `youtu.be/`. */
  lemma HostedLinkAccepted(prefix: string, host: string, rest: string, extractVideoId: string -> Result<string>)
    requires host == LongHost || host == ShortHost
    requires extractVideoId(prefix + host + rest).Ok?
    ensures ValidateLink(prefix + host + rest, extractVideoId).None?
  {
    var link := prefix + host + rest;
    assert link[|prefix|..|prefix| + |host|] == host;
    assert OccursAt(link, host, |prefix|);
  }

  /** The parts of a `youtube.Format` the model needs. */
  datatype Format = Format(itag: int, mimeType: string, audioChannels: int, contentLength: int)

  /** The formats `keep` accepts, in their original order. */
  function Filter(formats: seq<Format>, keep: Format -> bool): seq<Format> {
    if |formats| == 0 then []
    else if keep(formats[0]) then [formats[0]] + Filter(formats[1..], keep)
    else Filter(formats[1..], keep)
  }

  /** `formats[i]` is the first format `keep` accepts. */
  predicate FirstAccepted(formats: seq<Format>, keep: Format -> bool, i: int) {
    0 <= i < |formats| && keep(formats[i]) && forall j :: 0 <= j < i ==> !keep(formats[j])
  }

  lemma {:induction false} FilterHead(formats: seq<Format>, keep: Format -> bool)
    ensures |Filter(formats, keep)| == 0 <==> forall i :: 0 <= i < |formats| ==> !keep(formats[i])
    ensures |Filter(formats, keep)| > 0 ==>
              exists i :: FirstAccepted(formats, keep, i) && formats[i] == Filter(formats, keep)[0]
  {
    if |formats| > 0 && !keep(formats[0]) {
      FilterHead(formats[1..], keep);
      if |Filter(formats, keep)| > 0 {
        var i :| FirstAccepted(formats[1..], keep, i) && formats[1..][i] == Filter(formats, keep)[0];
        assert FirstAccepted(formats, keep, i + 1);
      } else {
        forall i | 0 <= i < |formats|
          ensures !keep(formats[i])
        {
          if i > 0 {
            assert formats[i] == formats[1..][i - 1];
          }
        }
      }
    } else if |formats| > 0 {
      assert FirstAccepted(formats, keep, 0);
    }
  }

  /** The format choice of `downloadStream`: the first format the library
      filter keeps (audio channels present, type matching `formatType`),
      or an error naming the type when none is kept. */
  function SelectFormat(formats: seq<Format>, keep: Format -> bool, formatType: string): (r: Result<Format>)
    ensures r.Err? <==> forall i :: 0 <= i < |formats| ==> !keep(formats[i])
    ensures r.Err? ==> r.error == "no video format found for type pattern " + Quote(formatType)
    ensures r.Ok? ==> exists i :: FirstAccepted(formats, keep, i) && formats[i] == r.value
  {
    var candidates := Filter(formats, keep);
    FilterHead(formats, keep);
    if |candidates| == 0 then Err("no video format found for type pattern " + Quote(formatType))
    else Ok(candidates[0])
  }
}
