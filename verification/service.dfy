/** `Service.DownloadAudio` of `internal/downloader/service.go`: resolve
    the link to an `audio/mp4` stream, fetch it, and pipe it through ffmpeg
    to get MP3 bytes. The YouTube client, `url.Parse`, the HTTP transport
    and ffmpeg are the oracles bundled in `Youtube`. */
module Service {
  import opened Results
  import opened Streams
  import Fetcher
  import Links
  import opened Quoting

  datatype Video = Video(title: string, formats: seq<Links.Format>)

  /** `app.DownloadResult`: the announced length (0 when unknown), the
      title, and the stream its reader sees. */
  datatype DownloadResult = DownloadResult(contentLen: int, name: string, stream: Stream)

  /** The collaborators: the path `url.Parse` finds in a link, the client's
      `GetVideo`, its `WithAudioChannels().Type(t)` filter, `GetStreamURL`,
      the HTTP transport, and ffmpeg turning one stream into another (or
      failing to start). */
  datatype Youtube = Youtube(
    urlPath: string -> Option<string>,
    getVideo: string -> Result<Video>,
    keepsAudioOfType: (Links.Format, string) -> bool,
    streamUrl: (Video, Links.Format) -> Result<string>,
    transport: Fetcher.Request -> Fetcher.Reply,
    transcode: Stream -> Result<Stream>)

  /** The chunk loop ends for every stream URL the client may resolve. */
  ghost predicate ChunksAdvanceEverywhere(y: Youtube) {
    forall url :: Fetcher.ChunksAdvance(y.transport, url)
  }

  const AudioMP4Mime: string := "audio/mp4"

  /** The link `GetVideo` is asked about. */
  function Target(y: Youtube, link: string): string {
    Links.TransformLink(link, y.urlPath(link))
  }

  /** `downloadStream`: rewrite a `/live/` link, fetch the video's
      metadata, pick the first matching format, start the stream. Each
      stage's failure ends the call with its own wrapping; on success the
      title is the video's and, when the chosen format declares a length,
      that length is the one reported. */
  function DownloadStream(y: Youtube, link: string, formatType: string): (r: Result<DownloadResult>)
    requires ChunksAdvanceEverywhere(y)
    ensures y.getVideo(Target(y, link)).Err? ==>
              r == Err("failed to get video by link: " + y.getVideo(Target(y, link)).error)
    ensures y.getVideo(Target(y, link)).Ok? ==>
              var video := y.getVideo(Target(y, link)).value;
              && ((forall i :: 0 <= i < |video.formats| ==> !y.keepsAudioOfType(video.formats[i], formatType)) ==>
                    r == Err("no video format found for type pattern " + Quote(formatType)))
              && (r.Ok? ==>
                    r.value.name == video.title
                    && exists i :: Links.FirstAccepted(video.formats, f => y.keepsAudioOfType(f, formatType), i)
                                   && y.streamUrl(video, video.formats[i]).Ok?
                                   && (video.formats[i].contentLength != 0 ==>
                                         r.value.contentLen == video.formats[i].contentLength))
              && (forall i :: Links.FirstAccepted(video.formats, f => y.keepsAudioOfType(f, formatType), i)
                              && y.streamUrl(video, video.formats[i]).Err? ==>
                                r == Err("failed to get video stream: " + y.streamUrl(video, video.formats[i]).error))
    ensures r.Ok? ==> y.getVideo(Target(y, link)).Ok?
  {
    match y.getVideo(Target(y, link))
    case Err(e) => Err("failed to get video by link: " + e)
    case Ok(video) =>
      var keep := f => y.keepsAudioOfType(f, formatType);
      match Links.SelectFormat(video.formats, keep, formatType)
      case Err(e) => Err(e)
      case Ok(format) =>
        match Fetcher.GetStreamContext(y.streamUrl(video, format), format.contentLength, y.transport)
        case Err(e) => Err("failed to get video stream: " + e)
        case Ok(fetched) => Ok(DownloadResult(fetched.contentLength, video.title, fetched.output))
  }

  /** `DownloadAudio`: the result carries the MP3 stream from ffmpeg but the
      length and title of the MP4 source; a failure at either stage yields
      no result, only the wrapped error. */
  function DownloadAudio(y: Youtube, link: string): (r: Result<DownloadResult>)
    requires ChunksAdvanceEverywhere(y)
    ensures var mp4 := DownloadStream(y, link, AudioMP4Mime);
            && (mp4.Err? ==> r == Err("failed to start downloading stream: " + mp4.error))
            && (mp4.Ok? && y.transcode(mp4.value.stream).Err? ==>
                  r == Err("failed to convert from mp4 to mp3: " + y.transcode(mp4.value.stream).error))
            && (r.Ok? <==> mp4.Ok? && y.transcode(mp4.value.stream).Ok?)
            && (r.Ok? ==> r.value == DownloadResult(mp4.value.contentLen, mp4.value.name,
                                                    y.transcode(mp4.value.stream).value))
    ensures r.Ok? ==>
              var video := y.getVideo(Target(y, link)).value;
              && r.value.name == video.title
              && exists i :: Links.FirstAccepted(video.formats, f => y.keepsAudioOfType(f, AudioMP4Mime), i)
                             && (video.formats[i].contentLength != 0 ==>
                                   r.value.contentLen == video.formats[i].contentLength)
  {
    match DownloadStream(y, link, AudioMP4Mime)
    case Err(e) => Err("failed to start downloading stream: " + e)
    case Ok(mp4) =>
      match y.transcode(mp4.stream)
      case Err(e) => Err("failed to convert from mp4 to mp3: " + e)
      case Ok(mp3) => Ok(DownloadResult(mp4.contentLen, mp4.name, mp3))
  }

  /** The announced length and the title come from the MP4 source alone:
      swapping the transcoder changes neither, whatever MP3 bytes it makes,
      and it cannot change a failure of the MP4 stage. */
  lemma TranscoderLeavesLengthAndTitle(y: Youtube, t: Stream -> Result<Stream>, link: string)
    requires ChunksAdvanceEverywhere(y)
    ensures ChunksAdvanceEverywhere(y.(transcode := t))
    ensures var a := DownloadAudio(y, link);
            var b := DownloadAudio(y.(transcode := t), link);
            && (a.Ok? && b.Ok? ==> a.value.contentLen == b.value.contentLen && a.value.name == b.value.name)
            && (DownloadStream(y, link, AudioMP4Mime).Err? ==> a == b)
  {
  }

  /** Corrected `DownloadAudio`: the MP4 length says nothing about how many
      MP3 bytes ffmpeg will produce, so the result announces no length (0)
      and the uploader falls back to counting parts as they come. Apart
      from the length it agrees with the as-written call. */
  function DownloadAudioUnknownLength(y: Youtube, link: string): (r: Result<DownloadResult>)
    requires ChunksAdvanceEverywhere(y)
    ensures r.Ok? <==> DownloadAudio(y, link).Ok?
    ensures r.Err? ==> r == DownloadAudio(y, link)
    ensures r.Ok? ==> r.value.contentLen == 0
                      && r.value.name == DownloadAudio(y, link).value.name
                      && r.value.stream == DownloadAudio(y, link).value.stream
  {
    match DownloadAudio(y, link)
    case Err(e) => Err(e)
    case Ok(res) => Ok(res.(contentLen := 0))
  }
}
