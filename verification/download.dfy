/** The YouTube download dialog of `internal/dialogs/download/dialog.go`:
    its reaction to user messages while idle or downloading, and the
    download run that uploads the audio part by part.

    The dialog's Russian texts are the tags of `Text`; `Io.render` turns a
    tag into the formatted message. Goroutines are sequential steps: a
    message that starts a download returns the `StartDownload` effect, and
    `StartAudioDownloading` is the run that effect stands for. */
module Download {
  import opened Results
  import opened Decimal
  import opened Streams
  import Progress
  import Parts
  import Telegram
  import Service
  import Links

  const BtnStop: string := "Прервать"
  const BtnStatus: string := "Статус"

  /** The one-time keyboard shown while a download runs. */
  const KeyboardOnWait: Telegram.Keyboard := Telegram.Keyboard([[BtnStop, BtnStatus]], true)

  datatype Text =
    | DownloadStarted(plan: Parts.Plan)
    | PartUploaded(notice: Parts.Notice)
    | DownloadCompleted(title: string)
    | DownloadFailed(knownTitle: Option<string>, error: string)
    | AnotherDownloadRefused
    | DownloadedSoFar(downloaded: int)
    | ProgressReport(downloaded: int, contentLen: int, remaining: Option<real>)
    | DownloadStopped

  /** The user the dialog talks to and the bot behind it: message rendering,
      whether the request context is already done, and the bot's answers
      to messages, uploads and deletions. */
  datatype Io = Io(
    userId: int,
    render: Text -> string,
    ctxDone: Option<string>,
    botSend: Telegram.MessageConfig -> Result<int>,
    dump: Telegram.MessageConfig -> string,
    botUpload: Telegram.AudioUpload -> Option<string>,
    botDelete: int -> Option<string>)

  /** One `SendMessageWithKeyboardf` call, with the waiting keyboard or
      with none. */
  function Say(io: Io, ctxDone: Option<string>, text: Text, withKeyboard: bool): Telegram.SendOutcome {
    Telegram.SendMessageWithKeyboard(io.userId, if withKeyboard then Some(KeyboardOnWait) else None,
                                     io.render(text), ctxDone, io.botSend, io.dump)
  }

  datatype Status = Status(title: string, counter: Progress.Counter)

  /** The dialog's fields: the part limit, the download timeout, the
      in-progress flag, the status set once the download has started, and
      the ids of the messages to delete when it ends. */
  datatype State = State(maxPart: int, timeout: int, downloading: bool, status: Option<Status>, toDelete: seq<int>)

  /** `New`: an idle dialog with nothing to delete and the configured part
      limit (48 MB when 0 is configured). */
  function New(timeout: int, audioMaxFileSizeMB: int): (s: State)
    ensures !s.downloading && s.status.None? && s.toDelete == [] && s.timeout == timeout
    ensures s.maxPart != 0 && s.maxPart % Parts.OneMB == 0
    ensures s.maxPart / Parts.OneMB == (if audioMaxFileSizeMB == 0 then Parts.DefaultAudioMaxFileSizeMB else audioMaxFileSizeMB)
  {
    State(Parts.MaxPartSize(audioMaxFileSizeMB), timeout, false, None, [])
  }

  /** What a user message asks of the rest of the bot: nothing; start the
      download run; cancel the run and, if the goodbye went out, return the
      user to the main dialog; or nothing because the handler crashed on
      the status that is not set yet. */
  datatype Effect = NoEffect | StartDownload(link: string) | CancelDownload(thenRedirect: bool) | NilStatusDereference

  datatype Reply = Reply(state: State, said: seq<Text>, error: Option<string>, effect: Effect)

  /** `sendMsgWithKeyboardThenDeletef`: on success the sent message joins
      the ones to delete. */
  function SendThenDelete(s: State, io: Io, text: Text): (r: Reply)
    ensures r.said == [text] && r.effect.NoEffect?
    ensures r.error == Say(io, io.ctxDone, text, true).error
    ensures r.error.Some? ==> r.state == s
    ensures r.error.None? ==> r.state == s.(toDelete := s.toDelete + [Say(io, io.ctxDone, text, true).messageId])
  {
    var out := Say(io, io.ctxDone, text, true);
    if out.error.Some? then Reply(s, [text], out.error, NoEffect)
    else Reply(s.(toDelete := s.toDelete + [out.messageId]), [text], None, NoEffect)
  }

  /** `OnMessage`. An idle dialog starts a download of the text. A busy one
      first records the message for deletion, then refuses another valid
      link, stops on the stop button, and reports the status otherwise. */
  function OnMessage(s: State, io: Io, validate: string -> Option<string>, elapsed: real,
                     text: string, msgId: int): (r: Reply)
    ensures !s.downloading ==> r == Reply(s, [], None, StartDownload(text))
    ensures s.downloading ==> |r.state.toDelete| > |s.toDelete| && r.state.toDelete[|s.toDelete|] == msgId
    ensures s.toDelete <= r.state.toDelete
    ensures r.state.(toDelete := s.toDelete) == s
    ensures s.downloading && validate(text).None? ==> r.said == [AnotherDownloadRefused] && r.effect.NoEffect?
    ensures s.downloading && validate(text).Some? && text == BtnStop ==>
              r.effect.CancelDownload? || r.effect.NilStatusDereference?
    ensures r.effect.NilStatusDereference? <==> s.downloading && validate(text).Some? && s.status.None?
    ensures s.downloading && validate(text).Some? && text != BtnStop && s.status.Some? ==>
              |r.said| == 1 && (r.said[0].DownloadedSoFar? || r.said[0].ProgressReport?)
  {
    if !s.downloading then Reply(s, [], None, StartDownload(text))
    else OnDownloading(s.(toDelete := s.toDelete + [msgId]), io, validate, elapsed, text)
  }

  /** `onDownloading`: the three-way choice once a download runs. */
  function OnDownloading(s: State, io: Io, validate: string -> Option<string>, elapsed: real, text: string): (r: Reply)
    ensures s.toDelete <= r.state.toDelete
    ensures r.state.(toDelete := s.toDelete) == s
    ensures validate(text).None? ==> r == SendThenDelete(s, io, AnotherDownloadRefused)
    ensures validate(text).Some? && text == BtnStop ==> r == StopDownloading(s, io)
    ensures validate(text).Some? && text != BtnStop ==>
              var p := PrintCurrentDownloadStatus(s, io, elapsed);
              r == p.(error := if p.error.Some? then Some("failed to print current download status: " + p.error.value) else None)
  {
    if validate(text).None? then SendThenDelete(s, io, AnotherDownloadRefused)
    else if text == BtnStop then StopDownloading(s, io)
    else
      var p := PrintCurrentDownloadStatus(s, io, elapsed);
      p.(error := if p.error.Some? then Some("failed to print current download status: " + p.error.value) else None)
  }

  /** `stopDownloading`: cancel the run, tell the user, return them to the
      main dialog. A send failure skips the redirect and is reported
      wrapped; the status must be set, or the handler crashes. */
  function StopDownloading(s: State, io: Io): (r: Reply)
    ensures r.state == s
    ensures s.status.None? ==> r.effect.NilStatusDereference? && r.said == [] && r.error.None?
    ensures s.status.Some? ==>
              r.said == [DownloadStopped]
              && var out := Say(io, io.ctxDone, DownloadStopped, false);
              && r.effect == CancelDownload(out.error.None?)
              && r.error == (if out.error.Some? then Some("failed to stop downloading: " + out.error.value) else None)
  {
    if s.status.None? then Reply(s, [], None, NilStatusDereference)
    else
      var out := Say(io, io.ctxDone, DownloadStopped, false);
      if out.error.Some? then Reply(s, [DownloadStopped], Some("failed to stop downloading: " + out.error.value), CancelDownload(false))
      else Reply(s, [DownloadStopped], None, CancelDownload(true))
  }

  /** `printCurrentDownloadStatus`: the downloaded amount alone when the
      length is unknown, otherwise the amount out of the length with the
      time remaining, or none when it cannot be estimated. */
  function PrintCurrentDownloadStatus(s: State, io: Io, elapsed: real): (r: Reply)
    ensures s.status.None? ==> r == Reply(s, [], None, NilStatusDereference)
    ensures s.status.Some? && s.status.value.counter.contentLen == 0 ==>
              r == SendThenDelete(s, io, DownloadedSoFar(s.status.value.counter.downloaded))
    ensures s.status.Some? && s.status.value.counter.contentLen != 0 ==>
              var c := s.status.value.counter;
              |r.said| == 1 && r.said[0].ProgressReport?
              && r.said[0].downloaded == c.downloaded && r.said[0].contentLen == c.contentLen
              && (r.said[0].remaining.Some? <==> c.downloaded != 0)
              && (r.said[0].remaining.Some? ==>
                    r.said[0].remaining.value * (c.downloaded as real) == ((c.contentLen - c.downloaded) as real) * elapsed)
  {
    match s.status
    case None => Reply(s, [], None, NilStatusDereference)
    case Some(st) =>
      var c := st.counter;
      if c.contentLen == 0 then SendThenDelete(s, io, DownloadedSoFar(c.downloaded))
      else
        var eta := Progress.EstimatedTime(c, elapsed);
        SendThenDelete(s, io, ProgressReport(c.downloaded, c.contentLen, if eta.Ok? then Some(eta.value) else None))
  }

  /** Why the upload loop stopped early. */
  datatype LoopError =
    | CopyFailed(part: int, cause: string)
    | UploadFailed(part: int, cause: string)
    | NoticeFailed(cause: string)

  function LoopErrorText(e: LoopError): string {
    match e
    case CopyFailed(p, cause) => "failed to copyN bytes to upload stream of part " + IntToDecimal(p) + ": " + cause
    case UploadFailed(p, cause) => "failed to sendAudio of part " + IntToDecimal(p) + ": failed to send audio: " + cause
    case NoticeFailed(cause) => cause
  }

  /** The files the loop handed to the bot, the notices it sent, the
      counter fed by the tee, and the error that stopped it. */
  datatype Loop = Loop(files: seq<Telegram.AudioUpload>, said: seq<Text>, counter: Progress.Counter, error: Option<LoopError>)

  /** The upload loop of `downloadAudio` from part `partNum` on: copy up to
      `maxPart` bytes through the counter, upload them under the part's
      name, send the part notice, and stop after the first short part or
      the first failure. */
  function UploadParts(io: Io, title: string, plan: Parts.Plan, maxPart: int, src: Stream,
                       counter: Progress.Counter, partNum: nat): (u: Loop)
    requires maxPart > 0
    ensures !plan.multipart ==> u.said == []
    ensures u.error.Some? && u.error.value.CopyFailed? ==> src.failure == Some(u.error.value.cause)
    ensures u.error.Some? && u.error.value.NoticeFailed? ==> plan.multipart
    ensures u.counter.contentLen == counter.contentLen
    ensures counter.downloaded <= u.counter.downloaded <= counter.downloaded + |src.data|
    ensures u.error.None? ==> u.counter.downloaded == counter.downloaded + |src.data|
    decreases |src.data|
  {
    var c := CopyN(src, maxPart);
    var tallied := Progress.Write(counter, c.bytes).counter;
    if c.end.ReadFailed? then Loop([], [], tallied, Some(CopyFailed(partNum, c.end.error)))
    else
      var file := Telegram.AudioUpload(io.userId, Parts.PartFileName(title, plan.multipart, partNum), c.bytes);
      var sent := Telegram.SendAudio(io.userId, c.bytes, file.fileName, io.botUpload);
      if sent.Some? then Loop([file], [], tallied, Some(UploadFailed(partNum, sent.value)))
      else
        var notice := Parts.PartNotice(plan, partNum);
        var said := if notice.Some? then [PartUploaded(notice.value)] else [];
        var noticeError := if notice.Some? then Say(io, io.ctxDone, PartUploaded(notice.value), true).error else None;
        if noticeError.Some? then Loop([file], said, tallied, Some(NoticeFailed(noticeError.value)))
        else if c.end.EndOfStream? then Loop([file], said, tallied, None)
        else
          var rest := UploadParts(io, title, plan, maxPart, c.rest, tallied, partNum + 1);
          Loop([file] + rest.files, said + rest.said, rest.counter, rest.error)
  }

  /** The files the loop hands to the bot are the parts of `SplitStream`,
      in order, each under the name of its part number. */
  predicate UploadsParts(io: Io, title: string, plan: Parts.Plan, partNum: nat,
                         files: seq<Telegram.AudioUpload>, parts: seq<seq<bv8>>) {
    |files| <= |parts|
    && forall i :: 0 <= i < |files| ==>
         files[i] == Telegram.AudioUpload(io.userId, Parts.PartFileName(title, plan.multipart, partNum + i), parts[i])
  }

  /** One turn of the loop: the first file is the first copied part, and
      any later files come from the loop over the rest of the stream. */
  lemma LoopStep(io: Io, title: string, plan: Parts.Plan, maxPart: int, src: Stream,
                 counter: Progress.Counter, partNum: nat)
    requires maxPart > 0
    ensures var c := CopyN(src, maxPart);
            var u := UploadParts(io, title, plan, maxPart, src, counter, partNum);
            var rest := UploadParts(io, title, plan, maxPart, c.rest, Progress.Write(counter, c.bytes).counter, partNum + 1);
            && (|u.files| >= 1 ==> u.files[0] == Telegram.AudioUpload(io.userId, Parts.PartFileName(title, plan.multipart, partNum), c.bytes))
            && (|u.files| > 1 ==> c.end.Complete? && u.files == [u.files[0]] + rest.files)
  {
  }

  /** Putting the upload of part `partNum` in front of the uploads of the
      parts after it. */
  lemma UploadsPartsCons(io: Io, title: string, plan: Parts.Plan, partNum: nat, part: seq<bv8>,
                         files: seq<Telegram.AudioUpload>, parts: seq<seq<bv8>>)
    requires UploadsParts(io, title, plan, partNum + 1, files, parts)
    ensures UploadsParts(io, title, plan, partNum,
                         [Telegram.AudioUpload(io.userId, Parts.PartFileName(title, plan.multipart, partNum), part)] + files,
                         [part] + parts)
  {
    var file := Telegram.AudioUpload(io.userId, Parts.PartFileName(title, plan.multipart, partNum), part);
    forall i | 1 <= i < |files| + 1
      ensures ([file] + files)[i] ==
                Telegram.AudioUpload(io.userId, Parts.PartFileName(title, plan.multipart, partNum + i), ([part] + parts)[i])
    {
      assert ([file] + files)[i] == files[i - 1];
      assert ([part] + parts)[i] == parts[i - 1];
      assert partNum + 1 + (i - 1) == partNum + i;
    }
  }

  /** The loop uploads the parts of `SplitStream` in order, each under its
      numbered name. */
  lemma {:induction false} UploadsFollowSplit(io: Io, title: string, plan: Parts.Plan, maxPart: int, src: Stream,
                                              counter: Progress.Counter, partNum: nat)
    requires maxPart > 0
    ensures UploadsParts(io, title, plan, partNum, UploadParts(io, title, plan, maxPart, src, counter, partNum).files,
                         Parts.SplitStream(src, maxPart).parts)
    decreases |src.data|
  {
    var c := CopyN(src, maxPart);
    var u := UploadParts(io, title, plan, maxPart, src, counter, partNum);
    LoopStep(io, title, plan, maxPart, src, counter, partNum);
    Parts.SplitStep(src, maxPart);
    if |u.files| > 1 {
      var tallied := Progress.Write(counter, c.bytes).counter;
      var restFiles := UploadParts(io, title, plan, maxPart, c.rest, tallied, partNum + 1).files;
      var restParts := Parts.SplitStream(c.rest, maxPart).parts;
      UploadsFollowSplit(io, title, plan, maxPart, c.rest, tallied, partNum + 1);
      UploadsPartsCons(io, title, plan, partNum, c.bytes, restFiles, restParts);
    } else if |u.files| == 1 {
      UploadsPartsCons(io, title, plan, partNum, c.bytes, [], []);
      assert u.files == [u.files[0]] + [];
    }
  }

  /** The part starting at `src` was read, uploaded and announced. */
  predicate PartDelivered(io: Io, title: string, plan: Parts.Plan, maxPart: int, src: Stream, partNum: nat) {
    var c := CopyN(src, maxPart);
    var notice := Parts.PartNotice(plan, partNum);
    && !c.end.ReadFailed?
    && Telegram.SendAudio(io.userId, c.bytes, Parts.PartFileName(title, plan.multipart, partNum), io.botUpload).None?
    && (notice.Some? ==> Say(io, io.ctxDone, PartUploaded(notice.value), true).error.None?)
  }

  /** How one turn of the loop ends. */
  lemma LoopStepEnd(io: Io, title: string, plan: Parts.Plan, maxPart: int, src: Stream,
                    counter: Progress.Counter, partNum: nat)
    requires maxPart > 0
    ensures var c := CopyN(src, maxPart);
            var u := UploadParts(io, title, plan, maxPart, src, counter, partNum);
            var rest := UploadParts(io, title, plan, maxPart, c.rest, Progress.Write(counter, c.bytes).counter, partNum + 1);
            var delivered := PartDelivered(io, title, plan, maxPart, src, partNum);
            && (c.end.ReadFailed? ==> u.files == [] && u.error == Some(CopyFailed(partNum, c.end.error)))
            && (!c.end.ReadFailed? && !delivered ==> |u.files| == 1 && u.error.Some? && !u.error.value.CopyFailed?)
            && (u.error.Some? && u.error.value.UploadFailed? && |u.files| == 1 ==>
                  u.error.value.part == partNum
                  && Telegram.SendAudio(io.userId, c.bytes, Parts.PartFileName(title, plan.multipart, partNum), io.botUpload)
                     == Some(u.error.value.cause))
            && (delivered && c.end.EndOfStream? ==> |u.files| == 1 && u.error.None?)
            && (delivered && c.end.Complete? ==> |u.files| == 1 + |rest.files| && u.error == rest.error
                                                 && (|rest.files| >= 1 ==> u.files[|u.files| - 1] == rest.files[|rest.files| - 1]))
  {
  }

  /** A loop that reports no error has uploaded every part of a stream
      that ended cleanly. */
  lemma {:induction false} LoopEndsAtStreamEnd(io: Io, title: string, plan: Parts.Plan, maxPart: int, src: Stream,
                                               counter: Progress.Counter, partNum: nat)
    requires maxPart > 0
    ensures var u := UploadParts(io, title, plan, maxPart, src, counter, partNum);
            var parts := Parts.SplitStream(src, maxPart).parts;
            u.error.None? ==> |u.files| == |parts| && src.failure.None?
    decreases |src.data|
  {
    var c := CopyN(src, maxPart);
    LoopStepEnd(io, title, plan, maxPart, src, counter, partNum);
    if c.end.Complete? && PartDelivered(io, title, plan, maxPart, src, partNum) {
      var tallied := Progress.Write(counter, c.bytes).counter;
      LoopEndsAtStreamEnd(io, title, plan, maxPart, c.rest, tallied, partNum + 1);
      assert Parts.SplitStream(src, maxPart).parts == [c.bytes] + Parts.SplitStream(c.rest, maxPart).parts;
    }
  }

  /** A copy failure is the part after the last one uploaded, which is the
      last part of the stream. */
  lemma {:induction false} CopyFailureNamesPart(io: Io, title: string, plan: Parts.Plan, maxPart: int, src: Stream,
                                                counter: Progress.Counter, partNum: nat)
    requires maxPart > 0
    ensures var u := UploadParts(io, title, plan, maxPart, src, counter, partNum);
            var parts := Parts.SplitStream(src, maxPart).parts;
            u.error.Some? && u.error.value.CopyFailed? ==>
              u.error.value.part == partNum + |u.files| && |u.files| == |parts| - 1
    decreases |src.data|
  {
    var c := CopyN(src, maxPart);
    LoopStepEnd(io, title, plan, maxPart, src, counter, partNum);
    if c.end.Complete? && PartDelivered(io, title, plan, maxPart, src, partNum) {
      var tallied := Progress.Write(counter, c.bytes).counter;
      CopyFailureNamesPart(io, title, plan, maxPart, c.rest, tallied, partNum + 1);
      assert Parts.SplitStream(src, maxPart).parts == [c.bytes] + Parts.SplitStream(c.rest, maxPart).parts;
    }
  }

  /** An upload failure names the last file handed over, and carries the
      error `SendAudio` gave for it. */
  lemma {:induction false} UploadFailureNamesPart(io: Io, title: string, plan: Parts.Plan, maxPart: int, src: Stream,
                                                  counter: Progress.Counter, partNum: nat)
    requires maxPart > 0
    ensures var u := UploadParts(io, title, plan, maxPart, src, counter, partNum);
            u.error.Some? && u.error.value.UploadFailed? ==>
              |u.files| >= 1 && u.error.value.part == partNum + |u.files| - 1
              && Telegram.SendAudio(io.userId, u.files[|u.files| - 1].data, u.files[|u.files| - 1].fileName, io.botUpload)
                 == Some(u.error.value.cause)
    decreases |src.data|
  {
    var c := CopyN(src, maxPart);
    LoopStepEnd(io, title, plan, maxPart, src, counter, partNum);
    LoopStep(io, title, plan, maxPart, src, counter, partNum);
    if c.end.Complete? && PartDelivered(io, title, plan, maxPart, src, partNum) {
      var tallied := Progress.Write(counter, c.bytes).counter;
      UploadFailureNamesPart(io, title, plan, maxPart, c.rest, tallied, partNum + 1);
    }
  }

  /** After every successful upload of a multipart audio, the notice
      numbered like the part follows; a single-part audio gets none. */
  lemma {:induction false} NoticesFollowUploads(io: Io, title: string, plan: Parts.Plan, maxPart: int, src: Stream,
                                                counter: Progress.Counter, partNum: nat)
    requires maxPart > 0
    ensures var u := UploadParts(io, title, plan, maxPart, src, counter, partNum);
            && (plan.multipart ==> |u.said| <= |u.files|
                                   && forall i :: 0 <= i < |u.said| ==>
                                        u.said[i] == PartUploaded(Parts.PartNotice(plan, partNum + i).value))
            && (u.error.None? ==> |u.said| == (if plan.multipart then |u.files| else 0))
            && (u.error.Some? && u.error.value.NoticeFailed? ==> |u.files| >= 1 && |u.said| == |u.files|)
    decreases |src.data|
  {
    var c := CopyN(src, maxPart);
    if c.end.Complete? {
      var tallied := Progress.Write(counter, c.bytes).counter;
      NoticesFollowUploads(io, title, plan, maxPart, c.rest, tallied, partNum + 1);
    }
  }

  /** With a bot that accepts every upload and message and a stream that
      ends cleanly, the loop uploads all parts without error. */
  lemma {:induction false} LoopSucceedsWhenBotDoes(io: Io, title: string, plan: Parts.Plan, maxPart: int, src: Stream,
                                                   counter: Progress.Counter, partNum: nat)
    requires maxPart > 0 && src.failure.None? && io.ctxDone.None?
    requires forall f :: io.botUpload(f).None?
    requires forall m :: io.botSend(m).Ok?
    ensures UploadParts(io, title, plan, maxPart, src, counter, partNum).error.None?
    decreases |src.data|
  {
    var c := CopyN(src, maxPart);
    LoopStepEnd(io, title, plan, maxPart, src, counter, partNum);
    assert PartDelivered(io, title, plan, maxPart, src, partNum);
    if c.end.Complete? {
      LoopSucceedsWhenBotDoes(io, title, plan, maxPart, c.rest, Progress.Write(counter, c.bytes).counter, partNum + 1);
    }
  }

  /** As written, the part plan comes from the MP4 length while the loop
      cuts the MP3 stream: an MP4 that fits in one part announces a single
      part, but an MP3 longer than the limit is still cut in two, and both
      parts are uploaded under the same unnumbered name with no notice. */
  lemma Mp4LengthMisnamesMp3Parts(io: Io, title: string, maxPart: int, mp4Length: int, mp3: seq<bv8>,
                                  counter: Progress.Counter)
    requires maxPart > 0 && 0 < mp4Length <= maxPart && |mp3| > maxPart
    requires io.ctxDone.None? && (forall f :: io.botUpload(f).None?) && (forall m :: io.botSend(m).Ok?)
    ensures var plan := Parts.PlanParts(mp4Length, maxPart);
            var u := UploadParts(io, title, plan, maxPart, Stream(mp3, None), counter, 1);
            && plan.known && plan.count == 1 && !plan.multipart
            && u.error.None? && |u.files| >= 2 && u.said == []
            && u.files[0].fileName == u.files[1].fileName == title + Parts.Mp3Extension
  {
    var plan := Parts.PlanParts(mp4Length, maxPart);
    var src := Stream(mp3, None);
    Parts.SinglePartIffFits(mp4Length, maxPart);
    LoopSucceedsWhenBotDoes(io, title, plan, maxPart, src, counter, 1);
    LoopEndsAtStreamEnd(io, title, plan, maxPart, src, counter, 1);
    UploadsFollowSplit(io, title, plan, maxPart, src, counter, 1);
    Parts.SplitCount(src, maxPart);
    Parts.DivStep(|mp3| - maxPart, maxPart);
  }

  /** The same mismatch reached through the service: when the first kept
      MP4 format declares a length that fits in one part but ffmpeg's MP3
      output does not fit, the run announces a single part, succeeds, and
      uploads at least two files under the same unnumbered name. */
  lemma ServiceMisnamesMp3Parts(s: State, io: Io, y: Service.Youtube, link: string, i: int, recorded: seq<int>)
    requires s.maxPart > 0 && Service.ChunksAdvanceEverywhere(y)
    requires var result := Service.DownloadAudio(y, link);
             && result.Ok? && result.value.stream.failure.None? && |result.value.stream.data| > s.maxPart
             && var video := y.getVideo(Service.Target(y, link)).value;
             && Links.FirstAccepted(video.formats, f => y.keepsAudioOfType(f, Service.AudioMP4Mime), i)
             && 0 < video.formats[i].contentLength <= s.maxPart
    requires io.ctxDone.None? && (forall f :: io.botUpload(f).None?) && (forall m :: io.botSend(m).Ok?)
    ensures var res := Service.DownloadAudio(y, link).value;
            var r := DownloadAudio(s, io, Service.DownloadAudio(y, link), recorded);
            && r.error.None?
            && r.said[0] == DownloadStarted(Parts.PlanParts(res.contentLen, s.maxPart))
            && Parts.PlanParts(res.contentLen, s.maxPart).count == 1
            && |r.files| >= 2 && r.files[0].fileName == r.files[1].fileName == res.name + Parts.Mp3Extension
  {
    var res := Service.DownloadAudio(y, link).value;
    var counter := Progress.NewCounter(res.contentLen);
    Mp4LengthMisnamesMp3Parts(io, res.name, s.maxPart, res.contentLen, res.stream.data, counter);
    assert res.stream == Stream(res.stream.data, None);
  }

  /** With the length announced as unknown, as the corrected service
      reports it, the audio is always sent as numbered parts: no two
      uploaded files share a name, and each successful part is followed by
      its bare number. */
  lemma UnknownLengthNamesDistinct(io: Io, title: string, maxPart: int, mp3: Stream, counter: Progress.Counter)
    requires maxPart > 0
    ensures var plan := Parts.PlanParts(0, maxPart);
            var u := UploadParts(io, title, plan, maxPart, mp3, counter, 1);
            && plan.multipart && !plan.known
            && (forall i, j :: 0 <= i < j < |u.files| ==> u.files[i].fileName != u.files[j].fileName)
            && (forall i :: 0 <= i < |u.said| ==> u.said[i] == PartUploaded(Parts.PartNumber(i + 1)))
  {
    var plan := Parts.PlanParts(0, maxPart);
    var u := UploadParts(io, title, plan, maxPart, mp3, counter, 1);
    UploadsFollowSplit(io, title, plan, maxPart, mp3, counter, 1);
    NumberedUploadsDistinct(io, title, plan, 1, u.files, Parts.SplitStream(mp3, maxPart).parts);
    NoticesFollowUploads(io, title, plan, maxPart, mp3, counter, 1);
  }

  /** Files uploaded under numbered names never share a name. */
  lemma NumberedUploadsDistinct(io: Io, title: string, plan: Parts.Plan, partNum: nat,
                                files: seq<Telegram.AudioUpload>, parts: seq<seq<bv8>>)
    requires plan.multipart && UploadsParts(io, title, plan, partNum, files, parts)
    ensures forall i, j :: 0 <= i < j < |files| ==> files[i].fileName != files[j].fileName
  {
    forall i, j | 0 <= i < j < |files|
      ensures files[i].fileName != files[j].fileName
    {
      Parts.MultipartNamesDistinct(title, partNum + i, partNum + j);
    }
  }

  /** What a download run did: the dialog's state afterwards, the texts it
      sent, the files it uploaded, its error, and the deletion of the
      recorded messages once it succeeded. */
  datatype Run = Run(state: State, said: seq<Text>, files: seq<Telegram.AudioUpload>, error: Option<string>,
                     cleared: Option<Telegram.Deletion>)

  /** `downloadAudio`: start the service, record the status, announce the
      plan, upload the parts, report completion, and clear the recorded
      messages. The delete list is shared with the message handler, which
      keeps appending to it while the run is in flight: `recorded` holds
      the ids it appended, so the run ends with `s.toDelete + recorded`
      and that whole list is what the final clean-up deletes. */
  function DownloadAudio(s: State, io: Io, result: Result<Service.DownloadResult>, recorded: seq<int>): (r: Run)
    requires s.maxPart > 0
    ensures result.Err? ==>
              r == Run(s.(toDelete := s.toDelete + recorded), [], [], Some("failed to download audio: " + result.error), None)
    ensures r.state.(status := s.status) == s.(toDelete := s.toDelete + recorded)
    ensures result.Ok? ==>
              var res := result.value;
              && r.state.status.Some? && r.state.status.value.title == res.name
              && r.state.status.value.counter.contentLen == res.contentLen
              && |r.said| >= 1 && r.said[0] == DownloadStarted(Parts.PlanParts(res.contentLen, s.maxPart))
    ensures r.error.None? ==>
              var res := result.value;
              && result.Ok?
              && r.said[|r.said| - 1] == DownloadCompleted(res.name)
              && r.state.status.value.counter.downloaded == |res.stream.data|
              && |r.files| == |Parts.SplitStream(res.stream, s.maxPart).parts|
              && r.cleared == Some(Telegram.DeleteMessages(s.toDelete + recorded, io.botDelete))
    ensures r.error.Some? ==> r.cleared.None?
  {
    var shared := s.(toDelete := s.toDelete + recorded);
    match result
    case Err(e) => Run(shared, [], [], Some("failed to download audio: " + e), None)
    case Ok(res) =>
      var counter := Progress.NewCounter(res.contentLen);
      var plan := Parts.PlanParts(res.contentLen, s.maxPart);
      var start := Say(io, io.ctxDone, DownloadStarted(plan), true);
      if start.error.Some? then
        Run(shared.(status := Some(Status(res.name, counter))), [DownloadStarted(plan)], [], start.error, None)
      else
        var loop := UploadParts(io, res.name, plan, s.maxPart, res.stream, counter, 1);
        LoopEndsAtStreamEnd(io, res.name, plan, s.maxPart, res.stream, counter, 1);
        var loaded := shared.(status := Some(Status(res.name, loop.counter)));
        var said := [DownloadStarted(plan)] + loop.said;
        if loop.error.Some? then Run(loaded, said, loop.files, Some(LoopErrorText(loop.error.value)), None)
        else
          var done := Say(io, io.ctxDone, DownloadCompleted(res.name), false);
          if done.error.Some? then Run(loaded, said + [DownloadCompleted(res.name)], loop.files, done.error, None)
          else Run(loaded, said + [DownloadCompleted(res.name)], loop.files, None,
                   Some(Telegram.DeleteMessages(shared.toDelete, io.botDelete)))
  }

  /** `startAudioDownloading` up to its deferred redirect: mark the dialog
      busy, run the download, and on failure tell the user, naming the
      video when its title is known and quoting the error. The failure
      message goes out on a fresh context and its own failure is ignored. */
  function StartAudioDownloading(s: State, io: Io, result: Result<Service.DownloadResult>, recorded: seq<int>): (r: Run)
    requires s.maxPart > 0
    ensures r.state.downloading
    ensures var d := DownloadAudio(s.(downloading := true), io, result, recorded);
            && r.state == d.state && r.files == d.files && r.error == d.error && r.cleared == d.cleared
            && (d.error.None? ==> r.said == d.said)
            && (d.error.Some? ==>
                  r.said == d.said + [DownloadFailed(if d.state.status.Some? then Some(d.state.status.value.title) else None,
                                                     d.error.value)])
  {
    var d := DownloadAudio(s.(downloading := true), io, result, recorded);
    if d.error.None? then d
    else
      var failure := DownloadFailed(if d.state.status.Some? then Some(d.state.status.value.title) else None, d.error.value);
      var _ := Say(io, None, failure, false);
      d.(said := d.said + [failure])
  }

  /** The dialog after a series of user messages, each handled in turn. */
  function Converse(s: State, io: Io, validate: string -> Option<string>, elapsed: real,
                    messages: seq<(string, int)>): State
    decreases |messages|
  {
    if |messages| == 0 then s
    else Converse(OnMessage(s, io, validate, elapsed, messages[0].0, messages[0].1).state, io, validate, elapsed, messages[1..])
  }

  /** The delete list only grows, and while a download runs every user
      message is on it, in the order received. */
  lemma {:induction false} DeleteListAppendOnly(s: State, io: Io, validate: string -> Option<string>, elapsed: real,
                                                messages: seq<(string, int)>)
    ensures s.toDelete <= Converse(s, io, validate, elapsed, messages).toDelete
    ensures Converse(s, io, validate, elapsed, messages).downloading == s.downloading
    ensures s.downloading ==> forall k :: 0 <= k < |messages| ==>
              messages[k].1 in Converse(s, io, validate, elapsed, messages).toDelete[|s.toDelete|..]
    ensures !s.downloading ==> Converse(s, io, validate, elapsed, messages) == s
    decreases |messages|
  {
    if |messages| > 0 {
      var next := OnMessage(s, io, validate, elapsed, messages[0].0, messages[0].1).state;
      DeleteListAppendOnly(next, io, validate, elapsed, messages[1..]);
      var final := Converse(s, io, validate, elapsed, messages);
      if s.downloading {
        assert final.toDelete[|s.toDelete|] == messages[0].1;
        forall k | 1 <= k < |messages|
          ensures messages[k].1 in final.toDelete[|s.toDelete|..]
        {
          assert messages[k] == messages[1..][k - 1];
          assert final.toDelete[|next.toDelete|..] == final.toDelete[|s.toDelete|..][|next.toDelete| - |s.toDelete|..];
        }
      }
    }
  }

  /** The ids the handler appended to the delete list while `messages`
      came in: what the dialog held before, followed by them, is the list
      it holds afterwards. */
  function Recorded(b: State, io: Io, validate: string -> Option<string>, elapsed: real,
                    messages: seq<(string, int)>): (ids: seq<int>)
    ensures b.toDelete + ids == Converse(b, io, validate, elapsed, messages).toDelete
  {
    DeleteListAppendOnly(b, io, validate, elapsed, messages);
    Converse(b, io, validate, elapsed, messages).toDelete[|b.toDelete|..]
  }

  /** A run together with the messages the handler took while it was in
      flight: the handler, seeing the busy dialog `b` that shares the run's
      delete list, appends every message id, and a successful run hands
      that whole list to the clean-up. When the clean-up reports no
      failure, every one of those messages was deleted. */
  lemma {:induction false} RunClearsMessagesReceived(s: State, b: State, io: Io, validate: string -> Option<string>,
                                                     elapsed: real, messages: seq<(string, int)>,
                                                     result: Result<Service.DownloadResult>)
    requires s.maxPart > 0 && b.downloading && b.toDelete == s.toDelete
    ensures var recorded := Recorded(b, io, validate, elapsed, messages);
            var r := StartAudioDownloading(s, io, result, recorded);
            && (forall k :: 0 <= k < |messages| ==> messages[k].1 in r.state.toDelete)
            && (r.error.None? ==> r.cleared == Some(Telegram.DeleteMessages(r.state.toDelete, io.botDelete)))
            && (r.error.None? && r.cleared.value.error.None? ==>
                  forall k :: 0 <= k < |messages| ==>
                    messages[k].1 in r.cleared.value.attempted && Telegram.DeleteDone(io.botDelete, messages[k].1))
  {
    DeleteListAppendOnly(b, io, validate, elapsed, messages);
    var final := Converse(b, io, validate, elapsed, messages).toDelete;
    var recorded := Recorded(b, io, validate, elapsed, messages);
    assert recorded == final[|s.toDelete|..];
    var r := StartAudioDownloading(s, io, result, recorded);
    assert r.state.toDelete == final;
    forall k | 0 <= k < |messages|
      ensures messages[k].1 in r.state.toDelete
    {
      var j :| 0 <= j < |recorded| && recorded[j] == messages[k].1;
      assert final[|s.toDelete| + j] == messages[k].1;
    }
    if r.error.None? && r.cleared.value.error.None? {
      forall k | 0 <= k < |messages|
        ensures Telegram.DeleteDone(io.botDelete, messages[k].1)
      {
        var i :| 0 <= i < |final| && final[i] == messages[k].1;
      }
    }
  }
}
