# tgytbot in Dafny

tgytbot is a Telegram bot. A user sends it a YouTube link. The bot fetches the
video's `audio/mp4` stream and pipes it through ffmpeg to get MP3 bytes. It then
uploads the audio to the chat in parts no larger than a configured size. While a
download runs, the user can ask for its status or stop it.

This project models the sequential logic of that bot. The goroutines, pipes,
HTTP, ffmpeg and Telegram calls are replaced by oracle parameters. What remains
is logic over integers, byte sequences, strings and maps, and the project proves
properties of it:

- `fetcher.dfy` covers the stream fetcher of `downloader.go`. It models the
  chunked range loop, the single unranged request, and the reported content
  length.
- `service.dfy` covers `DownloadAudio` and `downloadStream`: link rewriting,
  format choice, and the MP4-to-MP3 hand-off.
- `links.dfy` covers `transformLink`, `ValidateLink` and the format filter.
- `progress.dfy` covers the byte counter fed by the tee and the
  time-remaining estimate.
- `parts.dfy` covers the part limit and the announced part count. It also
  covers part file names and notices, and the `io.CopyN` split of the stream
  into parts.
- `download.dfy` covers the download dialog: message routing, the delete list,
  status reports, stopping, the upload loop and the whole run.
- `dialog_ids.dfy`, `dialogs.dfy`, `user_dialog_state.dfy`, `provider.dfy` and
  `maind.dfy` cover the dialog state machine. This includes dialog ids, the
  container factory, the per-user dialog map, `RedirectToDialog`, and the main
  dialog.
- `telegram.dfy` and `user_errors.dfy` cover message construction, sending,
  upload and deletion wrappers, and `UserError` formatting.
- `results.dfy`, `decimal.dfy`, `strings.dfy`, `quoting.dfy` and `streams.dfy`
  model the Go library behaviour the code relies on:
  - `strconv.ParseInt`
  - decimal `%d`/`%v`
  - `strings.Contains`
  - `%q` quoting
  - `io.CopyN` over a stream that carries its data and an optional read error

A reader is modelled as a value `Stream(data, failure)`. The pipe a goroutine
fills is the stream it would deliver. A download dialog is the value `State`.
Its message handlers return the new state, the texts they sent and an
`Effect`. The effect is something the rest of the bot must do: start the
download run, cancel it and redirect, or nothing. The dialog's Russian texts
are the tags of `Download.Text`, and an oracle renders them.

## Model

| member | source | states |
|---|---|---|
| Fetcher.RangeHeaderReadsBack | downloader.go:75-80 | any `bytes=first-last` header with natural bounds reads back to those bounds |
| Fetcher.RangeHeaderRoundTrip | downloader.go:75-80 | the chunk request at offset `pos` carries `Range: bytes=pos-(pos+9999999)`, and both bounds read back exactly |
| Fetcher.ChunkLoop | downloader.go:99-107 | one request per chunk; the pipe receives exactly the in-order concatenation of the copied chunk bodies; a clean close means the offset reached the content length |
| Fetcher.ChunkRequestsFollowCopiedBytes | downloader.go:79-107 | request `i` asks for the range at the offset reached by the bytes actually copied before it (not by multiples of the chunk size), is sent only while that offset is below the length, and copies its reply's body |
| Fetcher.ChunkRequestsRanged | downloader.go:79-80 | every chunk request goes to the stream URL and carries a `Range` header |
| Fetcher.ChunkLoopStopsAtFirstFailure | downloader.go:82-104 | every request but the last succeeded; the pipe closes cleanly iff all requests succeeded; otherwise the last request failed (transport error or status other than 206, copying nothing) and the pipe carries its error |
| Fetcher.GetStreamContext | downloader.go:21-47 | a stream-URL error is passed through; format length 0 iff a single unranged request; otherwise all requests are ranged, the format length is reported unchanged and a clean stream is at least that long; the single request reports 0 when refused, else the parsed `Content-Length` |
| Fetcher.SingleShotReportsHeaderLength | downloader.go:49-72 | the single request reports the number in its `Content-Length` header whatever the status, and delivers the body with its read error |
| Fetcher.UnexpectedStatusTextNamesCode | downloader.go:16-18 | the error text is `unexpected status code: ` followed by the code, which parses back to the code |
| Decimal.GoParseInt | downloader.go:68-71 | the parsed header always fits in 64 bits, and an absent (empty) header gives 0 |
| Decimal.ParseIntRoundTrip | downloader.go:68-71 | a header holding the decimal rendering of a 64-bit number parses back to that number |
| Streams.CopyN | internal/dialogs/download/dialog.go:241-250 | copied bytes plus the rest are the source; at most `n` bytes; nil error iff exactly `n` copied; EOF iff the source ended cleanly first; a read error otherwise |
| Service.DownloadStream | internal/downloader/service.go:53-87 | video-lookup, format and stream errors each end the call with their own wrapping; the lookup uses the rewritten link; on success the title is the video's and a non-zero declared length of the first kept format is the length reported |
| Service.DownloadAudio | internal/downloader/service.go:27-46 | a result exists only when both the MP4 download and the conversion succeed, and a failure at either stage returns only that stage's wrapped error; a result's name is the video's title, and its length, when the first kept `audio/mp4` format declares one, is that declared length |
| Service.TranscoderLeavesLengthAndTitle | internal/downloader/service.go:27-46 | swapping the transcoder for any other leaves the announced length and title unchanged, and cannot change a failure of the MP4 stage |
| Service.DownloadAudioUnknownLength | internal/downloader/service.go:40-44 | corrected result: same success, error, title and stream as `DownloadAudio`, but announces the length as unknown (0) |
| Links.TransformLink | internal/downloader/service.go:117-135 | an unparseable URL, a path not under `/live/` or a bare `/live/` return the link unchanged; otherwise the path after `/live/`; any changed result is a non-empty suffix of the path |
| Links.TransformLinkExamples | internal/downloader/service_test.go:22-49 | the four table cases of the test hold |
| Links.ValidateLink | internal/downloader/validation.go:9-18 | no youtube host gives the quoted-link error; a host with failed id extraction gives the wrapped extractor error; nil iff host present and an id is extracted |
| Links.HostCheckComesFirst | internal/downloader/validation.go:10-13 | without a host the extractor is never consulted: any two extractors give the same answer |
| Links.ValidateLinkRefusals | internal/downloader/validation_test.go:14-27 | `Статус` and a bare video id are refused whatever the extractor says |
| Links.HostedLinkAccepted | internal/downloader/validation_test.go:28-41 | any text containing `youtube.com/` or `youtu.be/`, with or without a scheme, is accepted when the extractor finds an id |
| Links.FilterHead | internal/downloader/service.go:65-69 | the filtered list is empty iff no format is kept, and its head is the first kept format |
| Links.SelectFormat | internal/downloader/service.go:65-69 | an error naming the quoted type iff no format is kept; otherwise the first kept format |
| Progress.NewCounter | internal/dialogs/progress/counter.go:16-22 | the given content length and nothing downloaded |
| Progress.Write | internal/dialogs/progress/counter.go:24-29 | returns `(len(p), nil)`, adds exactly `len(p)` to the tally, leaves the content length alone |
| Progress.TallyCountsEveryByte | internal/dialogs/progress/counter.go:24-29 | after any series of writes the tally grew by the total bytes written and the content length is unchanged |
| Progress.TallyNeverDecreases | internal/dialogs/progress/counter.go:24-45 | the tally observed after a prefix of the writes is at most the final tally |
| Progress.EstimatedTime | internal/dialogs/progress/estimated_time.go:8-22 | unknown length is checked first, then no data; otherwise `eta * downloaded == (contentLen - downloaded) * elapsed` |
| Progress.EstimateIsRemainingOverRate | internal/dialogs/progress/estimated_time.go:17-21 | the estimate is the remaining bytes divided by the observed rate |
| Progress.EstimateSign | internal/dialogs/progress/estimated_time.go:17-21 | the estimate is non-negative iff the tally has not passed the content length |
| Parts.MegabytesToBytes | internal/dialogs/download/dialog.go:312-314 | the byte count is a whole number of MB and converts back to the given megabytes |
| Parts.MaxPartSize | internal/dialogs/download/dialog.go:68-74 | never 0, whole megabytes, positive iff the configuration is not negative, 48 MB for a configured 0 and the configured MB otherwise |
| Parts.PlanParts | internal/dialogs/download/dialog.go:202-209 | a count only for a positive length, and then `(count-1)*max < len <= count*max`; multipart iff count > 1, and always when the length is unknown |
| Parts.SinglePartIffFits | internal/dialogs/download/dialog.go:205-208 | a known length is sent as one part iff it is at most the limit |
| Parts.PartFileName | internal/dialogs/download/dialog.go:228-231 | `<title>.mp3`, prefixed by `p` and ending in `_<title>.mp3` exactly when multipart |
| Parts.PartFileNameRoundTrip | internal/dialogs/download/dialog.go:228-231 | a multipart name reads back to its part number and title |
| Parts.MultipartNamesDistinct | internal/dialogs/download/dialog.go:228-231 | multipart parts with different numbers never share a name |
| Parts.PartNotice | internal/dialogs/download/dialog.go:258-268 | no notice for a single part; `n/count` with the announced count when the length is known; `n` otherwise |
| Parts.SplitStream | internal/dialogs/download/dialog.go:241-274 | at least one part; all but the last have exactly the limit; the last is short; the stream's read error is the split's |
| Parts.SplitKeepsBytes | internal/dialogs/download/dialog.go:241-250 | the parts, concatenated in order, are exactly the stream's bytes |
| Parts.SplitCount | internal/dialogs/download/dialog.go:223-274 | a stream of L bytes gives `L / max + 1` parts, the last holding `L % max` bytes |
| Parts.CeilCount | internal/dialogs/download/dialog.go:207 | the announced count is whole parts plus one for a remainder |
| Parts.SplitAgreesWithPlanIff | internal/dialogs/download/dialog.go:202-274 | the split matches the announced count iff the length is not a multiple of the limit; on a multiple there is one extra, empty, last part |
| Parts.ExactMultipleAddsEmptyPart | internal/dialogs/download/dialog.go:241-274 | four bytes with a two-byte limit: two parts announced, three cut, the third empty |
| Parts.SplitWithoutEmptyTail | internal/dialogs/download/dialog.go:241-274 | corrected split: same bytes and read error, parts within the limit, and no empty part for a non-empty stream |
| Parts.SplitWithoutEmptyTailMatchesPlan | internal/dialogs/download/dialog.go:202-209 | the corrected split of a non-empty stream has exactly the announced number of parts |
| Download.New | internal/dialogs/download/dialog.go:68-81 | idle, no status, nothing to delete, the given timeout, and the limit of `MaxPartSize` |
| Download.SendThenDelete | internal/dialogs/download/dialog.go:104-111 | sends with the waiting keyboard; on success the sent message's id is appended to the delete list, on failure the state is unchanged and the error returned |
| Download.OnMessage | internal/dialogs/download/dialog.go:89-97 | idle: start a download of the text, nothing else; busy: the message id is appended first, then a valid link is refused, the stop button stops, other text reports status; the delete list only grows and nothing else in the state changes |
| Download.OnDownloading | internal/dialogs/download/dialog.go:141-155 | the link check comes first, then the stop button, then the status report whose error is wrapped |
| Download.StopDownloading | internal/dialogs/download/dialog.go:293-304 | cancels and sends the stop text; a send failure is wrapped and skips the redirect; an unset status crashes the handler |
| Download.PrintCurrentDownloadStatus | internal/dialogs/download/dialog.go:119-139 | unknown length: the downloaded amount only; otherwise amount, length and an estimate present iff something was downloaded, satisfying the estimate's equation |
| Download.UploadParts | internal/dialogs/download/dialog.go:221-275 | single-part uploads send no notices; a copy failure carries the stream's read error; the tally grows by at most the stream's bytes and by all of them on success |
| Download.UploadsFollowSplit | internal/dialogs/download/dialog.go:223-246 | the files handed to the bot are the parts of `SplitStream`, in order, under the names of parts `n, n+1, …` |
| Download.LoopEndsAtStreamEnd | internal/dialogs/download/dialog.go:241-274 | a loop without error uploaded every part of a cleanly ended stream |
| Download.CopyFailureNamesPart | internal/dialogs/download/dialog.go:247-248 | a non-EOF copy error names the part after the last uploaded one, which is the last part; no later part is started |
| Download.UploadFailureNamesPart | internal/dialogs/download/dialog.go:255-256 | an upload failure names the last file handed over and carries `SendAudio`'s error for it; no later part is started |
| Download.NoticesFollowUploads | internal/dialogs/download/dialog.go:258-268 | for multipart audio the notice after upload `i` is that part's notice; on success every part got one |
| Download.LoopSucceedsWhenBotDoes | internal/dialogs/download/dialog.go:223-275 | a bot that accepts everything and a cleanly ended stream give a loop without error |
| Download.Mp4LengthMisnamesMp3Parts | internal/downloader/service.go:40-44 | an MP4 fitting one part but an MP3 longer than the limit: two or more parts, both named `<title>.mp3`, no notices |
| Download.ServiceMisnamesMp3Parts | internal/downloader/service.go:40-44 | through the service: when the first kept MP4 format declares a length that fits in one part and ffmpeg's MP3 output does not fit, the run announces one part, succeeds, and uploads at least two files under the same unnumbered name |
| Download.UnknownLengthNamesDistinct | internal/dialogs/download/dialog.go:228-231 | with the length unknown, all uploaded names differ and each notice is the bare part number |
| Download.DownloadAudio | internal/dialogs/download/dialog.go:180-287 | a service error is wrapped; otherwise the status holds the title and length, the plan is announced first, and on success completion is the last text, the tally equals the stream's bytes, every part was uploaded, and the clean-up deletes the delete list as it stands at the end, including the ids `recorded` while the run was in flight |
| Download.StartAudioDownloading | internal/dialogs/download/dialog.go:157-178 | marks the dialog busy and runs the download; on failure one more text names the title when known and carries the error |
| Download.DeleteListAppendOnly | internal/dialogs/download/dialog.go:56-60 | over any series of messages the delete list only grows, and while downloading every message id lands on it |
| Download.Recorded | internal/dialogs/download/dialog.go:89-95 | the ids appended by the handler over a series of messages: the list before, followed by them, is the list after |
| Download.RunClearsMessagesReceived | internal/dialogs/download/dialog.go:281-291 | every message id the handler took while the run was in flight is on the run's final delete list; a successful run hands that list to the clean-up, and when the clean-up reports no failure each of those messages was deleted |
| Telegram.MakeTextMsg | internal/telegram/req_user_provider.go:95-99 | a message to the user with the given text in HTML parse mode |
| Telegram.KeyboardMessage | internal/telegram/req_user_provider.go:39-48 | the given keyboard is attached; none gives the remove-keyboard markup |
| Telegram.SendMessage | internal/telegram/req_user_provider.go:101-116 | a done context returns `(0, error)` without sending; a sent message's id is returned; a failed send returns 0 and the wrapped error naming the user |
| Telegram.SendMessageWithKeyboard | internal/telegram/req_user_provider.go:39-48 | what is sent has HTML mode, the text and the chosen markup; no error iff context live and the bot accepted, returning the bot's id |
| Telegram.SendAudio | internal/telegram/req_user_provider.go:50-63 | nil iff the bot accepted the upload; otherwise the bot's error wrapped |
| Telegram.DeleteMessages | internal/telegram/req_user_provider.go:80-93 | deletes in list order; spurious-decoding failures are skipped; nil iff every deletion is done or skipped (an empty list makes no call); otherwise stops at the first genuine failure and names its id |
| DialogIds.Validate | internal/app/dialog.go:23-34 | nil exactly for ids 0 and 1, the key set of the registry; otherwise an error naming the id |
| DialogIds.UnknownIdReadBack | internal/app/dialog.go:30-31 | the rejected id parses back out of the error text |
| Dialogs.CreateDialog | internal/dialogs/container.go:25-33 | a main dialog for 0; a fresh download dialog with the container's timeout and limit for 1; nil otherwise, i.e. a dialog iff the id is registered |
| Dialogs.ValidIdsYieldDialogs | internal/dialogs/container.go:25-33 | every id accepted by `Validate` yields a dialog |
| Dialogs.OnEnter | internal/dialogs/maind/dialog.go:18-22 | entering a dialog never fails |
| UserDialogState.NewUserDialogState | internal/app/user_dialog_state.go:10-15 | nobody is in a dialog |
| UserDialogState.FindDialogByUser | internal/app/user_dialog_state.go:17-26 | a dialog iff the user has an entry |
| UserDialogState.SetDialogForUser | internal/app/user_dialog_state.go:28-33 | the user then finds the new dialog, every other user finds what they found before, and only that user's key is added |
| UserDialogState.SetOverwrites | internal/app/user_dialog_state.go:32 | a later set for the same user erases the earlier one |
| UserDialogState.SetsForDifferentUsersCommute | internal/app/user_dialog_state.go:32 | sets for different users commute |
| Provider.RedirectToDialog | internal/telegram/req_user_provider.go:65-78 | an invalid id fails before anything is stored; a valid one stores the created dialog for the user before entering it, touching no other user |
| Provider.RedirectToKnownIdSucceeds | internal/telegram/req_user_provider.go:72-77 | redirecting to a registered id succeeds with the dialog it stored |
| Provider.FinishDownload | internal/dialogs/download/dialog.go:163-166 | after a run, whatever its outcome, the user is in the main dialog and no other user's dialog changed |
| Provider.AfterStop | internal/dialogs/download/dialog.go:300-302 | the user returns to the main dialog only when stopping asked for it |
| Maind.OnMessage | internal/dialogs/maind/dialog.go:24-38 | an invalid link gives the prompt `UserError` with the validation error as cause and changes nothing; a valid link moves the user to a fresh download dialog and forwards the text, which starts the download |
| Maind.RefusalTextCarriesCause | internal/dialogs/maind/dialog.go:25-29 | the refusal's error text reads back to the prompt and the validation error |
| UserErrors.NewUserError | internal/app/user_error.go:13-15 | the given message and no cause |
| UserErrors.WithCause | internal/app/user_error.go:17-20 | the cause is set and the message kept |
| UserErrors.ErrorText | internal/app/user_error.go:22-29 | always starts with `user error with message=`; without a cause it is that prefix and the quoted message |
| UserErrors.ErrorTextRoundTrip | internal/app/user_error.go:22-29 | message, and whether and which cause is set, read back from the text |
| UserErrors.ErrorTextInjective | internal/app/user_error.go:22-29 | different errors never render the same text |
| Quoting.UnquoteQuote | internal/app/user_error.go:24-27 | a `%q`-quoted string followed by anything reads back to the string and the rest |
| Strings.ContainsIff | internal/downloader/validation.go:10 | the substring scan answers exactly whether the substring occurs |

## Left out

- Goroutines, `io.Pipe`, channels and mutexes are sequential steps. A
  message that starts a download returns the `StartDownload` effect, and the
  run is `Download.StartAudioDownloading`. This leaves out the uploader
  goroutine's second channel send after an upload error
  (`internal/dialogs/download/dialog.go:235-240`). It also leaves out the copy
  blocking on a pipe whose reader has stopped, races between two messages, and
  the upload loop's counter being read mid-run.
- The YouTube client (`GetVideo`, the format filter, `GetStreamURL`,
  `ExtractVideoID`), `url.Parse`, `net/http`, ffmpeg and `tgbotapi`'s `Send`
  are oracle parameters. ffmpeg's own start-up errors and the
  `NewRequestWithContext` error are part of those oracles.
- The `User-Agent` header and the request context are not modelled. The
  Telegram context only appears as "already done or not".
- Floating point is not modelled: `Percentage`, `bytesToMegabytes`, the
  `%.2f` figures, and `time.Duration` rounding. The ETA is a real number, and
  `math.Ceil` of a float quotient is modelled as an integer ceiling, which is
  exact for realistic sizes.
- 64-bit wrap-around is not modelled for chunk offsets, the byte tally or
  `megabytesToBytes`.
- The Russian message texts are tags (`Download.Text`) with an abstract
  renderer.
- `sendMessage`'s `%+v` dump of the message is a renderer parameter. The
  keyboard's button structure is reduced to labels and the one-time flag.
- `%q` quoting escapes ASCII control characters exactly as Go does. Go also
  escapes non-printable non-ASCII runes; the model keeps every non-ASCII
  character verbatim.
- Download.UploadParts: requires a positive part limit. A negative
  configured size makes `io.CopyN` copy nothing forever, so the Go loop never
  ends, and a total function cannot express that.
- Fetcher.ChunkLoop: requires that every successful 206 reply to a ranged
  request has a non-empty body. On an empty one the Go loop requests the same
  range forever.
- The pipe writer's `Close` always returns nil, so the "failed to close pipe
  writer" error (`internal/dialogs/download/dialog.go:252-254`) is not a
  modelled outcome.
- Provider.AfterStop: the redirect after a stop can only fail with an error
  that `Provider.RedirectToKnownIdSucceeds` rules out, so the "failed to stop
  downloading" wrapping of a redirect error is not modelled.
- The run and the message handler share the delete list under a mutex. The
  model does not interleave them: `Download.DownloadAudio` takes the ids the
  handler appended while it was in flight as a parameter (`recorded`, produced
  by `Download.Recorded`), so which messages arrive before the clean-up reads
  the list is a parameter, not a modelled schedule.
- The deletion of recorded messages after a successful run runs in a goroutine
  whose error is only logged. The model reports the deletion but does not
  propagate its error.
- Dispatch (`internal/telegram/dispatcher.go`, `msg_processor.go`,
  `long_polling.go`), `cmd/tgytbot/main.go` and logging are not part of this
  model.
- `DownloadVideo` is left out; it panics as unimplemented.
- The interface-only files `internal/app/req_user_provider.go` and
  `internal/app/downloader.go` appear only as signatures.
- `printCurrentDownloadStatus` and `stopDownloading` dereference the status,
  which is nil until the service call returns. The model makes this an
  explicit `NilStatusDereference` effect instead of a crash.
- `downloadOnce` never checks the response status, and the model keeps that.
  Any status is piped, and its `Content-Length` is reported.
- The estimate turns negative when the MP3 tally exceeds the MP4 length. The
  model follows the code here, not a non-negative ETA.

## Findings

| source | as written | input that shows it | evidently intended | confidence | as-written member | corrected member |
|---|---|---|---|---|---|---|
| internal/dialogs/download/dialog.go:241-274 | the loop stops only after a part shorter than the limit, so a stream whose length is an exact multiple of the limit ends with an extra, empty part | a stream of exactly `2 * maxPart` bytes: three parts announced as two, the last one empty | upload exactly the announced number of non-empty parts | not executed | Parts.ExactMultipleAddsEmptyPart | Parts.SplitWithoutEmptyTailMatchesPlan |
| internal/downloader/service.go:40-44 | the announced length is the MP4 source's, while the parts are cut from ffmpeg's MP3 output | an MP4 of `maxPart` bytes whose MP3 has `maxPart + 1` bytes: one part announced, two uploaded, both named `<title>.mp3` | announce no length for the converted stream, so parts are numbered as they come | not executed | Download.Mp4LengthMisnamesMp3Parts | Download.UnknownLengthNamesDistinct |

The dialog's upload loop (`Download.UploadParts`) models the code as written, so
both mismatches stay visible in it. For the first finding,
`Parts.SplitAgreesWithPlanIff` states the mismatch for every length, and
`Parts.ExactMultipleAddsEmptyPart` gives a concrete instance. The corrected split is
`Parts.SplitWithoutEmptyTail`, and its announced count is proved by
`Parts.SplitWithoutEmptyTailMatchesPlan`. The corrected service result is
`Service.DownloadAudioUnknownLength`. The dialog's run takes the service result
as an argument, so the corrected result can drive it.
`Download.UnknownLengthNamesDistinct` proves that part names are then
distinct.
`Download.ServiceMisnamesMp3Parts` follows the second finding through
`Service.DownloadAudio`, whose length is the MP4 format's declared length
whatever ffmpeg produces (`Service.TranscoderLeavesLengthAndTitle`).
