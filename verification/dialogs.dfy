/** The dialogs a user can be in and the factory of
    `internal/dialogs/container.go` that builds them by id. */
module Dialogs {
  import opened Results
  import DialogIds
  import Download

  datatype Dialog = MainDialog | DownloadDialog(state: Download.State)

  /** The container's configuration (the download service itself is an
      argument of the download run). */
  datatype Container = Container(downloadTimeout: int, audioMaxFileSizeMB: int)

  /** `CreateDialog`: a main dialog for `DialogMain`, a fresh download
      dialog with the container's timeout and size limit for
      `DialogYoutubeDownload`, nothing (Go's nil) for any other id. */
  function CreateDialog(c: Container, id: int): (r: Option<Dialog>)
    ensures id == DialogIds.Main ==> r == Some(MainDialog)
    ensures id == DialogIds.YoutubeDownload ==>
              r.Some? && r.value.DownloadDialog?
              && var s := r.value.state;
              && !s.downloading && s.status.None? && s.toDelete == []
              && s.timeout == c.downloadTimeout && s.maxPart == Download.New(c.downloadTimeout, c.audioMaxFileSizeMB).maxPart
    ensures r.Some? <==> id in DialogIds.AllDialogIds
  {
    if id == DialogIds.Main then Some(MainDialog)
    else if id == DialogIds.YoutubeDownload then Some(DownloadDialog(Download.New(c.downloadTimeout, c.audioMaxFileSizeMB)))
    else None
  }

  /** Every id `Validate` accepts yields a dialog. */
  lemma ValidIdsYieldDialogs(c: Container, id: int)
    requires DialogIds.Validate(id).None?
    ensures CreateDialog(c, id).Some?
  {
  }

  /** `OnEnter` of either dialog: it only logs, and never fails. */
  function OnEnter(d: Dialog): (r: Option<string>)
    ensures r.None?
  {
    None
  }
}
