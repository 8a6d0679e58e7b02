/** The dialog plumbing of `internal/telegram/req_user_provider.go`: moving
    the requesting user to another dialog, and the redirect that ends every
    download run. */
module Provider {
  import opened Results
  import DialogIds
  import UserDialogState
  import Dialogs
  import Download
  import Service

  /** The per-request provider: who is asking, the shared dialog registry,
      and the container that builds dialogs. */
  datatype Provider = Provider(userId: int, registry: UserDialogState.State<Dialogs.Dialog>, container: Dialogs.Container)

  datatype Redirect = Redirect(registry: UserDialogState.State<Dialogs.Dialog>, dialog: Result<Dialogs.Dialog>)

  /** `RedirectToDialog`: an unknown id fails before anything is built or
      stored; a known one stores the new dialog for the user and only then
      enters it, so an `OnEnter` failure leaves the dialog stored. */
  function RedirectToDialog(p: Provider, id: int): (r: Redirect)
    ensures DialogIds.Validate(id).Some? ==>
              r == Redirect(p.registry, Err("failed to validate dialog: " + DialogIds.Validate(id).value))
    ensures DialogIds.Validate(id).None? ==>
              && Dialogs.CreateDialog(p.container, id).Some?
              && UserDialogState.FindDialogByUser(r.registry, p.userId) == Dialogs.CreateDialog(p.container, id)
              && (forall u :: u != p.userId ==>
                    UserDialogState.FindDialogByUser(r.registry, u) == UserDialogState.FindDialogByUser(p.registry, u))
              && r.dialog == (if Dialogs.OnEnter(Dialogs.CreateDialog(p.container, id).value).Some?
                              then Err("failed OnEnter on new dialog: " + Dialogs.OnEnter(Dialogs.CreateDialog(p.container, id).value).value)
                              else Ok(Dialogs.CreateDialog(p.container, id).value))
  {
    match DialogIds.Validate(id)
    case Some(e) => Redirect(p.registry, Err("failed to validate dialog: " + e))
    case None =>
      Dialogs.ValidIdsYieldDialogs(p.container, id);
      var dialog := Dialogs.CreateDialog(p.container, id).value;
      var registry := UserDialogState.SetDialogForUser(p.registry, p.userId, dialog);
      match Dialogs.OnEnter(dialog)
      case Some(e) => Redirect(registry, Err("failed OnEnter on new dialog: " + e))
      case None => Redirect(registry, Ok(dialog))
  }

  /** Both dialogs can always be entered, so a redirect to a known id
      succeeds with the dialog it stored. */
  lemma RedirectToKnownIdSucceeds(p: Provider, id: int)
    requires id in DialogIds.AllDialogIds
    ensures RedirectToDialog(p, id).dialog.Ok?
    ensures UserDialogState.FindDialogByUser(RedirectToDialog(p, id).registry, p.userId)
              == Some(RedirectToDialog(p, id).dialog.value)
  {
  }

  /** A download run from `startAudioDownloading`: the run itself, then the
      deferred redirect to the main dialog, whose result is ignored. */
  datatype Finished = Finished(run: Download.Run, registry: UserDialogState.State<Dialogs.Dialog>)

  /** Whatever the run's outcome, the user ends up in the main dialog and
      every other user's dialog is untouched. */
  function FinishDownload(p: Provider, s: Download.State, io: Download.Io,
                          result: Result<Service.DownloadResult>, recorded: seq<int>): (r: Finished)
    requires s.maxPart > 0
    ensures r.run == Download.StartAudioDownloading(s, io, result, recorded)
    ensures UserDialogState.FindDialogByUser(r.registry, p.userId) == Some(Dialogs.MainDialog)
    ensures forall u :: u != p.userId ==>
              UserDialogState.FindDialogByUser(r.registry, u) == UserDialogState.FindDialogByUser(p.registry, u)
  {
    var run := Download.StartAudioDownloading(s, io, result, recorded);
    Finished(run, RedirectToDialog(p, DialogIds.Main).registry)
  }

  /** The effect of a stop request after the download dialog has answered:
      the user returns to the main dialog only when the dialog asked for
      it. */
  function AfterStop(p: Provider, effect: Download.Effect): (r: UserDialogState.State<Dialogs.Dialog>)
    ensures effect == Download.CancelDownload(true) ==>
              UserDialogState.FindDialogByUser(r, p.userId) == Some(Dialogs.MainDialog)
    ensures effect != Download.CancelDownload(true) ==> r == p.registry
    ensures forall u :: u != p.userId ==> UserDialogState.FindDialogByUser(r, u) == UserDialogState.FindDialogByUser(p.registry, u)
  {
    if effect == Download.CancelDownload(true) then RedirectToDialog(p, DialogIds.Main).registry else p.registry
  }
}
