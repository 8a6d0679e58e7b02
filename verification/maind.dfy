/** The main dialog of `internal/dialogs/maind/dialog.go`: it waits for a
    YouTube link and hands it to a fresh download dialog. */
module Maind {
  import opened Results
  import DialogIds
  import UserErrors
  import UserDialogState
  import Dialogs
  import Download
  import Provider

  /** The prompt shown when the text is not a usable link. */
  const LinkPrompt: string := "Введите корректную ссылку на любой YouTube-ролик, чтобы получить аудиозапись"

  /** Why `OnMessage` failed: a mistake the user should see, or a
      technical error. */
  datatype Failure = UserFacing(userError: UserErrors.UserError) | Technical(error: string)

  function AsTechnical(error: Option<string>): Option<Failure> {
    match error
    case None => None
    case Some(e) => Some(Technical(e))
  }

  /** The registry afterwards, the failure, and what the forwarded message
      asked for. */
  datatype Reply = Reply(registry: UserDialogState.State<Dialogs.Dialog>, failure: Option<Failure>, effect: Download.Effect)

  /** `OnMessage`: an invalid link is refused with the prompt and the
      validation error as cause, and nothing else happens; a valid link
      moves the user to a new download dialog and forwards the same text
      and message id to it. */
  function OnMessage(p: Provider.Provider, io: Download.Io, validate: string -> Option<string>, elapsed: real,
                     text: string, msgId: int): (r: Reply)
    ensures validate(text).Some? ==>
              r == Reply(p.registry, Some(UserFacing(UserErrors.UserError(validate(text), LinkPrompt))), Download.NoEffect)
    ensures validate(text).None? ==>
              && r.failure.None?
              && r.effect == Download.StartDownload(text)
              && UserDialogState.FindDialogByUser(r.registry, p.userId)
                   == Some(Dialogs.DownloadDialog(Download.New(p.container.downloadTimeout, p.container.audioMaxFileSizeMB)))
              && (forall u :: u != p.userId ==>
                    UserDialogState.FindDialogByUser(r.registry, u) == UserDialogState.FindDialogByUser(p.registry, u))
  {
    match validate(text)
    case Some(e) => Reply(p.registry, Some(UserFacing(UserErrors.WithCause(UserErrors.NewUserError(LinkPrompt), e))), Download.NoEffect)
    case None =>
      var redirect := Provider.RedirectToDialog(p, DialogIds.YoutubeDownload);
      match redirect.dialog
      case Err(e) => Reply(redirect.registry, Some(Technical(e)), Download.NoEffect)
      case Ok(dialog) =>
        match dialog
        case MainDialog => Reply(redirect.registry, None, Download.NoEffect)
        case DownloadDialog(s) =>
          var forwarded := Download.OnMessage(s, io, validate, elapsed, text, msgId);
          var registry := UserDialogState.SetDialogForUser(redirect.registry, p.userId, Dialogs.DownloadDialog(forwarded.state));
          Reply(registry, AsTechnical(forwarded.error), forwarded.effect)
  }

  /** The refusal's error text quotes the prompt and the validation error,
      and both can be read back from it. */
  lemma RefusalTextCarriesCause(p: Provider.Provider, io: Download.Io, validate: string -> Option<string>, elapsed: real,
                                text: string, msgId: int)
    requires validate(text).Some?
    ensures var e := OnMessage(p, io, validate, elapsed, text, msgId).failure.value.userError;
            UserErrors.ParseErrorText(UserErrors.ErrorText(e)) == Some(UserErrors.UserError(validate(text), LinkPrompt))
  {
    UserErrors.ErrorTextRoundTrip(UserErrors.UserError(validate(text), LinkPrompt));
  }
}
