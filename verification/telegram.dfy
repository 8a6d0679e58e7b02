/** The Telegram side of `internal/telegram/req_user_provider.go`: message
    construction, sending, audio upload and bulk deletion. `bot.Send` is
    an oracle; so is `%+v`, which renders a message config into the error
    text of a failed send. */
module Telegram {
  import opened Results
  import opened Decimal
  import opened Strings

  /** A reply keyboard: rows of button labels, and whether Telegram hides
      it after one use. */
  datatype Keyboard = Keyboard(rows: seq<seq<string>>, oneTime: bool)

  /** A message's reply markup: none, the remove-keyboard request, or a
      reply keyboard. */
  datatype Markup = NoMarkup | RemoveKeyboard(selective: bool) | ReplyKeyboard(keyboard: Keyboard)

  datatype MessageConfig = MessageConfig(chatId: int, text: string, parseMode: string, markup: Markup)

  const HtmlParseMode: string := "HTML"

  /** `makeTextMsgf` with the formatting already applied: a message to the
      user in HTML parse mode, without reply markup as `tgbotapi.NewMessage`
      leaves it. */
  function MakeTextMsg(userId: int, text: string): (m: MessageConfig)
    ensures m.chatId == userId && m.text == text && m.parseMode == HtmlParseMode
    ensures m.markup.NoMarkup?
  {
    MessageConfig(userId, text, HtmlParseMode, NoMarkup)
  }

  /** The message `SendMessageWithKeyboardf` hands to `sendMessage`: the
      given keyboard, or the remove-keyboard markup when there is none. */
  function KeyboardMessage(userId: int, keyboard: Option<Keyboard>, text: string): (m: MessageConfig)
    ensures m.chatId == userId && m.text == text && m.parseMode == HtmlParseMode
    ensures keyboard.Some? ==> m.markup == ReplyKeyboard(keyboard.value)
    ensures keyboard.None? ==> m.markup == RemoveKeyboard(false)
  {
    var m := MakeTextMsg(userId, text);
    if keyboard.Some? then m.(markup := ReplyKeyboard(keyboard.value)) else m.(markup := RemoveKeyboard(false))
  }

  /** What `sendMessage` did: the config it passed to the bot (if any), and
      the returned message id and error. */
  datatype SendOutcome = SendOutcome(sent: Option<MessageConfig>, messageId: int, error: Option<string>)

  /** `sendMessage`: a context that is already done short-circuits before
      the bot is called; otherwise the bot's answer decides. */
  function SendMessage(userId: int, msg: MessageConfig, ctxErr: Option<string>,
                       send: MessageConfig -> Result<int>, render: MessageConfig -> string): (r: SendOutcome)
    ensures ctxErr.Some? ==> r == SendOutcome(None, 0, Some("context is done while sending message: " + ctxErr.value))
    ensures ctxErr.None? ==> r.sent == Some(msg)
    ensures ctxErr.None? && send(msg).Ok? ==> r.messageId == send(msg).value && r.error.None?
    ensures ctxErr.None? && send(msg).Err? ==>
              r.messageId == 0
              && r.error == Some("failed to send message " + render(msg) + " to user with telegram_id="
                                 + IntToDecimal(userId) + ": " + send(msg).error)
    ensures r.error.None? <==> ctxErr.None? && send(msg).Ok?
  {
    if ctxErr.Some? then SendOutcome(None, 0, Some("context is done while sending message: " + ctxErr.value))
    else
      match send(msg)
      case Ok(id) => SendOutcome(Some(msg), id, None)
      case Err(e) =>
        SendOutcome(Some(msg), 0, Some("failed to send message " + render(msg) + " to user with telegram_id="
                                       + IntToDecimal(userId) + ": " + e))
  }

  /** `SendMessageWithKeyboardf`. */
  function SendMessageWithKeyboard(userId: int, keyboard: Option<Keyboard>, text: string, ctxErr: Option<string>,
                                   send: MessageConfig -> Result<int>, render: MessageConfig -> string): (r: SendOutcome)
    ensures r.sent.Some? ==> r.sent.value.parseMode == HtmlParseMode && r.sent.value.text == text
                             && r.sent.value.chatId == userId
                             && r.sent.value.markup == (if keyboard.Some? then ReplyKeyboard(keyboard.value) else RemoveKeyboard(false))
    ensures r.sent.None? <==> ctxErr.Some?
    ensures r.error.None? <==> ctxErr.None? && send(KeyboardMessage(userId, keyboard, text)).Ok?
    ensures r.error.None? ==> r.messageId == send(KeyboardMessage(userId, keyboard, text)).value
  {
    SendMessage(userId, KeyboardMessage(userId, keyboard, text), ctxErr, send, render)
  }

  /** An audio upload: the file name and the bytes the bot reads. */
  datatype AudioUpload = AudioUpload(chatId: int, fileName: string, data: seq<bv8>)

  const AudioUploadErrorPrefix: string := "failed to upload audio to telegram: "

  /** `SendAudio`: the bot's error, if any, wrapped. */
  function SendAudio(userId: int, data: seq<bv8>, fileName: string, send: AudioUpload -> Option<string>): (r: Option<string>)
    ensures r.None? <==> send(AudioUpload(userId, fileName, data)).None?
    ensures r.Some? ==> r.value == AudioUploadErrorPrefix + send(AudioUpload(userId, fileName, data)).value
  {
    match send(AudioUpload(userId, fileName, data))
    case None => None
    case Some(e) => Some(AudioUploadErrorPrefix + e)
  }

  /** The bot library fails to decode Telegram's `true` answer to a
      deletion; an error mentioning this is not a failure. */
  const SpuriousDeleteError: string := "json: cannot unmarshal bool into Go value of type tgbotapi.Message"

  /** A deletion counts as done when the bot raised no error or only the
      spurious decoding one. */
  predicate DeleteDone(delete: int -> Option<string>, id: int) {
    delete(id).None? || Contains(delete(id).value, SpuriousDeleteError)
  }

  /** What `DeleteMessages` did: the ids it asked the bot to delete, in
      order, and its error. */
  datatype Deletion = Deletion(attempted: seq<int>, error: Option<string>)

  /** `DeleteMessages`: deletes in list order and stops at the first genuine
      failure, reporting its id; spurious failures are skipped. */
  function DeleteMessages(ids: seq<int>, delete: int -> Option<string>): (r: Deletion)
    ensures |r.attempted| <= |ids| && r.attempted == ids[..|r.attempted|]
    ensures forall i :: 0 <= i < |r.attempted| - 1 ==> DeleteDone(delete, ids[i])
    ensures r.error.None? <==> forall i :: 0 <= i < |ids| ==> DeleteDone(delete, ids[i])
    ensures r.error.None? ==> r.attempted == ids
    ensures r.error.Some? ==>
              |r.attempted| > 0
              && var last := ids[|r.attempted| - 1];
              !DeleteDone(delete, last)
              && r.error.value == "failed to delete message with id " + IntToDecimal(last) + ": " + delete(last).value
    decreases |ids|
  {
    if |ids| == 0 then Deletion([], None)
    else if !DeleteDone(delete, ids[0]) then
      Deletion([ids[0]], Some("failed to delete message with id " + IntToDecimal(ids[0]) + ": " + delete(ids[0]).value))
    else
      var rest := DeleteMessages(ids[1..], delete);
      PrefixCons(ids, rest.attempted);
      Deletion([ids[0]] + rest.attempted, rest.error)
  }

  /** A prefix of the tail, with the head put back, is a prefix. */
  lemma PrefixCons(ids: seq<int>, tailPrefix: seq<int>)
    requires |ids| > 0 && |tailPrefix| <= |ids| - 1 && tailPrefix == ids[1..][..|tailPrefix|]
    ensures [ids[0]] + tailPrefix == ids[..|tailPrefix| + 1]
    ensures forall i :: 0 < i < |ids| ==> ids[i] == ids[1..][i - 1]
  {
  }
}
