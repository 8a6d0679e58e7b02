/** `app.UserError` of `internal/app/user_error.go`: an error carrying a
    message meant for the user and, optionally, the technical cause. */
module UserErrors {
  import opened Results
  import opened Strings
  import opened Quoting

  datatype UserError = UserError(cause: Option<string>, userMessage: string)

  const MessagePrefix: string := "user error with message="
  const CauseInfix: string := " and cause err="

  /** `NewUserError`: the given message and no cause. */
  function NewUserError(userMessage: string): (e: UserError)
    ensures e.userMessage == userMessage && e.cause.None?
  {
    UserError(None, userMessage)
  }

  /** `WithCause`: sets the cause and keeps the message. The Go method
      mutates and returns its receiver; here the updated value is returned. */
  function WithCause(e: UserError, cause: string): (r: UserError)
    ensures r.userMessage == e.userMessage && r.cause == Some(cause)
  {
    e.(cause := Some(cause))
  }

  /** `Error()`: the quoted message, then the quoted cause when one is set. */
  function ErrorText(e: UserError): (text: string)
    ensures HasPrefix(text, MessagePrefix)
    ensures e.cause.None? ==> text == MessagePrefix + Quote(e.userMessage)
  {
    MessagePrefix + Quote(e.userMessage) + (if e.cause.Some? then CauseInfix + Quote(e.cause.value) else "")
  }

  /** Reads an `Error()` text back into the error it describes. */
  function ParseErrorText(text: string): Option<UserError> {
    if !HasPrefix(text, MessagePrefix) then None
    else
      match UnquotePrefix(text[|MessagePrefix|..])
      case None => None
      case Some((msg, rest)) =>
        if rest == [] then Some(UserError(None, msg))
        else if !HasPrefix(rest, CauseInfix) then None
        else
          match UnquotePrefix(rest[|CauseInfix|..])
          case None => None
          case Some((cause, tail)) => if tail == [] then Some(UserError(Some(cause), msg)) else None
  }

  /** `Error()` loses nothing: the message, and whether and which cause is
      set, can all be recovered from the text. */
  lemma ErrorTextRoundTrip(e: UserError)
    ensures ParseErrorText(ErrorText(e)) == Some(e)
  {
    var text := ErrorText(e);
    var afterPrefix := text[|MessagePrefix|..];
    var tail := if e.cause.Some? then CauseInfix + Quote(e.cause.value) else "";
    assert afterPrefix == Quote(e.userMessage) + tail;
    UnquoteQuote(e.userMessage, tail);
    if e.cause.Some? {
      assert tail[|CauseInfix|..] == Quote(e.cause.value) + "";
      UnquoteQuote(e.cause.value, "");
    }
  }

  /** Two errors render to the same text only when they are the same error. */
  lemma ErrorTextInjective(a: UserError, b: UserError)
    requires ErrorText(a) == ErrorText(b)
    ensures a == b
  {
    ErrorTextRoundTrip(a);
    ErrorTextRoundTrip(b);
  }
}
