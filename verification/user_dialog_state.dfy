/** `app.UserDialogState` of `internal/app/user_dialog_state.go`: the
    dialog each Telegram user is currently in. Generic in the dialog type,
    so that the app layer does not depend on the dialogs themselves. */
module UserDialogState {
  import opened Results

  datatype State<D> = State(dialogByUserId: map<int, D>)

  /** `NewUserDialogState`: nobody is in any dialog. */
  function NewUserDialogState<D>(): (s: State<D>)
    ensures forall u :: FindDialogByUser(s, u).None?
  {
    State(map[])
  }

  /** `FindDialogByUser`: the user's dialog, or nothing (Go's nil). */
  function FindDialogByUser<D>(s: State<D>, userId: int): (r: Option<D>)
    ensures r.Some? <==> userId in s.dialogByUserId
  {
    if userId in s.dialogByUserId then Some(s.dialogByUserId[userId]) else None
  }

  /** `SetDialogForUser`: the user now finds `d`, whatever they had
      before, and every other user finds what they found before. */
  function SetDialogForUser<D>(s: State<D>, userId: int, d: D): (r: State<D>)
    ensures FindDialogByUser(r, userId) == Some(d)
    ensures forall v :: v != userId ==> FindDialogByUser(r, v) == FindDialogByUser(s, v)
    ensures r.dialogByUserId.Keys == s.dialogByUserId.Keys + {userId}
  {
    State(s.dialogByUserId[userId := d])
  }

  /** A later `SetDialogForUser` for the same user wins outright: the
      earlier dialog leaves no trace. */
  lemma SetOverwrites<D>(s: State<D>, userId: int, d1: D, d2: D)
    ensures SetDialogForUser(SetDialogForUser(s, userId, d1), userId, d2) == SetDialogForUser(s, userId, d2)
  {
    assert SetDialogForUser(SetDialogForUser(s, userId, d1), userId, d2).dialogByUserId
        == SetDialogForUser(s, userId, d2).dialogByUserId;
  }

  /** Setting two different users commutes. */
  lemma SetsForDifferentUsersCommute<D>(s: State<D>, u: int, v: int, du: D, dv: D)
    requires u != v
    ensures SetDialogForUser(SetDialogForUser(s, u, du), v, dv) == SetDialogForUser(SetDialogForUser(s, v, dv), u, du)
  {
    assert SetDialogForUser(SetDialogForUser(s, u, du), v, dv).dialogByUserId
        == SetDialogForUser(SetDialogForUser(s, v, dv), u, du).dialogByUserId;
  }
}
