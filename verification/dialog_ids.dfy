/** `app.DialogID` of `internal/app/dialog.go`: the numbered dialogs and
    their validation against the registry of known ids. */
module DialogIds {
  import opened Results
  import opened Decimal

  const Main: int := 0
  const YoutubeDownload: int := 1

  /** The key set of `allDialogIDs`. */
  const AllDialogIds: set<int> := {Main, YoutubeDownload}

  const UnknownIdSuffix: string := " is unknown dialog id"

  /** `Validate`: no error for a registered id, otherwise an error naming
      the id in decimal. */
  function Validate(id: int): (r: Option<string>)
    ensures r.None? <==> id in AllDialogIds
    ensures r.None? <==> 0 <= id < 2
    ensures r.Some? ==> r.value == IntToDecimal(id) + UnknownIdSuffix
  {
    if id in AllDialogIds then None else Some(IntToDecimal(id) + UnknownIdSuffix)
  }

  /** The id can be read back from the error text. */
  lemma UnknownIdReadBack(id: int)
    requires MinInt64 <= id <= MaxInt64 && !(0 <= id < 2)
    ensures var text := Validate(id).value;
            |text| > |UnknownIdSuffix| && GoParseInt(text[..|text| - |UnknownIdSuffix|]) == id
  {
    var text := Validate(id).value;
    assert text[..|text| - |UnknownIdSuffix|] == IntToDecimal(id);
    ParseIntRoundTrip(id);
  }
}
