/**
 * The "add sticker" form of the visualizer: the input is trimmed, checked
 * against the product pattern, looked up through the sticker-data endpoint
 * and, on success, handed to the visualizer as a new sticker with a fresh id.
 * The lookup and the id generator are parameters.
 */
module AddStickerForm {
  import opened Wrappers
  import opened Text
  import opened Geometry
  import opened Arrangement
  import opened ProductUrl

  /** What the sticker-data endpoint returns for a product URL. */
  datatype StickerData = StickerData(productImage: string, size: Size)

  /** The text field and the error line. */
  datatype FormState = FormState(input: string, error: string)

  /**
   * One submission: the URL sent to the lookup (if any), the sticker handed
   * to the visualizer (if any), and the form afterwards.
   */
  datatype Submission = Submission(requested: Option<string>, added: Option<Sticker>, form: FormState)

  const InvalidUrlMessage: string := "The URL is not valid"
  const LookupFailedMessage: string := "Failed to load sticker data"

  /** The submit button is enabled when nothing is loading and the input is not blank. */
  predicate SubmitEnabled(input: string, loading: bool) {
    !loading && Trim(input, IsJsSpace) != []
  }

  /**
   * A submission of `input`: `lookup` is what the endpoint answers for a URL
   * and `freshId` the id the generator hands out.
   */
  function Submit(input: string, lookup: string -> Result<StickerData, Thrown>, freshId: string): (r: Submission)
    ensures var cleaned := Trim(input, IsJsSpace);
            r.requested == if ValidateUrl(cleaned) then Some(cleaned) else None
    ensures r.requested.None? ==> r.added.None? && r.form == FormState(input, InvalidUrlMessage)
    ensures r.requested.Some? && lookup(r.requested.value).Ok? ==>
              var data := lookup(r.requested.value).value;
              && r.added == Some(Sticker(freshId, data.productImage, data.size))
              && r.form == FormState("", "")
    ensures r.requested.Some? && lookup(r.requested.value).Err? ==>
              && r.added.None?
              && r.form == FormState(input, lookup(r.requested.value).error.MessageOr(LookupFailedMessage))
  {
    var cleaned := Trim(input, IsJsSpace);
    if !ValidateUrl(cleaned) then Submission(None, None, FormState(input, InvalidUrlMessage))
    else
      match lookup(cleaned)
      case Ok(data) => Submission(Some(cleaned), Some(Sticker(freshId, data.productImage, data.size)), FormState("", ""))
      case Err(e) => Submission(Some(cleaned), None, FormState(input, e.MessageOr(LookupFailedMessage)))
  }

  /** The visualizer's side: the handed-over sticker, if any, is appended on top. */
  function Apply(st: Store, sub: Submission): (r: Store)
    ensures sub.added.None? ==> r == st
    ensures sub.added.Some? ==> r == Add(st, sub.added.value)
  {
    match sub.added
    case None => st
    case Some(s) => Add(st, s)
  }

  /**
   * Whitespace around a matching URL is tolerated: the lookup is asked for
   * the URL itself. (A URL whose query ends in a space loses that space.)
   */
  lemma PaddingTolerated(x: string, u: string, y: string, lookup: string -> Result<StickerData, Thrown>, freshId: string)
    requires All(x, IsJsSpace) && All(y, IsJsSpace)
    requires Matches(u) && !IsJsSpace(u[|u| - 1])
    ensures Submit(x + u + y, lookup, freshId).requested == Some(u)
  {
    assert u != [];
    PaddedUrlRejected(u);
    TrimPadded(x, u, y, IsJsSpace);
    ValidateIsMatch(u);
  }

  /**
   * A submission adds at most one sticker, and exactly one when the trimmed
   * input matches and the lookup succeeds; the position map never changes.
   */
  lemma SubmitAddsAtMostOne(st: Store, input: string, lookup: string -> Result<StickerData, Thrown>, freshId: string)
    ensures var cleaned, r := Trim(input, IsJsSpace), Apply(st, Submit(input, lookup, freshId));
            && r.positions == st.positions
            && r.stickers[..|st.stickers|] == st.stickers
            && (|r.stickers| == |st.stickers| + 1 <==> Matches(cleaned) && lookup(cleaned).Ok?)
            && (|r.stickers| == |st.stickers| <==> !(Matches(cleaned) && lookup(cleaned).Ok?))
  {
    ValidateIsMatch(Trim(input, IsJsSpace));
  }

  /** A fresh id keeps the sticker ids unique. */
  lemma FreshIdKeepsIdsUnique(st: Store, input: string, lookup: string -> Result<StickerData, Thrown>, freshId: string)
    requires UniqueIds(st.stickers) && !HasId(st.stickers, freshId)
    ensures UniqueIds(Apply(st, Submit(input, lookup, freshId)).stickers)
  {
    var sub := Submit(input, lookup, freshId);
    if sub.added.Some? {
      AddKeepsUniqueIds(st, sub.added.value);
    }
  }
}
