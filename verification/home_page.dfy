/**
 * The landing page form: the raw input (not trimmed) is checked against the
 * product pattern and, when it matches, the browser is sent to the visualizer
 * with the URL, percent-encoded, as its `url` query parameter.
 */
module HomePage {
  import opened Wrappers
  import opened Text
  import opened ProductUrl
  import UriComponent
  import AddStickerForm

  /** What submitting the form does: navigate, or show an error and stay. */
  datatype Outcome = Navigate(path: string) | Rejected(error: string)

  const VisualizerPrefix: string := "/visualizer?url="
  const InvalidUrlMessage: string := "The url is not valid"

  function Submit(url: string): (r: Outcome)
    ensures r.Navigate? <==> ValidateUrl(url)
    ensures r.Rejected? ==> r.error == InvalidUrlMessage
    ensures r.Navigate? ==> IsPrefix(VisualizerPrefix, r.path)
  {
    if !ValidateUrl(url) then Rejected(InvalidUrlMessage)
    else Navigate(VisualizerPrefix + UriComponent.Encode(url))
  }

  /** Navigation happens exactly for matching URLs, and the parameter decodes back to the URL typed. */
  lemma NavigationCarriesUrl(url: string)
    ensures Submit(url).Navigate? <==> Matches(url)
    ensures Submit(url).Navigate? ==>
              UriComponent.Decode(Submit(url).path[|VisualizerPrefix|..]) == Some(url)
  {
    ValidateIsMatch(url);
    if Submit(url).Navigate? {
      assert Submit(url).path[|VisualizerPrefix|..] == UriComponent.Encode(url);
      UriComponent.DecodeEncode(url);
    }
  }

  /**
   * The encoded parameter holds no `&`, `=`, `?` or `#`, so it cannot end early
   * or spill into another parameter, and no `+` that would read back as a space.
   */
  lemma ParameterStaysWhole(url: string, i: int)
    requires Submit(url).Navigate? && |VisualizerPrefix| <= i < |Submit(url).path|
    ensures Submit(url).path[i] !in {'&', '=', '?', '#', '+', '/', ' '}
  {
    var e := UriComponent.Encode(url);
    assert Submit(url).path[i] == e[i - |VisualizerPrefix|];
    UriComponent.SeparatorsEscaped(url, i - |VisualizerPrefix|);
  }

  /** The landing page does not trim: a URL typed with a leading space is refused. */
  lemma LeadingSpaceRejected(url: string)
    requires url != [] && IsJsSpace(url[0])
    ensures Submit(url) == Rejected(InvalidUrlMessage)
  {
    PaddedUrlRejected(url);
    ValidateIsMatch(url);
  }

  /**
   * The two forms disagree on padding: a matching URL typed after a space is
   * looked up by the visualizer's form but refused by the landing page.
   */
  lemma FormsDisagreeOnPadding(u: string, lookup: string -> Result<AddStickerForm.StickerData, Thrown>, freshId: string)
    requires Matches(u) && !IsJsSpace(u[|u| - 1])
    ensures AddStickerForm.Submit(" " + u, lookup, freshId).requested == Some(u)
    ensures Submit(" " + u).Rejected?
  {
    assert " " + u + "" == " " + u;
    AddStickerForm.PaddingTolerated(" ", u, "", lookup, freshId);
    LeadingSpaceRejected(" " + u);
  }
}
