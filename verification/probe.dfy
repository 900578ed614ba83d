/**
 * The stand-alone probe program: the same size reader with the raw size text
 * printed first, and a run over one product URL that prints the image URL,
 * the product type and the size, or the first error. Printing is modelled
 * as the list of lines produced.
 */
module Probe {
  import opened Wrappers
  import opened Html
  import opened ProductPage

  /** One printed line: a value, an `Error:` line, or the `Width: … Height: …` line. */
  datatype Line = Out(text: string) | ErrorLine(message: string) | SizeLine(width: real, height: real)

  /** The lines printed, and whether the run ended in a panic. */
  datatype Run = Run(lines: seq<Line>, panicked: bool)

  /** The probe's copy of the size reader; it also returns what it printed. */
  function ProbeGetSize(preview: Node, parseFloat: string -> Result<real, string>): (r: (Measured, seq<string>))
    ensures r.0 == GetSize(preview, parseFloat)
    ensures r.1 == if SizeText(preview).Ok? then [SizeText(preview).value] else []
  {
    match Traverse(preview, SizePath)
    case Err(e) => (Measured(0.0, 0.0, Some(e)), [])
    case Ok(sizeNode) =>
      match GetTextContent(sizeNode)
      case Err(e) => (Measured(0.0, 0.0, Some(e)), [])
      case Ok(text) =>
        var parts := Fields(text, Times);
        if |parts| != 2 then (Measured(0.0, 0.0, Some(UnexpectedFormatPrefix + text)), [text])
        else
          var w, h := parseFloat(Clean(parts[0])), parseFloat(Clean(parts[1]));
          if w.Err? || h.Err? then (Measured(0.0, 0.0, Some(InvalidSizeMessage(w, h))), [text])
          else (Measured(w.value, h.value, None), [text])
  }

  /** The lines printed after the image and the type were read: the size text, if any, then the size or the error. */
  function SizeReport(m: Measured, printed: seq<string>): (r: seq<Line>)
    requires |printed| <= 1
    ensures r != [] && forall i :: 0 <= i < |r| - 1 ==> r[i].Out?
    ensures r[|r| - 1] == if m.err.Some? then ErrorLine(m.err.value) else SizeLine(m.width, m.height)
  {
    var last := if m.err.Some? then ErrorLine(m.err.value) else SizeLine(m.width, m.height);
    if printed == [] then [last] else [Out(printed[0]), last]
  }

  /** The lines printed from the image URL, the product type and the probed size, stopping at the first error. */
  function Report(img: Result<string, string>, productType: Result<string, string>, probed: (Measured, seq<string>)): (r: seq<Line>)
    requires |probed.1| <= 1
    ensures r != []
    ensures forall i :: 0 <= i < |r| - 1 ==> r[i].Out?
    ensures r[|r| - 1].SizeLine? <==> img.Ok? && productType.Ok? && probed.0.err.None?
    ensures img.Ok? ==> 2 <= |r| && r[0] == Out(img.value)
    ensures img.Ok? && productType.Ok? ==> r[1] == Out(productType.value)
    ensures img.Ok? && productType.Ok? ==>
              r[|r| - 1] == if probed.0.err.Some? then ErrorLine(probed.0.err.value) else SizeLine(probed.0.width, probed.0.height)
  {
    match img
    case Err(e) => [ErrorLine(e)]
    case Ok(u) =>
      match productType
      case Err(e) => [Out(u), ErrorLine(e)]
      case Ok(t) =>
        var tail := SizeReport(probed.0, probed.1);
        var r := [Out(u), Out(t)] + tail;
        assert forall i :: 2 <= i < |r| ==> r[i] == tail[i - 2];
        r
  }

  /** The lines of the run once the preview section is found: image, type, size text, size. */
  function FromPreview(p: Node, parseFloat: string -> Result<real, string>): (r: seq<Line>)
    ensures r != []
    ensures forall i :: 0 <= i < |r| - 1 ==> r[i].Out?
    ensures r[|r| - 1].SizeLine? <==>
              GetImgUrl(p).Ok? && GetProductType(p).Ok? && GetSize(p, parseFloat).err.None?
  {
    Report(GetImgUrl(p), GetProductType(p), ProbeGetSize(p, parseFloat))
  }

  /** The whole run for one URL: fetch, read, parse, locate the preview, then report. */
  function Probe(url: string, get: string -> Result<HttpResponse, string>,
                 parse: string -> Result<Node, string>, parseFloat: string -> Result<real, string>): (r: Run)
    ensures r.panicked ==> r.lines == []
    ensures !r.panicked ==> r.lines != [] && forall i :: 0 <= i < |r.lines| - 1 ==> !r.lines[i].ErrorLine?
    ensures r.panicked <==> get(url).Ok? && get(url).value.body.Ok? && parse(get(url).value.body.value).Ok?
                            && |parse(get(url).value.body.value).value.children| < 2
  {
    match get(url)
    case Err(e) => Run([ErrorLine(e)], false)
    case Ok(resp) =>
      match resp.body
      case Err(e) => Run([ErrorLine(e)], false)
      case Ok(b) =>
        match parse(b)
        case Err(e) => Run([ErrorLine(e)], false)
        case Ok(doc) =>
          match PreviewAsWritten(doc)
          case Err(f) => if f.Panic? then Run([], true) else Run([ErrorLine(f.message)], false)
          case Ok(p) => Run(FromPreview(p, parseFloat), false)
  }

  /** The status code is never looked at. */
  lemma StatusIgnored(url: string, get: string -> Result<HttpResponse, string>, get2: string -> Result<HttpResponse, string>,
                      parse: string -> Result<Node, string>, parseFloat: string -> Result<real, string>)
    requires get(url).Ok? && get2(url).Ok? && get(url).value.body == get2(url).value.body
    ensures Probe(url, get, parse, parseFloat) == Probe(url, get2, parse, parseFloat)
  {
  }

  /** The image is read before the type: when both fail, the service and the probe report different steps. */
  lemma ImageCheckedBeforeType(p: Node, parseFloat: string -> Result<real, string>)
    requires GetImgUrl(p).Err? && GetProductType(p).Err?
    ensures FromPreview(p, parseFloat) == [ErrorLine(GetImgUrl(p).error)]
    ensures ProductPage.FromPreview(Ok(p), parseFloat) == Err(Error(GetProductType(p).error))
  {
  }

  /** No sticker filter: a readable page of another product is printed in full, while the service refuses it. */
  lemma NoStickerFilter(p: Node, parseFloat: string -> Result<real, string>)
    requires GetImgUrl(p).Ok? && GetProductType(p).Ok? && !IsSticker(GetProductType(p).value)
    requires GetSize(p, parseFloat).err.None?
    ensures var lines := FromPreview(p, parseFloat);
            && lines[1] == Out(GetProductType(p).value)
            && lines[|lines| - 1] == SizeLine(GetSize(p, parseFloat).width, GetSize(p, parseFloat).height)
    ensures ProductPage.FromPreview(Ok(p), parseFloat) == Err(Error(NotASticker))
  {
    assert ProbeGetSize(p, parseFloat).0 == GetSize(p, parseFloat);
    CheckOrder(p, parseFloat);
  }

  /** When the service succeeds on a page, the probe prints the same image and the same size. */
  lemma AgreesWithServiceOnSuccess(p: Node, parseFloat: string -> Result<real, string>)
    requires ProductPage.FromPreview(Ok(p), parseFloat).Ok?
    ensures var lines, v := FromPreview(p, parseFloat), ProductPage.FromPreview(Ok(p), parseFloat).value;
            && lines[0] == Out(v.productImage)
            && lines[|lines| - 1] == SizeLine(v.size.width, v.size.height)
  {
    assert ProbeGetSize(p, parseFloat).0 == GetSize(p, parseFloat);
  }
}
