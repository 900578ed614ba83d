/**
 * The server's product-page extraction: locate the product preview section of
 * a parsed page, read the product type, the image URL and the size text, and
 * turn the size text into two numbers. Fetching the page, parsing HTML and
 * parsing floating-point numbers are parameters.
 */
module ProductPage {
  import opened Wrappers
  import opened Text
  import opened Html
  import opened Models

  /** Why extraction stopped: an error value, a nil-pointer panic, or (corrected fetch only) a non-200 status. */
  datatype Failure = Error(message: string) | Panic | BadStatus(code: int)

  /** Width, height and error, as the size reader returns them. */
  datatype Measured = Measured(width: real, height: real, err: Option<string>)

  /** The reply to the page request: status code and the body, or the error reading it. */
  datatype HttpResponse = HttpResponse(status: int, body: Result<string, string>)

  const PreviewPath: seq<Step> := [
    Step("body", "", ""),
    Step("div", "id", "__next"),
    Step("div", "class", "layout"),
    Step("div", "class", "main"),
    Step("main", "", ""),
    Step("section", "data-testid", "StoreItemProductPreviewHero")]

  const ImagePath: seq<Step> := [
    Step("div", "class", "wrapper"),
    Step("div", "class", "preview"),
    Step("div", "class", "artwork"),
    Step("img", "", "")]

  const TypePath: seq<Step> := [
    Step("div", "class", "wrapper"),
    Step("div", "class", "rightColumnContent"),
    Step("div", "class", "subheading"),
    Step("div", "class", "textContent")]

  const SizePath: seq<Step> := [
    Step("div", "class", "wrapper"),
    Step("div", "class", "rightColumnContent"),
    Step("div", "class", "buyingOptions"),
    Step("div", "data-testid", "StoreItemBuyingOptions"),
    Step("div", "data-testid", "profileReorderProductSizeText"),
    Step("div", "class", "sizeHelpContainer"),
    Step("p", "class", "regular")]

  /** The multiplication sign between width and height. */
  const Times: char := '\U{D7}'

  const UnexpectedFormatPrefix: string := "unexpected size format: "
  const NotASticker: string := "product is not a sticker"
  const NilError: string := "<nil>"

  const OkStatus: int := 200

  // ---------------------------------------------------------------------------
  // Splitting the size text

  function IsNot(sep: char): char -> bool {
    c => c != sep
  }

  /**
   * Go's strings.FieldsFunc with "is `sep`" as the predicate: the maximal runs
   * of non-`sep` characters, in order; runs of separators collapse and no
   * empty field is produced.
   */
  function Fields(s: string, sep: char): (r: seq<string>)
    ensures forall i :: 0 <= i < |r| ==> r[i] != [] && sep !in r[i]
    decreases |s|
  {
    if s == [] then []
    else if s[0] == sep then Fields(s[1..], sep)
    else
      var k := Span(s, IsNot(sep));
      assert IsNot(sep)(s[0]);
      assert 0 < k;
      assert forall j :: 0 <= j < k ==> s[..k][j] != sep;
      [s[..k]] + Fields(s[k..], sep)
  }

  /** `s` with every `sep` removed. */
  function Without(s: string, sep: char): (r: string)
    ensures sep !in r
    decreases |s|
  {
    if s == [] then [] else (if s[0] == sep then [] else [s[0]]) + Without(s[1..], sep)
  }

  function Concat(fs: seq<string>): string
    decreases |fs|
  {
    if fs == [] then [] else fs[0] + Concat(fs[1..])
  }

  /** The fields joined with a single separator between neighbours. */
  function Join(fs: seq<string>, sep: char): string
    decreases |fs|
  {
    if fs == [] then [] else if |fs| == 1 then fs[0] else fs[0] + [sep] + Join(fs[1..], sep)
  }

  lemma {:induction false} WithoutAppend(a: string, b: string, sep: char)
    ensures Without(a + b, sep) == Without(a, sep) + Without(b, sep)
    decreases |a|
  {
    if a == [] {
      assert a + b == b;
    } else {
      assert (a + b)[0] == a[0] && (a + b)[1..] == a[1..] + b;
      WithoutAppend(a[1..], b, sep);
    }
  }

  lemma {:induction false} WithoutNoSep(a: string, sep: char)
    requires sep !in a
    ensures Without(a, sep) == a
    decreases |a|
  {
    if a != [] {
      assert a[0] != sep && sep !in a[1..];
      WithoutNoSep(a[1..], sep);
      assert a == [a[0]] + a[1..];
    }
  }

  /** The fields hold every character of `s` except the separators, in order. */
  lemma {:induction false} FieldsKeepEverythingElse(s: string, sep: char)
    ensures Concat(Fields(s, sep)) == Without(s, sep)
    decreases |s|
  {
    if s == [] {
    } else if s[0] == sep {
      FieldsKeepEverythingElse(s[1..], sep);
    } else {
      var k := Span(s, IsNot(sep));
      assert IsNot(sep)(s[0]);
      assert forall j :: 0 <= j < k ==> s[..k][j] != sep;
      FieldsKeepEverythingElse(s[k..], sep);
      assert s == s[..k] + s[k..];
      WithoutAppend(s[..k], s[k..], sep);
      WithoutNoSep(s[..k], sep);
      assert Fields(s, sep) == [s[..k]] + Fields(s[k..], sep);
      assert ([s[..k]] + Fields(s[k..], sep))[1..] == Fields(s[k..], sep);
    }
  }

  /** Leading separators are skipped. */
  lemma {:induction false} LeadingSeparatorsIgnored(r: string, s: string, sep: char)
    requires forall i :: 0 <= i < |r| ==> r[i] == sep
    ensures Fields(r + s, sep) == Fields(s, sep)
    decreases |r|
  {
    if r == [] {
      assert r + s == s;
    } else {
      assert (r + s)[0] == sep && (r + s)[1..] == r[1..] + s;
      LeadingSeparatorsIgnored(r[1..], s, sep);
    }
  }

  /** Non-empty fields free of the separator, joined by it, split back into themselves. */
  lemma {:induction false} FieldsOfJoin(fs: seq<string>, sep: char)
    requires forall i :: 0 <= i < |fs| ==> fs[i] != [] && sep !in fs[i]
    ensures Fields(Join(fs, sep), sep) == fs
    decreases |fs|
  {
    if fs == [] {
    } else {
      var f := fs[0];
      assert All(f, IsNot(sep));
      if |fs| == 1 {
        SpanExact(f, [], IsNot(sep));
        assert f + [] == f;
        assert f[..|f|] == f && f[|f|..] == [];
      } else {
        var rest := Join(fs[1..], sep);
        var s := f + [sep] + rest;
        assert s == f + ([sep] + rest);
        SpanExact(f, [sep] + rest, IsNot(sep));
        assert s[..|f|] == f && s[|f|..] == [sep] + rest;
        assert s[0] == f[0];
        assert ([sep] + rest)[1..] == rest;
        FieldsOfJoin(fs[1..], sep);
        assert Fields(s, sep) == [f] + Fields([sep] + rest, sep);
      }
    }
  }

  /** A run of `n` separators. */
  function Run(sep: char, n: nat): (r: string)
    ensures |r| == n && forall i :: 0 <= i < n ==> r[i] == sep
  {
    seq(n, _ => sep)
  }

  /**
   * The fields, each followed by its own run of separators: `gaps[i]`
   * separators after `fs[i]`.
   */
  function Spaced(fs: seq<string>, gaps: seq<nat>, sep: char): string
    requires |gaps| == |fs|
    decreases |fs|
  {
    if fs == [] then [] else fs[0] + (Run(sep, gaps[0]) + Spaced(fs[1..], gaps[1..], sep))
  }

  /**
   * Runs of separators collapse: non-empty separator-free fields, each
   * followed by a run of separators (at least one between two fields, any
   * number after the last), split back into those fields.
   */
  lemma {:induction false} FieldsOfSpaced(fs: seq<string>, gaps: seq<nat>, sep: char)
    requires |gaps| == |fs|
    requires forall i :: 0 <= i < |fs| ==> fs[i] != [] && sep !in fs[i]
    requires forall i :: 0 <= i < |fs| - 1 ==> 0 < gaps[i]
    ensures Fields(Spaced(fs, gaps, sep), sep) == fs
    decreases |fs|
  {
    if fs != [] {
      var f, run := fs[0], Run(sep, gaps[0]);
      var rest := Spaced(fs[1..], gaps[1..], sep);
      var tail := run + rest;
      var s := f + tail;
      assert All(f, IsNot(sep));
      assert tail == [] || tail[0] == sep by {
        if run == [] {
          assert |fs| == 1 && rest == [];
        }
      }
      SpanExact(f, tail, IsNot(sep));
      assert s[..|f|] == f && s[|f|..] == tail;
      assert s[0] == f[0];
      FieldsOfSpaced(fs[1..], gaps[1..], sep);
      LeadingSeparatorsIgnored(run, rest, sep);
      assert Fields(s, sep) == [f] + Fields(tail, sep);
    }
  }

  /** TrimSuffix("in") first, then TrimSpace: the unit goes only when it ends the field. */
  function Clean(s: string): string {
    Trim(TrimSuffix(s, "in"), IsGoSpace)
  }

  /** A field ending in the unit loses it, and then its surrounding space. */
  lemma CleanDropsUnit(x: string)
    ensures Clean(x + "in") == Trim(x, IsGoSpace)
  {
    assert IsSuffix("in", x + "in");
    assert (x + "in")[..|x|] == x;
  }

  /**
   * A field with space after the unit keeps the unit: the suffix test comes
   * before the trim, so "3 in " is read as "3 in" and not as "3".
   */
  lemma CleanKeepsUnitBeforeSpace(x: string, y: string)
    requires y != [] && IsGoSpace(y[|y| - 1])
    ensures Clean(x + "in" + y) == Trim(x + "in" + y, IsGoSpace)
  {
    var s := x + "in" + y;
    assert s[|s| - 1] == y[|y| - 1];
    assert !IsSuffix("in", s);
  }

  // ---------------------------------------------------------------------------
  // Reading the size

  /** `%v` of an error value: its text, or `<nil>` when there is none. */
  function ErrorText(r: Result<real, string>): string {
    if r.Ok? then NilError else r.error
  }

  function InvalidSizeMessage(w: Result<real, string>, h: Result<real, string>): string {
    "invalid size: width error: " + ErrorText(w) + ", height error: " + ErrorText(h)
  }

  /** The text of the size paragraph under the preview. */
  function SizeText(preview: Node): Result<string, string> {
    match Traverse(preview, SizePath)
    case Err(e) => Err(e)
    case Ok(p) => GetTextContent(p)
  }

  /** The size text split on the multiplication sign into exactly two cleaned numbers. */
  function SizeFromText(text: string, parseFloat: string -> Result<real, string>): (r: Measured)
    ensures r.err.Some? ==> r.width == 0.0 && r.height == 0.0
    ensures |Fields(text, Times)| != 2 ==> r.err == Some(UnexpectedFormatPrefix + text)
    ensures |Fields(text, Times)| == 2 ==>
              var w, h := parseFloat(Clean(Fields(text, Times)[0])), parseFloat(Clean(Fields(text, Times)[1]));
              && (r.err.None? <==> w.Ok? && h.Ok?)
              && (r.err.None? ==> r.width == w.value && r.height == h.value)
              && (r.err.Some? ==> r.err.value == InvalidSizeMessage(w, h))
  {
    var parts := Fields(text, Times);
    if |parts| != 2 then Measured(0.0, 0.0, Some(UnexpectedFormatPrefix + text))
    else
      var w, h := parseFloat(Clean(parts[0])), parseFloat(Clean(parts[1]));
      if w.Err? || h.Err? then Measured(0.0, 0.0, Some(InvalidSizeMessage(w, h)))
      else Measured(w.value, h.value, None)
  }

  /** Width and height of the product, read from the size paragraph. */
  function GetSize(preview: Node, parseFloat: string -> Result<real, string>): (r: Measured)
    ensures r.err.Some? ==> r.width == 0.0 && r.height == 0.0
    ensures SizeText(preview).Err? ==> r.err == Some(SizeText(preview).error)
    ensures SizeText(preview).Ok? ==> r == SizeFromText(SizeText(preview).value, parseFloat)
  {
    match SizeText(preview)
    case Err(e) => Measured(0.0, 0.0, Some(e))
    case Ok(t) => SizeFromText(t, parseFloat)
  }

  /**
   * A width and a height, each free of the sign, with the sign between them
   * are read as the two parsed numbers, or zero and an error naming both parse results.
   */
  lemma ReadsBothSides(a: string, b: string, parseFloat: string -> Result<real, string>)
    requires a != [] && b != [] && Times !in a && Times !in b
    ensures var r, w, h := SizeFromText(a + [Times] + b, parseFloat), parseFloat(Clean(a)), parseFloat(Clean(b));
            && (w.Ok? && h.Ok? ==> r == Measured(w.value, h.value, None))
            && (w.Err? || h.Err? ==> r == Measured(0.0, 0.0, Some(InvalidSizeMessage(w, h))))
  {
    assert Join([a, b], Times) == a + [Times] + b by {
      assert [a, b][1..] == [b];
    }
    FieldsOfJoin([a, b], Times);
  }

  /** A text with no sign, or with a sign on only one side of a number, is not a size. */
  lemma OneFieldIsUnexpected(a: string, parseFloat: string -> Result<real, string>)
    requires a != [] && Times !in a
    ensures SizeFromText(a + [Times], parseFloat).err == Some(UnexpectedFormatPrefix + a + [Times])
    ensures SizeFromText(a, parseFloat).err == Some(UnexpectedFormatPrefix + a)
  {
    FieldsOfJoin([a], Times);
    assert Join([a], Times) == a;
    SpanExact(a, [Times], IsNot(Times));
    assert All(a, IsNot(Times));
    var s := a + [Times];
    assert s[0] == a[0] && s[..|a|] == a && s[|a|..] == [Times];
    assert Fields([Times], Times) == Fields([], Times);
    assert Fields(s, Times) == [a];
    assert UnexpectedFormatPrefix + a + [Times] == UnexpectedFormatPrefix + s;
  }

  // ---------------------------------------------------------------------------
  // Type and image

  /**
   * The product type text under the preview: the text of the first text
   * child of the element the type path reaches. A missing step gives "node
   * not found", an element without text "text not found".
   */
  function GetProductType(preview: Node): (r: Result<string, string>)
    ensures Traverse(preview, TypePath).Err? ==> r == Err(NodeNotFound)
    ensures Traverse(preview, TypePath).Ok? ==>
              var n := Traverse(preview, TypePath).value;
              && n.kind == ElementNode && n.data == "div"
              && (r.Err? <==> forall i :: 0 <= i < |n.children| ==> n.children[i].kind != TextNode)
              && (r.Err? ==> r.error == TextNotFound)
              && (r.Ok? ==> exists k :: 0 <= k < |n.children| && n.children[k].kind == TextNode && n.children[k].data == r.value
                                  && forall i :: 0 <= i < k ==> n.children[i].kind != TextNode)
  {
    match Traverse(preview, TypePath)
    case Err(e) => Err(e)
    case Ok(n) => GetTextContent(n)
  }

  /**
   * The `src` of the preview image: the first `src` attribute of the `img`
   * element the image path reaches. A missing step gives "node not found",
   * an image without `src` "attribute not found".
   */
  function GetImgUrl(preview: Node): (r: Result<string, string>)
    ensures Traverse(preview, ImagePath).Err? ==> r == Err(NodeNotFound)
    ensures Traverse(preview, ImagePath).Ok? ==>
              var n := Traverse(preview, ImagePath).value;
              && n.kind == ElementNode && n.data == "img"
              && (r.Err? <==> forall i :: 0 <= i < |n.attrs| ==> n.attrs[i].key != "src")
              && (r.Err? ==> r.error == AttributeNotFound)
              && (r.Ok? ==> exists k :: 0 <= k < |n.attrs| && n.attrs[k] == Attribute("src", r.value)
                                  && forall i :: 0 <= i < k ==> n.attrs[i].key != "src")
  {
    match Traverse(preview, ImagePath)
    case Err(e) => Err(e)
    case Ok(n) => GetAttr(n, "src")
  }

  /** "sticker" occurs in the type once ASCII letters are lower-cased. */
  predicate IsSticker(productType: string) {
    Contains(AsciiLower(productType), "sticker")
  }

  /** Any casing of "sticker" anywhere in the type makes it a sticker. */
  lemma StickerAnyCase(x: string, w: string, y: string)
    requires AsciiLower(w) == "sticker"
    ensures IsSticker(x + w + y)
  {
    var s := x + w + y;
    var l := AsciiLower(s);
    assert l[|x|..|x| + 7] == AsciiLower(w);
    ContainsAt(l, "sticker", |x|);
  }

  lemma StickerExamples()
    ensures IsSticker("Die Cut Stickers")
    ensures IsSticker("STICKER")
    ensures !IsSticker("Magnet")
  {
    assert AsciiLower("Sticker") == "sticker";
    StickerAnyCase("Die Cut ", "Sticker", "s");
    assert "Die Cut " + "Sticker" + "s" == "Die Cut Stickers";
    assert AsciiLower("STICKER") == "sticker";
    StickerAnyCase("", "STICKER", "");
    assert "" + "STICKER" + "" == "STICKER";
    if IsSticker("Magnet") {
      var k := ContainsWitness(AsciiLower("Magnet"), "sticker");
    }
  }

  // ---------------------------------------------------------------------------
  // Extraction

  /**
   * The preview section as the code finds it: the document's second child is
   * taken to be the `html` element; a document with fewer children makes the
   * nil-pointer dereference panic.
   */
  function PreviewAsWritten(doc: Node): (r: Result<Node, Failure>)
    ensures r == Err(Panic) <==> |doc.children| < 2
    ensures r.Ok? ==> Traverse(doc.children[1], PreviewPath) == Ok(r.value)
    ensures r.Err? && r != Err(Panic) ==> r == Err(Error(NodeNotFound))
  {
    if |doc.children| < 2 then Err(Panic)
    else
      match Traverse(doc.children[1], PreviewPath)
      case Err(e) => Err(Error(e))
      case Ok(p) => Ok(p)
  }

  /** The preview section searched from the document's first `html` element child. */
  function Preview(doc: Node): (r: Result<Node, Failure>)
    ensures r != Err(Panic)
    ensures r.Ok? ==> Traverse(doc, [Step("html", "", "")] + PreviewPath) == Ok(r.value)
  {
    TraverseAppend(doc, [Step("html", "", "")], PreviewPath);
    TraverseOne(doc, Step("html", "", ""));
    match Traverse(doc, [Step("html", "", "")] + PreviewPath)
    case Err(e) => Err(Error(e))
    case Ok(p) => Ok(p)
  }

  /** Where the two agree: a document whose children are a doctype and then the `html` element. */
  lemma PreviewAgreesWithDoctype(doc: Node)
    requires |doc.children| == 2 && doc.children[0].kind == DoctypeNode
    requires doc.children[1].kind == ElementNode && doc.children[1].data == "html"
    ensures Preview(doc) == PreviewAsWritten(doc)
  {
    var h := Step("html", "", "");
    assert !StepMatches(doc.children[0], h) && StepMatches(doc.children[1], h);
    assert BFS(doc, h) == Ok(doc.children[1]);
    TraverseAppend(doc, [h], PreviewPath);
    TraverseOne(doc, h);
  }

  /** The page without a doctype: its document has the `html` element as only child. */
  lemma NoDoctypePanics(doc: Node)
    requires doc.children == [Node(ElementNode, "html", [], [])]
    ensures PreviewAsWritten(doc) == Err(Panic)
    ensures Preview(doc) == Err(Error(NodeNotFound))
  {
    var h := Step("html", "", "");
    assert StepMatches(doc.children[0], h);
    assert BFS(doc, h) == Ok(doc.children[0]);
    TraverseAppend(doc, [h], PreviewPath);
    TraverseOne(doc, h);
    assert PreviewPath[0] == Step("body", "", "");
    assert Traverse(doc.children[0], PreviewPath).Err?;
  }

  /** Type, sticker check, image and size, in that order, from a located preview section. */
  function FromPreview(preview: Result<Node, Failure>, parseFloat: string -> Result<real, string>): (r: Result<StickerDataResponse, Failure>)
    ensures preview.Err? ==> r == Err(preview.error)
    ensures preview.Ok? && r.Err? ==> r.error.Error?
    ensures r.Ok? <==>
              && preview.Ok?
              && GetProductType(preview.value).Ok? && IsSticker(GetProductType(preview.value).value)
              && GetImgUrl(preview.value).Ok? && GetSize(preview.value, parseFloat).err.None?
    ensures r.Ok? ==>
              var m := GetSize(preview.value, parseFloat);
              r.value == StickerDataResponse(GetImgUrl(preview.value).value, Size(m.width, m.height))
  {
    match preview
    case Err(f) => Err(f)
    case Ok(p) =>
      match GetProductType(p)
      case Err(e) => Err(Error(e))
      case Ok(t) =>
        if !IsSticker(t) then Err(Error(NotASticker))
        else
          match GetImgUrl(p)
          case Err(e) => Err(Error(e))
          case Ok(img) =>
            var m := GetSize(p, parseFloat);
            if m.err.Some? then Err(Error(m.err.value))
            else Ok(StickerDataResponse(img, Size(m.width, m.height)))
  }

  /** The type is read and checked before the image, and the image before the size: the first failure is reported. */
  lemma CheckOrder(p: Node, parseFloat: string -> Result<real, string>)
    ensures GetProductType(p).Err? ==> FromPreview(Ok(p), parseFloat) == Err(Error(GetProductType(p).error))
    ensures GetProductType(p).Ok? && !IsSticker(GetProductType(p).value) ==>
              FromPreview(Ok(p), parseFloat) == Err(Error(NotASticker))
    ensures GetProductType(p).Ok? && IsSticker(GetProductType(p).value) && GetImgUrl(p).Err? ==>
              FromPreview(Ok(p), parseFloat) == Err(Error(GetImgUrl(p).error))
    ensures GetProductType(p).Ok? && IsSticker(GetProductType(p).value) && GetImgUrl(p).Ok? && GetSize(p, parseFloat).err.Some? ==>
              FromPreview(Ok(p), parseFloat) == Err(Error(GetSize(p, parseFloat).err.value))
  {
  }

  /** extractProductInfo as written: parse, second child of the document, preview, then the checks. */
  function ExtractAsWritten(doc: Result<Node, string>, parseFloat: string -> Result<real, string>): (r: Result<StickerDataResponse, Failure>)
    ensures doc.Err? ==> r == Err(Error(doc.error))
    ensures r == Err(Panic) <==> doc.Ok? && |doc.value.children| < 2
    ensures !r.Err? || !r.error.BadStatus?
  {
    match doc
    case Err(e) => Err(Error(e))
    case Ok(d) => FromPreview(PreviewAsWritten(d), parseFloat)
  }

  /** extractProductInfo with the `html` element looked up rather than assumed to be the second child. */
  function Extract(doc: Result<Node, string>, parseFloat: string -> Result<real, string>): (r: Result<StickerDataResponse, Failure>)
    ensures doc.Err? ==> r == Err(Error(doc.error))
    ensures r != Err(Panic)
    ensures !r.Err? || !r.error.BadStatus?
  {
    match doc
    case Err(e) => Err(Error(e))
    case Ok(d) => FromPreview(Preview(d), parseFloat)
  }

  /** FetchProductInfo as written: a non-200 status returns the empty response and the (nil) error. */
  function FetchAsWritten(url: string, get: string -> Result<HttpResponse, string>,
                          parse: string -> Result<Node, string>, parseFloat: string -> Result<real, string>): (r: Result<StickerDataResponse, Failure>)
    ensures get(url).Err? ==> r == Err(Error(get(url).error))
    ensures get(url).Ok? && get(url).value.status != OkStatus ==> r == Ok(EmptyResponse)
    ensures get(url).Ok? && get(url).value.status == OkStatus ==>
              var body := get(url).value.body;
              r == if body.Err? then Err(Error(body.error)) else ExtractAsWritten(parse(body.value), parseFloat)
  {
    match get(url)
    case Err(e) => Err(Error(e))
    case Ok(resp) =>
      if resp.status != OkStatus then Ok(EmptyResponse)
      else
        match resp.body
        case Err(e) => Err(Error(e))
        case Ok(b) => ExtractAsWritten(parse(b), parseFloat)
  }

  /** FetchProductInfo with a non-200 status reported as a failure. */
  function FetchProductInfo(url: string, get: string -> Result<HttpResponse, string>,
                            parse: string -> Result<Node, string>, parseFloat: string -> Result<real, string>): (r: Result<StickerDataResponse, Failure>)
    ensures r.Ok? ==> get(url).Ok? && get(url).value.status == OkStatus && get(url).value.body.Ok?
    ensures r.Ok? ==> r == Extract(parse(get(url).value.body.value), parseFloat)
    ensures r.Err? && r.error.BadStatus? <==> get(url).Ok? && get(url).value.status != OkStatus
    ensures r != Err(Panic)
  {
    match get(url)
    case Err(e) => Err(Error(e))
    case Ok(resp) =>
      if resp.status != OkStatus then Err(BadStatus(resp.status))
      else
        match resp.body
        case Err(e) => Err(Error(e))
        case Ok(b) => Extract(parse(b), parseFloat)
  }

  /** A 404 page is reported as a successful lookup of an empty product by the code as written. */
  lemma NotFoundLooksLikeSuccess(url: string, get: string -> Result<HttpResponse, string>,
                                 parse: string -> Result<Node, string>, parseFloat: string -> Result<real, string>)
    requires get(url).Ok? && get(url).value.status == 404
    ensures FetchAsWritten(url, get, parse, parseFloat) == Ok(StickerDataResponse("", Size(0.0, 0.0)))
    ensures FetchProductInfo(url, get, parse, parseFloat) == Err(BadStatus(404))
  {
  }
}
