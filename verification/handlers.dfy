/**
 * The server's request handlers as decisions: from the method, the decoded
 * body or query parameter and the service's answer to a status code and a
 * body, recording what (if anything) was handed to the service. JSON
 * decoding, URL parsing and the services are parameters.
 */
module Handlers {
  import opened Wrappers
  import opened Text
  import opened Models
  import ProductUrl
  import ProductPage

  /** An incoming request: method, body text and query parameters (each key with its values in order). */
  datatype Request = Request(httpMethod: string, body: string, query: map<string, seq<string>>)

  /** A response body: the text of an error, or one of the JSON payloads. */
  datatype Body =
    | NoBody
    | ErrorText(text: string)
    | StickerJson(data: StickerDataResponse)
    | StatusJson(status: string)
    | SessionJson(stickers: Option<seq<SavedStickerData>>)

  /** A written response, or a dropped connection (the handler panicked). */
  datatype Response = Response(status: int, body: Body) | Dropped

  /** The response, and the argument the service was called with, if it was called. */
  datatype Handled<A> = Handled(response: Response, called: Option<A>)

  /** The URL pieces the server check reads, as url.Parse reports them. */
  datatype ParsedUrl = ParsedUrl(scheme: string, host: string, path: string)

  const MethodGet: string := "GET"
  const MethodPost: string := "POST"

  const StatusOk: int := 200
  const StatusBadRequest: int := 400
  const StatusMethodNotAllowed: int := 405
  const StatusInternalServerError: int := 500

  const MethodNotAllowed: string := "Method not allowed"
  const InvalidJson: string := "Invalid JSON request"
  const InvalidUrl: string := "Invalid Sticker Mule URL format"
  const FetchFailed: string := "Failed to fetch or parse product information"
  const SaveFailed: string := "Failed to save session data"
  const SessionIdRequired: string := "sessionId parameter is required"
  const LoadFailed: string := "Failed to fetch session data"

  const AllowedScheme: string := "https"
  const AllowedHost: string := "www.stickermule.com"

  // ---------------------------------------------------------------------------
  // The server's URL check

  /**
   * The path pattern `^/[^/]+/item/\d+$`: a slash, a store segment without
   * slashes, `/item/`, and ASCII digits up to the end. The segment can only
   * stop at the first slash, so it is the longest slash-free run.
   */
  predicate ServerPath(path: string) {
    && |path| > 0 && path[0] == '/'
    && var rest := path[1..];
       var k := Span(rest, ProductUrl.NotSlash);
       && 0 < k
       && IsPrefix(ProductUrl.ItemMarker, rest[k..])
       && var digits := rest[k + |ProductUrl.ItemMarker|..];
          digits != [] && All(digits, IsDigit)
  }

  /** The path a store segment and an item number spell. */
  function PathOf(store: string, item: string): string {
    "/" + store + ProductUrl.ItemMarker + item
  }

  /** Every store segment and item number the pattern allows spell an accepted path. */
  lemma ServerPathOf(store: string, item: string)
    requires store != [] && All(store, ProductUrl.NotSlash)
    requires item != [] && All(item, IsDigit)
    ensures ServerPath(PathOf(store, item))
  {
    var path := PathOf(store, item);
    var tail := ProductUrl.ItemMarker + item;
    assert path[1..] == store + tail;
    SpanExact(store, tail, ProductUrl.NotSlash);
    assert (store + tail)[|store|..] == tail;
    assert tail[|ProductUrl.ItemMarker|..] == item;
    assert IsPrefix(ProductUrl.ItemMarker, tail);
  }

  /** Every accepted path is spelled by such a segment and number. */
  lemma ServerPathSplits(path: string) returns (store: string, item: string)
    requires ServerPath(path)
    ensures store != [] && All(store, ProductUrl.NotSlash)
    ensures item != [] && All(item, IsDigit)
    ensures path == PathOf(store, item)
  {
    var rest, m := path[1..], ProductUrl.ItemMarker;
    var k := Span(rest, ProductUrl.NotSlash);
    store, item := rest[..k], rest[k + |m|..];
    SplitAround(rest, k, m);
    assert path == [path[0]] + rest;
    ProductUrl.Assoc4("/", store, m, item);
  }

  /** A string with `m` at index `k` is what precedes `k`, then `m`, then what follows `m`. */
  lemma SplitAround(s: string, k: int, m: string)
    requires 0 <= k <= |s| && IsPrefix(m, s[k..])
    ensures k + |m| <= |s|
    ensures s == s[..k] + (m + s[k + |m|..])
  {
    var tail := s[k..];
    assert tail[..|m|] == m;
    assert tail[|m|..] == s[k + |m|..];
    ProductUrl.SplitAt(tail, |m|);
    ProductUrl.SplitAt(s, k);
  }

  /** validateStickerMuleURL: parsable, `https`, the exact host, and a path matching the pattern; the query is not read. */
  predicate ValidateStickerMuleUrl(url: string, parse: string -> Option<ParsedUrl>) {
    match parse(url)
    case None => false
    case Some(u) => u.host == AllowedHost && u.scheme == AllowedScheme && ServerPath(u.path)
  }

  /** The characters at which url.Parse ends the path: the query and the fragment start there. */
  predicate EndsPath(c: char) {
    c == '?' || c == '#'
  }

  predicate NotEndsPath(c: char) {
    !EndsPath(c)
  }

  /** What url.Parse keeps as the path of `/`-rooted text: everything before the first `?` or `#`. */
  function PathBeforeQuery(s: string): (r: string)
    ensures IsPrefix(r, s) && All(r, NotEndsPath)
    ensures |r| == |s| || EndsPath(s[|r|])
  {
    s[..Span(s, NotEndsPath)]
  }

  /** ASCII control characters, which url.Parse refuses anywhere before the fragment. */
  predicate IsControl(c: char) {
    c < ' ' || c == '\U{7F}'
  }

  predicate NotControl(c: char) {
    !IsControl(c)
  }

  /**
   * The parser splits a client link as url.Parse does: scheme `https`, the
   * fixed host, and the path cut at the first `?` or `#`. Percent-decoding,
   * the refusal of control characters and the decoding of the fragment are
   * not part of this statement, so it describes url.Parse only for links
   * whose path holds no `%`, that hold no control character and that have no
   * fragment.
   */
  predicate SplitsSecureLink(p: ProductUrl.UrlParts, parse: string -> Option<ParsedUrl>) {
    parse(ProductUrl.Build(p))
      == Some(ParsedUrl(AllowedScheme, AllowedHost, PathBeforeQuery("/" + ProductUrl.PathText(p.store, p.item, p.query))))
  }

  /**
   * A secure link the client pattern accepts passes the server check when its
   * store segment holds no `?`, `#` or `%`, no control character appears, and
   * the query holds no `#`: the path url.Parse reports is then the store and
   * item number the client saw.
   */
  lemma SecureClientUrlAccepted(p: ProductUrl.UrlParts, parse: string -> Option<ParsedUrl>)
    requires ProductUrl.WellFormed(p) && p.secure
    requires '?' !in p.store && '#' !in p.store && '%' !in p.store && All(p.store, NotControl)
    requires p.query.Some? ==> '#' !in p.query.value && All(p.query.value, NotControl)
    requires SplitsSecureLink(p, parse)
    ensures ProductUrl.Matches(ProductUrl.Build(p))
    ensures ValidateStickerMuleUrl(ProductUrl.Build(p), parse)
  {
    ProductUrl.ParseBuild(p);
    CutAtQuery(p);
    ServerPathOf(p.store, p.item);
  }

  /** Cutting a link's path at the query leaves the store, `/item/` and the item number. */
  lemma CutAtQuery(p: ProductUrl.UrlParts)
    requires ProductUrl.WellFormed(p)
    requires '?' !in p.store && '#' !in p.store
    ensures PathBeforeQuery("/" + ProductUrl.PathText(p.store, p.item, p.query)) == PathOf(p.store, p.item)
  {
    var head, tail := PathOf(p.store, p.item), ProductUrl.QuerySuffix(p.query);
    var s := "/" + ProductUrl.PathText(p.store, p.item, p.query);
    ProductUrl.Assoc4("/", p.store, ProductUrl.ItemMarker, p.item);
    assert s == head + tail;
    forall i | 0 <= i < |head|
      ensures NotEndsPath(head[i])
    {
      if 0 < i <= |p.store| {
        assert head[i] == p.store[i - 1];
      } else if |p.store| < i < |p.store| + 1 + |ProductUrl.ItemMarker| {
        assert head[i] == ProductUrl.ItemMarker[i - 1 - |p.store|];
      } else if i > 0 {
        assert head[i] == p.item[i - 1 - |p.store| - |ProductUrl.ItemMarker|];
      }
    }
    SpanExact(head, tail, NotEndsPath);
    assert s[..|head|] == head;
  }

  /**
   * The client and the server disagree on a store segment holding `?`: the
   * client pattern accepts `https://www.stickermule.com/a?b/item/1`, while
   * url.Parse ends its path at the `?`, and the path `/a` fails the server check.
   */
  lemma QueryMarkInStoreRefused(parse: string -> Option<ParsedUrl>)
    requires SplitsSecureLink(ProductUrl.UrlParts(true, "a?b", "1", None), parse)
    ensures ProductUrl.Matches(ProductUrl.Build(ProductUrl.UrlParts(true, "a?b", "1", None)))
    ensures !ValidateStickerMuleUrl(ProductUrl.Build(ProductUrl.UrlParts(true, "a?b", "1", None)), parse)
  {
    var p := ProductUrl.UrlParts(true, "a?b", "1", None);
    ProductUrl.ParseBuild(p);
    var s := "/" + ProductUrl.PathText(p.store, p.item, p.query);
    assert s[..2] == "/a" && s[2] == '?';
    SpanExact("/a", s[2..], NotEndsPath);
    assert s == "/a" + s[2..];
    assert PathBeforeQuery(s) == "/a";
    assert Span("a", ProductUrl.NotSlash) == 1;
  }

  /**
   * A control character in the store segment: the client pattern accepts
   * `https://www.stickermule.com/a<TAB>b/item/1`, url.Parse refuses it, and
   * the server check fails.
   */
  lemma ControlCharacterRefused(parse: string -> Option<ParsedUrl>)
    requires parse(ProductUrl.Build(ProductUrl.UrlParts(true, "a\tb", "1", None))) == None
    ensures ProductUrl.Matches(ProductUrl.Build(ProductUrl.UrlParts(true, "a\tb", "1", None)))
    ensures !ValidateStickerMuleUrl(ProductUrl.Build(ProductUrl.UrlParts(true, "a\tb", "1", None)), parse)
  {
    ProductUrl.ParseBuild(ProductUrl.UrlParts(true, "a\tb", "1", None));
  }

  /** Plain http passes the client pattern but never the server check. */
  lemma PlainHttpRefused(p: ProductUrl.UrlParts, parse: string -> Option<ParsedUrl>)
    requires ProductUrl.WellFormed(p) && !p.secure
    requires parse(ProductUrl.Build(p)).Some? && parse(ProductUrl.Build(p)).value.scheme == "http"
    ensures ProductUrl.Matches(ProductUrl.Build(p))
    ensures !ValidateStickerMuleUrl(ProductUrl.Build(p), parse)
  {
    ProductUrl.ParseBuild(p);
  }

  /** A trailing slash after the item number is refused. */
  lemma TrailingSlashRefused(store: string, item: string)
    requires store != [] && All(store, ProductUrl.NotSlash)
    requires item != [] && All(item, IsDigit)
    ensures !ServerPath(PathOf(store, item) + "/")
  {
    var path := PathOf(store, item) + "/";
    var tail := ProductUrl.ItemMarker + item + "/";
    assert path[1..] == store + tail;
    SpanExact(store, tail, ProductUrl.NotSlash);
    assert (store + tail)[|store|..] == tail;
    assert tail[|ProductUrl.ItemMarker|..] == item + "/";
    assert !IsDigit((item + "/")[|item|]);
  }

  // ---------------------------------------------------------------------------
  // Handlers

  /** ProcessStickerURL: method, then body, then URL check, then the product lookup. */
  function ProcessStickerUrl(req: Request, decode: string -> Option<string>, parse: string -> Option<ParsedUrl>,
                             fetch: string -> Result<StickerDataResponse, ProductPage.Failure>): (r: Handled<string>)
    ensures r.response == Response(StatusMethodNotAllowed, ErrorText(MethodNotAllowed)) <==> req.httpMethod != MethodPost
    ensures r.called.Some? <==>
              req.httpMethod == MethodPost && decode(req.body).Some? && ValidateStickerMuleUrl(decode(req.body).value, parse)
    ensures r.called.Some? ==> r.called.value == decode(req.body).value
    ensures r.response.Response? && r.response.status == StatusBadRequest <==>
              req.httpMethod == MethodPost && (decode(req.body).None? || !ValidateStickerMuleUrl(decode(req.body).value, parse))
    ensures r.response.Response? && r.response.status == StatusOk <==>
              r.called.Some? && fetch(r.called.value).Ok?
    ensures r.response.Response? && r.response.status == StatusOk ==>
              r.response.body == StickerJson(fetch(r.called.value).value)
    ensures r.response.Response? && r.response.status == StatusInternalServerError <==>
              r.called.Some? && fetch(r.called.value).Err? && !fetch(r.called.value).error.Panic?
    ensures r.response.Dropped? <==> r.called.Some? && fetch(r.called.value) == Err(ProductPage.Panic)
  {
    if req.httpMethod != MethodPost then Handled(Response(StatusMethodNotAllowed, ErrorText(MethodNotAllowed)), None)
    else
      match decode(req.body)
      case None => Handled(Response(StatusBadRequest, ErrorText(InvalidJson)), None)
      case Some(url) =>
        if !ValidateStickerMuleUrl(url, parse) then Handled(Response(StatusBadRequest, ErrorText(InvalidUrl)), None)
        else
          match fetch(url)
          case Ok(data) => Handled(Response(StatusOk, StickerJson(data)), Some(url))
          case Err(f) =>
            if f.Panic? then Handled(Dropped, Some(url))
            else Handled(Response(StatusInternalServerError, ErrorText(FetchFailed)), Some(url))
  }

  /** An http product link never reaches the product lookup. */
  lemma PlainHttpNeverFetched(req: Request, decode: string -> Option<string>, parse: string -> Option<ParsedUrl>,
                              fetch: string -> Result<StickerDataResponse, ProductPage.Failure>)
    requires req.httpMethod == MethodPost && decode(req.body).Some?
    requires parse(decode(req.body).value).Some? && parse(decode(req.body).value).value.scheme == "http"
    ensures ProcessStickerUrl(req, decode, parse, fetch) ==
              Handled(Response(StatusBadRequest, ErrorText(InvalidUrl)), None)
  {
  }

  /** SaveSession: method, then body, then the store. */
  function SaveSession(req: Request, decode: string -> Option<SaveSessionRequest>,
                       save: SaveSessionRequest -> Option<string>): (r: Handled<SaveSessionRequest>)
    ensures r.response == Response(StatusMethodNotAllowed, ErrorText(MethodNotAllowed)) <==> req.httpMethod != MethodPost
    ensures r.response == Response(StatusBadRequest, ErrorText(InvalidJson)) <==>
              req.httpMethod == MethodPost && decode(req.body).None?
    ensures r.called.Some? <==> req.httpMethod == MethodPost && decode(req.body).Some?
    ensures r.called.Some? ==> r.called.value == decode(req.body).value
    ensures r.response == Response(StatusOk, StatusJson("success")) <==> r.called.Some? && save(r.called.value).None?
    ensures r.response == Response(StatusInternalServerError, ErrorText(SaveFailed)) <==>
              r.called.Some? && save(r.called.value).Some?
  {
    if req.httpMethod != MethodPost then Handled(Response(StatusMethodNotAllowed, ErrorText(MethodNotAllowed)), None)
    else
      match decode(req.body)
      case None => Handled(Response(StatusBadRequest, ErrorText(InvalidJson)), None)
      case Some(dat) =>
        if save(dat).Some? then Handled(Response(StatusInternalServerError, ErrorText(SaveFailed)), Some(dat))
        else Handled(Response(StatusOk, StatusJson("success")), Some(dat))
  }

  /** url.Values.Get: the first value given for the key, or "" when there is none. */
  function QueryGet(query: map<string, seq<string>>, key: string): (r: string)
    ensures key !in query ==> r == ""
    ensures key in query && query[key] != [] ==> r == query[key][0]
  {
    if key in query && query[key] != [] then query[key][0] else ""
  }

  /** GetSession: method, then the `sessionId` parameter, then the store. */
  function GetSession(req: Request, load: string -> Result<Option<seq<SavedStickerData>>, string>): (r: Handled<string>)
    ensures r.response == Response(StatusMethodNotAllowed, ErrorText(MethodNotAllowed)) <==> req.httpMethod != MethodGet
    ensures r.response == Response(StatusBadRequest, ErrorText(SessionIdRequired)) <==>
              req.httpMethod == MethodGet && QueryGet(req.query, "sessionId") == ""
    ensures r.called.Some? <==> req.httpMethod == MethodGet && QueryGet(req.query, "sessionId") != ""
    ensures r.called.Some? ==> r.called.value == QueryGet(req.query, "sessionId")
    ensures r.called.Some? && load(r.called.value).Ok? ==>
              r.response == Response(StatusOk, SessionJson(load(r.called.value).value))
    ensures r.response == Response(StatusInternalServerError, ErrorText(LoadFailed)) <==>
              r.called.Some? && load(r.called.value).Err?
  {
    if req.httpMethod != MethodGet then Handled(Response(StatusMethodNotAllowed, ErrorText(MethodNotAllowed)), None)
    else
      var sessionId := QueryGet(req.query, "sessionId");
      if sessionId == "" then Handled(Response(StatusBadRequest, ErrorText(SessionIdRequired)), None)
      else
        match load(sessionId)
        case Err(_) => Handled(Response(StatusInternalServerError, ErrorText(LoadFailed)), Some(sessionId))
        case Ok(data) => Handled(Response(StatusOk, SessionJson(data)), Some(sessionId))
  }

  /** An empty `sessionId=` is treated like a missing one, and only the first of repeated values is used. */
  lemma SessionIdParameter(req: Request, load: string -> Result<Option<seq<SavedStickerData>>, string>, v: string, rest: seq<string>)
    requires req.httpMethod == MethodGet
    ensures GetSession(req.(query := req.query["sessionId" := [""]]), load)
            == GetSession(req.(query := req.query - {"sessionId"}), load)
    ensures v != "" ==> GetSession(req.(query := req.query["sessionId" := [v] + rest]), load).called == Some(v)
  {
  }
}
