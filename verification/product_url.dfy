/**
 * The client's product-URL recogniser, a hand-written matcher for the
 * anchored pattern both forms use:
 *
 *   ^https?://www\.stickermule\.com/[^/]+/item/\d+(?:\?.*)?$
 *
 * A URL is the scheme (`http` or `https`), the fixed host, a non-empty store
 * segment without `/`, the literal `/item/`, one or more ASCII digits, and
 * optionally `?` followed by any characters except line terminators (what the
 * pattern's `.` refuses). Nothing may trail. The store segment is a negated
 * class, so it may hold any character but `/`, line terminators included.
 */
module ProductUrl {
  import opened Wrappers
  import opened Text

  /** What follows the scheme: the separator and the fixed host with its trailing slash. */
  const HostPart: string := "://www.stickermule.com/"

  const ItemMarker: string := "/item/"

  /** The pieces a matching URL is made of. */
  datatype UrlParts = UrlParts(secure: bool, store: string, item: string, query: Option<string>)

  /** The characters a regular-expression `.` does not match. */
  predicate IsLineTerminator(c: char) {
    c == '\n' || c == '\r' || c == '\U{2028}' || c == '\U{2029}'
  }

  predicate NotLineTerminator(c: char) {
    !IsLineTerminator(c)
  }

  predicate NotSlash(c: char) {
    c != '/'
  }

  /** The pieces each sub-pattern accepts. */
  predicate WellFormed(p: UrlParts) {
    && p.store != [] && All(p.store, NotSlash)
    && p.item != [] && All(p.item, IsDigit)
    && (p.query.Some? ==> All(p.query.value, NotLineTerminator))
  }

  function SchemePrefix(secure: bool): string {
    (if secure then "https" else "http") + HostPart
  }

  function QuerySuffix(query: Option<string>): string {
    match query
    case None => ""
    case Some(q) => "?" + q
  }

  /** The text after `/item/`: the item number and the optional query. */
  function ItemText(item: string, query: Option<string>): string {
    item + QuerySuffix(query)
  }

  /** The text after the host: store segment, `/item/`, item number, query. */
  function PathText(store: string, item: string, query: Option<string>): string {
    store + (ItemMarker + ItemText(item, query))
  }

  /** The URL the pieces spell. */
  function Build(p: UrlParts): string {
    SchemePrefix(p.secure) + PathText(p.store, p.item, p.query)
  }

  /** The optional `?` and query: empty, or `?` followed by no line terminator. */
  function ParseQuery(tail: string): (r: Option<Option<string>>)
    ensures r.Some? ==> QuerySuffix(r.value) == tail
    ensures r.Some? && r.value.Some? ==> All(r.value.value, NotLineTerminator)
  {
    if tail == [] then Some(None)
    else if tail[0] == '?' && All(tail[1..], NotLineTerminator) then
      assert tail == "?" + tail[1..];
      Some(Some(tail[1..]))
    else None
  }

  /** One or more digits, then the optional query. */
  function ParseItem(s: string): (r: Option<(string, Option<string>)>)
    ensures r.Some? ==> r.value.0 != [] && All(r.value.0, IsDigit)
    ensures r.Some? && r.value.1.Some? ==> All(r.value.1.value, NotLineTerminator)
    ensures r.Some? ==> ItemText(r.value.0, r.value.1) == s
  {
    var d := Span(s, IsDigit);
    if d == 0 then None
    else
      match ParseQuery(s[d..])
      case None => None
      case Some(query) =>
        assert s == s[..d] + s[d..];
        Some((s[..d], query))
  }

  /** A store segment without `/`, the literal `/item/`, then the item text. */
  function ParsePath(s: string): (r: Option<(string, string, Option<string>)>)
    ensures r.Some? ==> r.value.0 != [] && All(r.value.0, NotSlash)
    ensures r.Some? ==> r.value.1 != [] && All(r.value.1, IsDigit)
    ensures r.Some? && r.value.2.Some? ==> All(r.value.2.value, NotLineTerminator)
    ensures r.Some? ==> PathText(r.value.0, r.value.1, r.value.2) == s
  {
    var k := Span(s, NotSlash);
    if k == 0 || !IsPrefix(ItemMarker, s[k..]) then None
    else
      var store, afterStore := s[..k], s[k..];
      var afterMarker := afterStore[|ItemMarker|..];
      match ParseItem(afterMarker)
      case None => None
      case Some(item) =>
        SplitAt(afterStore, |ItemMarker|);
        SplitAt(s, k);
        Some((store, item.0, item.1))
  }

  lemma SplitAt(s: string, k: int)
    requires 0 <= k <= |s|
    ensures s == s[..k] + s[k..]
  {
  }

  /**
   * The recogniser: the pieces of `u` when it matches the pattern, else None.
   * Every accepted URL is spelled by well-formed pieces.
   */
  function Parse(u: string): (r: Option<UrlParts>)
    ensures r.Some? ==> WellFormed(r.value) && Build(r.value) == u
  {
    var secure := IsPrefix(SchemePrefix(true), u);
    if !secure && !IsPrefix(SchemePrefix(false), u) then None
    else
      var head := SchemePrefix(secure);
      match ParsePath(u[|head|..])
      case None => None
      case Some(path) =>
        assert u == head + u[|head|..];
        Some(UrlParts(secure, path.0, path.1, path.2))
  }

  /** `regex.test(url)` for the product pattern. */
  predicate Matches(u: string) {
    Parse(u).Some?
  }

  lemma ParseQueryOf(query: Option<string>)
    requires query.Some? ==> All(query.value, NotLineTerminator)
    ensures ParseQuery(QuerySuffix(query)) == Some(query)
  {
    if query.Some? {
      assert QuerySuffix(query)[1..] == query.value;
    }
  }

  lemma ParseItemOf(item: string, query: Option<string>)
    requires item != [] && All(item, IsDigit)
    requires query.Some? ==> All(query.value, NotLineTerminator)
    ensures ParseItem(ItemText(item, query)) == Some((item, query))
  {
    var s, tail := ItemText(item, query), QuerySuffix(query);
    SpanExact(item, tail, IsDigit);
    assert s[..|item|] == item && s[|item|..] == tail;
    ParseQueryOf(query);
  }

  lemma ParsePathOf(store: string, item: string, query: Option<string>)
    requires store != [] && All(store, NotSlash)
    requires item != [] && All(item, IsDigit)
    requires query.Some? ==> All(query.value, NotLineTerminator)
    ensures ParsePath(PathText(store, item, query)) == Some((store, item, query))
  {
    var s, rest := PathText(store, item, query), ItemMarker + ItemText(item, query);
    SpanExact(store, rest, NotSlash);
    assert s[..|store|] == store && s[|store|..] == rest;
    assert rest[|ItemMarker|..] == ItemText(item, query);
    ParseItemOf(item, query);
  }

  /** The scheme test picks `https` exactly for a secure URL, and what follows the host is the path. */
  lemma SchemeOf(secure: bool, path: string)
    ensures IsPrefix(SchemePrefix(true), SchemePrefix(secure) + path) == secure
    ensures IsPrefix(SchemePrefix(secure), SchemePrefix(secure) + path)
    ensures (SchemePrefix(secure) + path)[|SchemePrefix(secure)|..] == path
  {
    var u := SchemePrefix(secure) + path;
    assert u[..|SchemePrefix(secure)|] == SchemePrefix(secure);
    if !secure {
      assert u[4] == ':' && SchemePrefix(true)[4] == 's';
    }
  }

  /** Well-formed pieces are recovered from the URL they spell. */
  lemma ParseBuild(p: UrlParts)
    requires WellFormed(p)
    ensures Parse(Build(p)) == Some(p)
  {
    SchemeOf(p.secure, PathText(p.store, p.item, p.query));
    ParsePathOf(p.store, p.item, p.query);
  }

  /** The pattern's language: a URL matches exactly when some well-formed pieces spell it. */
  lemma MatchesIffBuilt(u: string)
    ensures Matches(u) <==> exists p :: WellFormed(p) && Build(p) == u
  {
    if exists p :: WellFormed(p) && Build(p) == u {
      var p :| WellFormed(p) && Build(p) == u;
      ParseBuild(p);
    }
  }

  /** The client's `validateUrl`: not blank after trimming, and matching the pattern. */
  predicate ValidateUrl(u: string) {
    Trim(u, IsJsSpace) != [] && Matches(u)
  }

  /** The blank check adds nothing: every matching URL starts with `h`. */
  lemma ValidateIsMatch(u: string)
    ensures ValidateUrl(u) <==> Matches(u)
  {
    if Matches(u) {
      assert u[0] == 'h';
      assert !All(u, IsJsSpace);
    }
  }

  lemma LastOfAppend(a: string, b: string)
    requires b != []
    ensures (a + b)[|a + b| - 1] == b[|b| - 1]
  {
  }

  /** A built URL starts with `h` and ends in a digit, `?` or a query character, never a line terminator. */
  lemma BuiltUrlEnds(p: UrlParts)
    requires WellFormed(p)
    ensures Build(p)[0] == 'h' && NotLineTerminator(Build(p)[|Build(p)| - 1])
  {
    var head, tail := SchemePrefix(p.secure), QuerySuffix(p.query);
    var item := ItemText(p.item, p.query);
    var path := PathText(p.store, p.item, p.query);
    LastOfAppend(head, path);
    LastOfAppend(p.store, ItemMarker + item);
    LastOfAppend(ItemMarker, item);
    if tail == [] {
      assert item == p.item;
    } else {
      LastOfAppend(p.item, tail);
      if p.query.value != [] {
        LastOfAppend("?", p.query.value);
      }
    }
  }

  /** A matching URL starts with `h` and does not end in a line terminator, so padding is refused. */
  lemma PaddedUrlRejected(u: string)
    requires u != []
    ensures IsJsSpace(u[0]) ==> !Matches(u)
    ensures IsLineTerminator(u[|u| - 1]) ==> !Matches(u)
  {
    if Matches(u) {
      BuiltUrlEnds(Parse(u).value);
    }
  }

  lemma SamplePath()
    ensures PathText("herman", "14591453", None) == "herman/item/14591453"
  {
  }

  lemma SampleItemWithQuery()
    ensures ItemText("12572771", Some("origin=PUBLIC_PROFILE")) == "12572771?origin=PUBLIC_PROFILE"
  {
  }

  lemma Assoc4(a: string, b: string, c: string, d: string)
    ensures a + b + c + d == a + (b + (c + d))
  {
  }

  /** The first sample URL of the instructions panel matches. */
  lemma SampleUrlMatches()
    ensures Matches("https" + HostPart + "herman/item/14591453")
  {
    ParseBuild(UrlParts(true, "herman", "14591453", None));
    SamplePath();
  }

  /** The second sample URL, which carries a query string, matches. */
  lemma SampleUrlWithQueryMatches()
    ensures Matches("https" + HostPart + "zamaxdesign" + ItemMarker + "12572771?origin=PUBLIC_PROFILE")
  {
    ParseBuild(UrlParts(true, "zamaxdesign", "12572771", Some("origin=PUBLIC_PROFILE")));
    SampleItemWithQuery();
    Assoc4(SchemePrefix(true), "zamaxdesign", ItemMarker, "12572771?origin=PUBLIC_PROFILE");
  }

  /** Plain http is accepted by the client pattern. */
  lemma PlainHttpMatches()
    ensures Matches("http" + HostPart + "herman/item/14591453")
  {
    ParseBuild(UrlParts(false, "herman", "14591453", None));
    SamplePath();
  }
}
