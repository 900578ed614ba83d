/**
 * The CORS wrapper around every handler: it echoes the origin back only for
 * the two front-end origins, always announces the allowed methods and
 * headers, answers a preflight `OPTIONS` itself and passes every other
 * request to the wrapped handler exactly once.
 */
module Cors {
  import opened Wrappers
  import opened Models
  import opened Handlers

  const AllowOriginHeader: string := "Access-Control-Allow-Origin"
  const AllowMethodsHeader: string := "Access-Control-Allow-Methods"
  const AllowHeadersHeader: string := "Access-Control-Allow-Headers"

  const AllowedMethods: string := "GET, POST, OPTIONS"
  const AllowedHeaders: string := "Content-Type"

  const LocalOrigin: string := "http://localhost:3000"
  const DeployedOrigin: string := "https://mule-fe-1027839195257.us-east4.run.app"

  const Preflight: string := "OPTIONS"

  /** The response headers after the wrapper, the response, and how many times the wrapped handler ran. */
  datatype Served = Served(headers: map<string, string>, response: Response, nextCalls: nat)

  predicate AllowedOrigin(origin: string) {
    origin == LocalOrigin || origin == DeployedOrigin
  }

  /** The headers the wrapper sets on top of `headers` for a request from `origin`. */
  function CorsHeaders(origin: string, headers: map<string, string>): (r: map<string, string>)
    ensures AllowedOrigin(origin) ==> AllowOriginHeader in r && r[AllowOriginHeader] == origin
    ensures !AllowedOrigin(origin) ==> (AllowOriginHeader in r <==> AllowOriginHeader in headers)
    ensures !AllowedOrigin(origin) && AllowOriginHeader in headers ==> r[AllowOriginHeader] == headers[AllowOriginHeader]
    ensures AllowMethodsHeader in r && r[AllowMethodsHeader] == AllowedMethods
    ensures AllowHeadersHeader in r && r[AllowHeadersHeader] == AllowedHeaders
    ensures r.Keys == headers.Keys + {AllowMethodsHeader, AllowHeadersHeader} + (if AllowedOrigin(origin) then {AllowOriginHeader} else {})
    ensures forall k :: k in headers && k != AllowOriginHeader && k != AllowMethodsHeader && k != AllowHeadersHeader ==> r[k] == headers[k]
  {
    var withOrigin := if AllowedOrigin(origin) then headers[AllowOriginHeader := origin] else headers;
    withOrigin[AllowMethodsHeader := AllowedMethods][AllowHeadersHeader := AllowedHeaders]
  }

  /** The wrapped handler `next` serving `req`, which came from `origin` (empty when the header is absent). */
  function Serve(req: Request, origin: string, headers: map<string, string>, next: Request -> Response): (r: Served)
    ensures r.headers == CorsHeaders(origin, headers)
    ensures r.nextCalls == 0 <==> req.httpMethod == Preflight
    ensures req.httpMethod == Preflight ==> r.response == Response(StatusOk, NoBody)
    ensures req.httpMethod != Preflight ==> r.nextCalls == 1 && r.response == next(req)
  {
    var h := CorsHeaders(origin, headers);
    if req.httpMethod == Preflight then Served(h, Response(StatusOk, NoBody), 0)
    else Served(h, next(req), 1)
  }

  /** Any origin other than the two is never echoed, whatever the request. */
  lemma OtherOriginsNotEchoed(req: Request, next: Request -> Response)
    ensures AllowOriginHeader !in Serve(req, "http://localhost:3001", map[], next).headers
    ensures AllowOriginHeader !in Serve(req, "", map[], next).headers
  {
    assert !AllowedOrigin("http://localhost:3001") by {
      assert "http://localhost:3001"[20] != LocalOrigin[20];
    }
  }

  /** A preflight never reaches the handlers, so it never sees their "method not allowed". */
  lemma PreflightAnsweredByWrapper(req: Request, origin: string, decode: string -> Option<SaveSessionRequest>,
                                   save: SaveSessionRequest -> Option<string>)
    requires req.httpMethod == Preflight
    ensures SaveSession(req, decode, save).response == Response(StatusMethodNotAllowed, ErrorText(MethodNotAllowed))
    ensures Serve(req, origin, map[], r => SaveSession(r, decode, save).response).response == Response(StatusOk, NoBody)
  {
  }
}
