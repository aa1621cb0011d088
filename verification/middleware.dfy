/** The CORS middleware in front of the API routes: it adds the cross-origin headers to
    every `/api/` response, reflects the origin only for the site's own two origins, and
    answers preflight requests itself. */
module Cors {
  import opened Wrappers
  import opened Text

  const AllowedOrigins: seq<string> := ["https://www.zenithestrategia.com.br", "https://zenithestrategia.com.br"]

  const AllowOrigin: string := "Access-Control-Allow-Origin"
  const AllowMethods: string := "Access-Control-Allow-Methods"
  const AllowHeaders: string := "Access-Control-Allow-Headers"

  const Methods: string := "GET, POST, PUT, DELETE, OPTIONS"
  const RequestHeaders: string := "Content-Type, Authorization"

  const ApiPrefix: string := "/api/"

  /** What the middleware sees of a request: its path, its `origin` header and its
      method. */
  datatype Request = Request(pathname: string, origin: Option<string>, verb: string)

  /** Headers set on the response, by name. */
  type ResponseHeaders = map<string, string>

  /** What the middleware does: lets the request through untouched, lets it through with
      headers added to the route's response, or answers it itself. */
  datatype Action =
    | PassThrough
    | Continue(headers: ResponseHeaders)
    | Preflight(status: nat, headers: ResponseHeaders)

  /** `allowedOrigins.includes(origin)`. */
  predicate Allowed(origin: string) {
    exists i | 0 <= i < |AllowedOrigins| :: AllowedOrigins[i] == origin
  }

  /** The headers added for a request from `origin`. */
  function CorsHeaders(origin: Option<string>): (h: ResponseHeaders)
    ensures AllowOrigin in h <==> Truthy(origin) && Allowed(origin.value)
    ensures AllowOrigin in h ==> h[AllowOrigin] == origin.value
    ensures AllowMethods in h && h[AllowMethods] == Methods
    ensures AllowHeaders in h && h[AllowHeaders] == RequestHeaders
    ensures h.Keys <= {AllowOrigin, AllowMethods, AllowHeaders}
  {
    var base := map[AllowMethods := Methods, AllowHeaders := RequestHeaders];
    if Truthy(origin) && Allowed(origin.value) then base[AllowOrigin := origin.value] else base
  }

  /** `middleware`: only paths under `/api/` are handled; `OPTIONS` is answered with 200
      and the headers, anything else goes on to the route with the headers. */
  function Middleware(req: Request): (a: Action)
    ensures !(ApiPrefix <= req.pathname) ==> a == PassThrough
    ensures ApiPrefix <= req.pathname && req.verb == "OPTIONS" ==> a == Preflight(200, CorsHeaders(req.origin))
    ensures ApiPrefix <= req.pathname && req.verb != "OPTIONS" ==> a == Continue(CorsHeaders(req.origin))
  {
    if ApiPrefix <= req.pathname then
      var headers := CorsHeaders(req.origin);
      if req.verb == "OPTIONS" then Preflight(200, headers) else Continue(headers)
    else PassThrough
  }

  /** The headers of whatever the middleware does, empty when it passes through. */
  function HeadersOf(a: Action): ResponseHeaders {
    match a
    case PassThrough => map[]
    case Continue(h) => h
    case Preflight(_, h) => h
  }

  /** Only the site's own origins are ever granted, and only the requesting one. */
  lemma OnlyOwnOriginsGranted(req: Request)
    ensures var h := HeadersOf(Middleware(req));
      AllowOrigin in h ==> req.origin == Some(h[AllowOrigin]) && Allowed(h[AllowOrigin])
  {
  }

  /** A request from either of the site's origins to the API is granted that origin. */
  lemma OwnOriginGranted(req: Request, i: nat)
    requires ApiPrefix <= req.pathname && i < |AllowedOrigins| && req.origin == Some(AllowedOrigins[i])
    ensures var h := HeadersOf(Middleware(req));
      AllowOrigin in h && h[AllowOrigin] == AllowedOrigins[i]
  {
  }

  /** Preflight succeeds for any origin; a foreign origin just gets no grant. */
  lemma PreflightAlwaysOk(pathname: string, origin: string)
    requires ApiPrefix <= pathname && !Allowed(origin)
    ensures var a := Middleware(Request(pathname, Some(origin), "OPTIONS"));
      a.Preflight? && a.status == 200 && AllowOrigin !in a.headers
  {
  }

  /** The prefix test is on `/api/` with the slash: the bare `/api` path is not handled. */
  lemma BareApiPathPassesThrough(origin: Option<string>, verb: string)
    ensures Middleware(Request("/api", origin, verb)) == PassThrough
  {
    assert !(ApiPrefix <= "/api") by {
      assert |"/api"| < |ApiPrefix|;
    }
  }
}
