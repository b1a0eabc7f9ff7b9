/**
 * The two origin decisions of src/index.js. The `cors` middleware consults
 * one allow-list in its `origin` callback; the GET, DELETE and OPTIONS
 * handlers consult a second, module-level list that differs from it in one
 * entry. An origin is the value of the request's `Origin` header, `None`
 * when the header is absent.
 */
module OriginPolicy {
  import opened Wrappers

  /** The list inside the `cors` origin callback. */
  const CorsOrigins: seq<string> := [
    "http://localhost:8080",
    "http://localhost:53033",
    "http://localhost:3000",
    "http://localhost:4200",
    "https://movies.com",
    "https://midudev.com"
  ]

  /** The module-level `ACCEPTED_ORIGINS` the handlers consult. */
  const HandlerOrigins: seq<string> := [
    "http://localhost:8080",
    "http://localhost:50426",
    "http://localhost:3000",
    "http://localhost:4200",
    "https://movies.com",
    "https://midudev.com"
  ]

  /** `!origin`: the header is absent or empty. */
  predicate IsFalsy(origin: Option<string>)
  {
    origin.None? || origin.value == ""
  }

  /** `list.includes(origin)`; an absent origin is `undefined`, which no list holds. */
  predicate Includes(list: seq<string>, origin: Option<string>)
  {
    origin.Some? && origin.value in list
  }

  /** `String(origin)`, the text Express writes when a header is set to `origin`. */
  function HeaderText(origin: Option<string>): string
  {
    if origin.Some? then origin.value else "undefined"
  }

  /** Every origin the middleware lets through, written out. */
  const CorsAccepted: set<Option<string>> := {
    None, Some(""),
    Some("http://localhost:8080"), Some("http://localhost:53033"), Some("http://localhost:3000"),
    Some("http://localhost:4200"), Some("https://movies.com"), Some("https://midudev.com")
  }

  /** Every origin the handler list holds, written out. */
  const HandlerListed: set<Option<string>> := {
    Some("http://localhost:8080"), Some("http://localhost:50426"), Some("http://localhost:3000"),
    Some("http://localhost:4200"), Some("https://movies.com"), Some("https://midudev.com")
  }

  /**
   * The `cors` origin callback: `cb(null, true)` when the origin is listed or
   * falsy, `cb(new Error(...))` otherwise. True means the request goes on.
   */
  function CorsCallback(origin: Option<string>): (accept: bool)
    ensures accept <==> origin in CorsAccepted
  {
    if Includes(CorsOrigins, origin) then true
    else if IsFalsy(origin) then true
    else false
  }

  /**
   * GET `/api/movies`: the `Access-Control-Allow-Origin` value the handler
   * sets, the request's own origin, and only when the handler list holds it.
   */
  function ListAllowOrigin(origin: Option<string>): (header: Option<string>)
    ensures header.Some? <==> origin in HandlerListed
    ensures header.Some? ==> header == origin
  {
    if Includes(HandlerOrigins, origin) then Some(origin.value) else None
  }

  /**
   * DELETE and OPTIONS on `/api/movies/:id`: the header is set when the
   * origin is listed or falsy, with `String(origin)` as its value, so an
   * absent origin is written as `undefined`.
   */
  function PreflightAllowOrigin(origin: Option<string>): (header: Option<string>)
    ensures header.Some? <==> origin in HandlerListed || IsFalsy(origin)
    ensures header.Some? && origin.Some? ==> header == origin
    ensures origin.None? ==> header == Some("undefined")
  {
    if Includes(HandlerOrigins, origin) || IsFalsy(origin) then Some(HeaderText(origin)) else None
  }

  /**
   * Where the middleware and the DELETE/OPTIONS handlers disagree: the only
   * origin the middleware lets through without the handler header is port
   * 53033, and the only one the handlers would answer but the middleware
   * refuses is port 50426.
   */
  lemma MiddlewareVersusHandlers(origin: Option<string>)
    ensures CorsCallback(origin) && PreflightAllowOrigin(origin).None?
        <==> origin == Some("http://localhost:53033")
    ensures !CorsCallback(origin) && PreflightAllowOrigin(origin).Some?
        <==> origin == Some("http://localhost:50426")
  {
  }

  /** GET and DELETE/OPTIONS disagree exactly on a falsy origin. */
  lemma ListVersusPreflight(origin: Option<string>)
    ensures ListAllowOrigin(origin) != PreflightAllowOrigin(origin) <==> IsFalsy(origin)
  {
  }

  /**
   * A same-origin request carries no `Origin` header: the middleware lets it
   * through, GET sets no header, and DELETE/OPTIONS write the text `undefined`.
   */
  lemma AbsentOrigin()
    ensures CorsCallback(None)
    ensures ListAllowOrigin(None) == None
    ensures PreflightAllowOrigin(None) == Some("undefined")
  {
  }

  /** A listed site is echoed everywhere; an unlisted one nowhere. */
  lemma ListedAndUnlisted()
    ensures CorsCallback(Some("https://movies.com"))
    ensures ListAllowOrigin(Some("https://movies.com")) == Some("https://movies.com")
    ensures !CorsCallback(Some("https://evil.example"))
    ensures ListAllowOrigin(Some("https://evil.example")) == None
    ensures PreflightAllowOrigin(Some("https://evil.example")) == None
  {
  }
}
