/** `getSession` and `getCsrfToken`: the request the adapter sends to the
    engine's `session` and `csrf` endpoints, and how it classifies the
    engine's answer. A thrown `Error` is `Err(message)`; `getSession`'s
    `null` is `Ok(None)`.
 */
module EngineResults {
  import opened Nullish
  import opened Http

  const MessageField: string := "message"

  /** `const { status = 200 } = response` */
  function EffectiveStatus(r: EngineResponse): (s: int)
    ensures r.status.Some? ==> s == r.status.value
    ensures r.status.None? ==> s == 200
  {
    Coalesce(r.status, 200)
  }

  /** `response.ok`: the status is in the range 200 to 299. */
  function IsOk(r: EngineResponse): (ok: bool)
    ensures r.status.None? ==> ok
    ensures r.status.Some? ==> (ok <==> 200 <= r.status.value <= 299)
  {
    200 <= EffectiveStatus(r) <= 299
  }

  /** `new Error(data.message).message`: the body's `message`, or the empty
      string when the body has none. */
  function ErrorMessage(body: map<string, string>): (m: string)
    ensures MessageField in body ==> m == body[MessageField]
    ensures MessageField !in body ==> m == ""
  {
    if MessageField in body then body[MessageField] else ""
  }

  /** The session request: a GET to the `session` URL carrying only the
      caller's `Cookie` header (the empty string when there is none). */
  function SessionRequest(sessionUrl: string, headers: Headers): (req: EngineRequest)
    ensures req.verb == Get && req.url == sessionUrl && req.body == map[]
    ensures req.headers.Keys == {CookieHeader}
    ensures CookieHeader in headers ==> req.headers[CookieHeader] == headers[CookieHeader]
    ensures CookieHeader !in headers ==> req.headers[CookieHeader] == ""
  {
    EngineRequest(Get, sessionUrl, map[CookieHeader := Coalesce(HeaderValue(headers, CookieHeader), "")], map[])
  }

  /** The CSRF request: `new Request(url)`, a GET with no headers. */
  function CsrfRequest(csrfUrl: string): (req: EngineRequest)
    ensures req.verb == Get && req.url == csrfUrl
    ensures req.headers == map[] && req.body == map[]
  {
    EngineRequest(Get, csrfUrl, map[], map[])
  }

  /** `getSession`'s classification of the engine's answer. An absent or
      empty body is `null` whatever the status; a non-empty body is the
      session when the status (200 by default) is 200, and is thrown as an
      error carrying its `message` otherwise. */
  function ClassifySession(r: EngineResponse): (out: Result<Option<map<string, string>>>)
    ensures out == Ok(None) <==> r.body.None? || |r.body.value| == 0
    ensures out.Ok? && out.value.Some? <==>
              r.body.Some? && |r.body.value| > 0 && EffectiveStatus(r) == 200
    ensures out.Ok? && out.value.Some? ==> out.value.value == r.body.value
    ensures out.Err? <==> r.body.Some? && |r.body.value| > 0 && EffectiveStatus(r) != 200
    ensures out.Err? ==> out.message == ErrorMessage(r.body.value)
  {
    match r.body
    case None => Ok(None)
    case Some(data) =>
      if |data| == 0 then Ok(None)
      else if EffectiveStatus(r) == 200 then Ok(Some(data))
      else Err(ErrorMessage(data))
  }

  /** An error status with an empty body is still "no session", not an
      error: the emptiness test comes before the status test. */
  lemma EmptyBodyIsNullForAnyStatus(status: Option<int>)
    ensures ClassifySession(EngineResponse(status, Some(map[]))) == Ok(None)
  {
  }

  /** `getCsrfToken`'s check: the engine's response is returned unchanged
      exactly when it is ok, and thrown as an error carrying the body's
      `message` otherwise. */
  function ClassifyCsrf(r: EngineResponse): (out: Result<EngineResponse>)
    ensures out.Ok? <==> IsOk(r)
    ensures out.Ok? ==> out.value == r
    ensures out.Err? ==> out.message == ErrorMessage(Coalesce(r.body, map[]))
  {
    if !IsOk(r) then Err(ErrorMessage(Coalesce(r.body, map[]))) else Ok(r)
  }
}
