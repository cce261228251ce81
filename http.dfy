/** The request and response shapes the adapter builds and inspects, already
    parsed: header lists as maps keyed by lower-case header name (the
    `Headers` API compares names case-insensitively), form bodies as the
    ordered list of their entries, JSON bodies as string maps.
 */
module Http {
  import opened Nullish

  /** Header name (lower case) to value. */
  type Headers = map<string, string>

  const ContentTypeHeader: string := "content-type"
  const RefererHeader: string := "referer"
  const CookieHeader: string := "cookie"
  const FormUrlEncoded: string := "application/x-www-form-urlencoded"
  const CallbackUrlField: string := "callbackUrl"

  datatype HttpMethod = Get | Post

  /** A request handed to the authentication engine. */
  datatype EngineRequest = EngineRequest(
    verb: HttpMethod,
    url: string,
    headers: Headers,
    body: map<string, string>)

  /** What the adapter reads of an engine response: the status (absent when
      the response carries none) and the parsed JSON body (absent when it
      is `null` or otherwise falsy). */
  datatype EngineResponse = EngineResponse(
    status: Option<int>,
    body: Option<map<string, string>>)

  /** `headers.get(name)`: `null` when the header is absent. */
  function HeaderValue(h: Headers, name: string): (r: Option<string>)
    ensures r.Some? <==> name in h
    ensures r.Some? ==> r.value == h[name]
  {
    if name in h then Some(h[name]) else None
  }

  /** Entry `i` is the last entry of the list with its key. */
  ghost predicate IsLastForKey(entries: seq<(string, string)>, i: int)
    requires 0 <= i < |entries|
  {
    forall j :: i < j < |entries| ==> entries[j].0 != entries[i].0
  }

  /** `Object.fromEntries(formData)`: every key of the list, each with the
      value of its LAST entry (a later duplicate overwrites an earlier one). */
  function FromEntries(entries: seq<(string, string)>): (r: map<string, string>)
    ensures forall k :: k in r <==> exists i :: 0 <= i < |entries| && entries[i].0 == k
    ensures forall i :: 0 <= i < |entries| && IsLastForKey(entries, i) ==> r[entries[i].0] == entries[i].1
    decreases |entries|
  {
    if |entries| == 0 then
      map[]
    else
      var init, last := entries[..|entries| - 1], entries[|entries| - 1];
      LastForKeyInInit(entries);
      FromEntries(init)[last.0 := last.1]
  }

  /** Removing the final entry keeps every other entry's "last for its key"
      status, and such an entry's key differs from the final entry's. */
  lemma LastForKeyInInit(entries: seq<(string, string)>)
    requires |entries| > 0
    ensures var init := entries[..|entries| - 1];
            forall i :: 0 <= i < |init| ==> init[i] == entries[i]
    ensures var init := entries[..|entries| - 1];
            forall i :: 0 <= i < |init| && IsLastForKey(entries, i) ==>
              IsLastForKey(init, i) && entries[i].0 != entries[|entries| - 1].0
  {
  }

  /** `new URLSearchParams({ ...Object.fromEntries(form), callbackUrl })`, as a
      map: `callbackUrl` is always the resolved callback URL, overriding a
      form field of that name; every other form key keeps its last value. */
  function FormBody(form: seq<(string, string)>, callbackUrl: string): (r: map<string, string>)
    ensures CallbackUrlField in r && r[CallbackUrlField] == callbackUrl
    ensures forall k :: k != CallbackUrlField ==>
              (k in r <==> exists i :: 0 <= i < |form| && form[i].0 == k)
    ensures forall i :: 0 <= i < |form| && form[i].0 != CallbackUrlField && IsLastForKey(form, i) ==>
              r[form[i].0] == form[i].1
  {
    FromEntries(form)[CallbackUrlField := callbackUrl]
  }

  /** `new Headers(req.headers)` followed by `set("Content-Type", ...)`: the
      content type is forced to form encoding, every other header is copied
      and none is added. */
  function ForwardedHeaders(h: Headers): (r: Headers)
    ensures ContentTypeHeader in r && r[ContentTypeHeader] == FormUrlEncoded
    ensures forall k :: k != ContentTypeHeader ==> (k in r <==> k in h)
    ensures forall k :: k != ContentTypeHeader && k in h ==> r[k] == h[k]
  {
    h[ContentTypeHeader := FormUrlEncoded]
  }
}
