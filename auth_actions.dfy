/** `signIn` and `signOut`: what the adapter sends to the authentication
    engine, or where it redirects, for an already-parsed request.

    The URLs that `createActionURL` builds for the engine's `signin` and
    `signout` endpoints are inputs, as is the serialised query of the
    authorization parameters. A redirect to the sign-in page is described by
    its target and the `callbackUrl` query value it carries.
 */
module AuthActions {
  import opened Nullish
  import opened Strings
  import opened Http
  import opened Providers

  const CredentialsType: string := "credentials"
  const SignInSegment: string := "signin"
  const CallbackSegment: string := "callback"

  /** What `signIn` hands back: a redirect to the sign-in page carrying the
      callback URL, or the POST it forwards to the engine. */
  datatype SignInOutcome =
    | RedirectToSignIn(signInUrl: string, callbackUrl: string)
    | Forward(request: EngineRequest)

  /** `redirectTo ?? headers.get("Referer") ?? "/"`: a defined `redirectTo`
      wins even when it is empty; the `Referer` header likewise. */
  function ResolveCallbackUrl(redirectTo: Option<string>, headers: Headers): (r: string)
    ensures redirectTo.Some? ==> r == redirectTo.value
    ensures redirectTo.None? && RefererHeader in headers ==> r == headers[RefererHeader]
    ensures redirectTo.None? && RefererHeader !in headers ==> r == "/"
  {
    Coalesce(redirectTo, Coalesce(HeaderValue(headers, RefererHeader), "/"))
  }

  /** `${signInURL}/${provider}?${new URLSearchParams(authorizationParams)}` */
  function ProviderUrl(signInUrl: string, provider: string, authQuery: string): (r: string)
    ensures signInUrl <= r
    ensures r[|signInUrl|..] == "/" + provider + "?" + authQuery
  {
    signInUrl + ("/" + provider + "?" + authQuery)
  }

  /** `signIn(req, provider, { redirectTo }, authorizationParams)`.
      No provider (or the empty one), or one that no configured entry
      matches: a redirect to the sign-in page with the resolved callback URL,
      and nothing is forwarded. Otherwise a POST to the provider's URL, with
      the first `signin` of that URL turned into `callback` exactly when the
      first matching entry is a credentials provider, the request headers
      with a form content type, and the form body with the callback URL. */
  method SignIn(providers: seq<ProviderEntry>, headers: Headers, provider: Option<string>,
                redirectTo: Option<string>, signInUrl: string, authQuery: string,
                form: seq<(string, string)>)
    returns (outcome: SignInOutcome)
    ensures outcome.RedirectToSignIn? <==>
              provider.None? || provider.value == "" || NoProviderMatches(providers, provider.value)
    ensures outcome.RedirectToSignIn? ==>
              outcome == RedirectToSignIn(signInUrl, ResolveCallbackUrl(redirectTo, headers))
    ensures outcome.Forward? ==>
              && outcome.request.verb == Post
              && outcome.request.headers == ForwardedHeaders(headers)
              && outcome.request.body == FormBody(form, ResolveCallbackUrl(redirectTo, headers))
              && exists i :: IsFirstMatch(providers, provider.value, i) &&
                   var target := ProviderUrl(signInUrl, provider.value, authQuery);
                   outcome.request.url ==
                     if EffectiveKind(providers[i]) == Some(CredentialsType)
                     then ReplaceFirst(target, SignInSegment, CallbackSegment)
                     else target
  {
    var callbackUrl := ResolveCallbackUrl(redirectTo, headers);
    if provider.None? || provider.value == "" {
      return RedirectToSignIn(signInUrl, callbackUrl);
    }
    var url := ProviderUrl(signInUrl, provider.value, authQuery);
    var found := FindProvider(providers, provider.value);
    if found.None? || found.value.id == "" {
      return RedirectToSignIn(signInUrl, callbackUrl);
    }
    if found.value.kind == Some(CredentialsType) {
      url := ReplaceFirst(url, SignInSegment, CallbackSegment);
    }
    var body := FormBody(form, callbackUrl);
    outcome := Forward(EngineRequest(Post, url, ForwardedHeaders(headers), body));
  }

  /** For a credentials provider the rewrite lands inside the sign-in URL
      whenever that URL contains `signin` at all: the provider segment and
      the authorization parameters are carried over unchanged. */
  lemma CredentialsRewriteKeepsProviderAndParams(signInUrl: string, provider: string, authQuery: string)
    requires IndexOf(signInUrl, SignInSegment).Some?
    ensures ReplaceFirst(ProviderUrl(signInUrl, provider, authQuery), SignInSegment, CallbackSegment)
            == ReplaceFirst(signInUrl, SignInSegment, CallbackSegment) + ("/" + provider + "?" + authQuery)
  {
    ReplaceFirstKeepsSuffix(signInUrl, "/" + provider + "?" + authQuery, SignInSegment, CallbackSegment);
  }

  /** The rewrite is not confined to the path: it hits the first `signin`
      of the whole URL. With `prefix` = `https://` and `rest` =
      `.example.com/auth/signin`, the host `signin.example.com` becomes
      `callback.example.com` and the engine's `signin` path segment stays. */
  lemma CredentialsRewriteHitsFirstOccurrence(prefix: string, rest: string, provider: string, authQuery: string)
    requires IndexOf(prefix, SignInSegment).None?
    ensures ReplaceFirst(ProviderUrl(prefix + SignInSegment + rest, provider, authQuery), SignInSegment, CallbackSegment)
            == prefix + CallbackSegment + rest + ("/" + provider + "?" + authQuery)
  {
    var u := prefix + SignInSegment + rest;
    var k := |prefix|;
    assert u == prefix + (SignInSegment + rest);
    forall j | 0 <= j < k
      ensures !OccursAt(u, SignInSegment, j)
    {
      if j + 6 <= k {
        OccursInPrefix(prefix, SignInSegment + rest, SignInSegment, j);
      } else {
        // an occurrence straddling `k` would need an `s` at an index 1..5 of `signin`
        assert u[j..j + 6][k - j] == u[k] == 's';
        assert SignInSegment[k - j] != 's';
      }
    }
    assert OccursAt(u, SignInSegment, k) by {
      assert u[k..k + 6] == SignInSegment;
    }
    IsIndexOf(u, SignInSegment, k);
    ReplaceFirstKeepsSuffix(u, "/" + provider + "?" + authQuery, SignInSegment, CallbackSegment);
    ReplaceFirstAtFirstOccurrence(u, SignInSegment, CallbackSegment, k);
    assert u[..k] == prefix && u[k + 6..] == rest;
  }

  /** `signOut(req, { redirectTo })`: a POST to the sign-out URL whose
      headers are the request's with a form content type and whose body is
      the form with `callbackUrl` set to the resolved callback URL. Reading
      `Referer` after the content type was forced gives the same callback
      URL as reading it from the original headers. */
  function SignOut(signOutUrl: string, headers: Headers, redirectTo: Option<string>,
                   form: seq<(string, string)>): (req: EngineRequest)
    ensures req.verb == Post && req.url == signOutUrl
    ensures ContentTypeHeader in req.headers && req.headers[ContentTypeHeader] == FormUrlEncoded
    ensures forall k :: k != ContentTypeHeader && k in headers ==> k in req.headers && req.headers[k] == headers[k]
    ensures forall k :: k in req.headers ==> k == ContentTypeHeader || k in headers
    ensures req.headers == ForwardedHeaders(headers)
    ensures CallbackUrlField in req.body && req.body[CallbackUrlField] == ResolveCallbackUrl(redirectTo, headers)
    ensures forall k :: k != CallbackUrlField ==>
              (k in req.body <==> exists i :: 0 <= i < |form| && form[i].0 == k)
    ensures forall i :: 0 <= i < |form| && form[i].0 != CallbackUrlField && IsLastForKey(form, i) ==>
              req.body[form[i].0] == form[i].1
    ensures req.body == FormBody(form, ResolveCallbackUrl(redirectTo, headers))
  {
    var forwarded := ForwardedHeaders(headers);
    var callbackUrl := ResolveCallbackUrl(redirectTo, forwarded);
    EngineRequest(Post, signOutUrl, forwarded, FormBody(form, callbackUrl))
  }
}
