# auth-remix adapter core, modelled in Dafny

auth-remix binds the Auth.js engine to Remix routes. Two variants exist, one
for the Node runtime (`src/node/index.ts`) and one for the Cloudflare edge
runtime (`src/cloudflare/index.ts`); the decision logic modelled here is shared by
both and is modelled once. Outside that logic the variants differ in when
they apply the environment defaults, from which environment (`process.env`
or `context.cloudflare.env`), through which `setEnvDefaults` (`@auth/core`'s
or an async local wrapper) and in the shape of the handlers' arguments; none
of that is modelled (see "Left out"):

- **Base-path derivation** (`getBasePath`): the mount point of the engine's
  routes, cut from the URL pathname at the first character of the first
  route parameter's value, with one trailing `/` removed
  (`base_path.dfy`). The lemmas pin down when the mount path is recovered
  and when an earlier occurrence of that character truncates it.
- **Callback-URL resolution** `redirectTo ?? Referer ?? "/"`, provider
  lookup (a first-match scan of `config.providers` where `options.id` and
  `options.type` override an entry's own), sign-in dispatch (redirect to the
  sign-in page, or a POST to the engine with the `signin` → `callback`
  rewrite for credentials providers), and the forwarded form body and
  headers of `signIn` and `signOut` (`auth_actions.dfy`, `providers.dfy`,
  `http.dfy`).
- **Result classification** of `getSession` (empty body → `null`, status 200
  → session, anything else → error with the engine's message) and
  `getCsrfToken` (error exactly when the response is not ok), and the
  requests those two send (`engine_results.dfy`).
- **The shared configuration** whose `basePath` field `loader`/`action`
  overwrite in place (`config.dfy`, class `AuthConfig`).
- JavaScript `??`, `undefined` and thrown errors as `Option`/`Result` values
  (`nullish.dfy`), and `indexOf`/`replace` with a string pattern
  (`strings.dfy`).

The engine (`Auth`), `createActionURL` and `setEnvDefaults` are foreign
calls: the URLs `createActionURL` builds, the serialised authorization
parameters and the engine's responses are inputs to the model, and the
model's outputs are the requests the adapter hands to the engine or the
redirects it returns.

Two behaviours of the code are easy to misread, and the model keeps them as
written:
- `getSession` returns `null` for an absent or empty body whatever the
  status, not only for status 200 (`EngineResults.EmptyBodyIsNullForAnyStatus`).
- The base path comes from the FIRST route parameter, and an empty first
  value is an error; the code does not look on for a later non-empty one.

## Model

| member | source | states |
|---|---|---|
| `BasePath.FirstParamValue` | src/node/index.ts:341 | the first value of `Object.values(params)`; undefined when there are no parameters (cloudflare/index.ts:352 is the same) |
| `BasePath.BeforeFirst` | src/node/index.ts:345 | `split(c)[0]` is the longest `c`-free prefix of the pathname: what follows it is the end or `c` |
| `BasePath.StripTrailingSlash` | src/node/index.ts:345 | `replace(/\/$/, "")` removes exactly one trailing `/` when there is one and leaves the string alone otherwise |
| `BasePath.GetBasePath` | src/cloudflare/index.ts:350-357 | throws "Value of first params is undefined" exactly when the first parameter is missing, undefined or empty; otherwise the result is a prefix of the pathname free of the parameter's first character, followed by that character, the end, or one `/` before either (node/index.ts:339-346 is the same) |
| `BasePath.MountPrefixUnique` | src/node/index.ts:345 | that description admits one base path only, so it determines `getBasePath`'s result |
| `BasePath.MountRecovered` | src/node/index.ts:345 | for a pathname `mount/value...` whose mount neither contains the value's first character nor ends in `/`, the base path is exactly the mount |
| `BasePath.EarlierOccurrenceTruncates` | src/node/index.ts:345 | when the mount contains the value's first character, the base path stops before its first occurrence and is strictly shorter than the mount |
| `BasePath.ExampleAuthMount` | src/node/index.ts:345 | `/auth/signin` with parameter `signin` gives `/auth` |
| `BasePath.ExampleTruncatedMount` | src/node/index.ts:345 | `/sessions/auth/signin` with parameter `signin` gives the empty base path |
| `Strings.ReplaceFirstAtFirstOccurrence` | src/node/index.ts:299 | `replace` with a string pattern rewrites the first occurrence of the pattern, and only that one |
| `Strings.ReplaceFirstWithoutOccurrence` | src/node/index.ts:299 | a URL without the pattern is left unchanged by `replace` |
| `Strings.ReplaceFirstKeepsSuffix` | src/node/index.ts:299 | if the pattern already occurs in `s`, the first occurrence in `s + t` is the same one and `t` survives the replacement |
| `Http.FromEntries` | src/node/index.ts:303 | `Object.fromEntries`: the keys are exactly the form's keys, each with the value of its last entry |
| `Http.FormBody` | src/node/index.ts:303 | the forwarded body has `callbackUrl` = the resolved callback URL, overriding a form field of that name, and every other form key with its last value, nothing else (also node/index.ts:325, cloudflare/index.ts:311 and 336) |
| `Http.ForwardedHeaders` | src/node/index.ts:302 | `Content-Type` is forced to `application/x-www-form-urlencoded`; every other header is copied and none is added (also node/index.ts:315, cloudflare/index.ts:310 and 325) |
| `Providers.EffectiveId` | src/node/index.ts:283 | `options.id` when defined, else the entry's own `id` |
| `Providers.EffectiveKind` | src/node/index.ts:287 | `options.type` when defined, else the entry's own `type` |
| `Providers.FindProvider` | src/node/index.ts:278-291 | the scan finds nothing exactly when no entry's effective id is the provider; otherwise it reports the provider and the effective type of the first matching entry (cloudflare/index.ts:286-299 is the same) |
| `AuthActions.ResolveCallbackUrl` | src/node/index.ts:261 | `redirectTo` whenever defined (even `""`), else the `Referer` header whenever present, else `/` (also node/index.ts:324, cloudflare/index.ts:268 and 335) |
| `Strings.ReplaceFirst` | src/node/index.ts:299 | `replace` with a string pattern: unchanged when the pattern does not occur; otherwise the text before the first occurrence kept, the replacement placed at that index, the text after the occurrence kept, nothing else changed (cloudflare/index.ts:307) |
| `AuthActions.ProviderUrl` | src/node/index.ts:275-277 | the provider URL extends the sign-in URL with `/provider?params` |
| `AuthActions.SignIn` | src/node/index.ts:250-308 | a redirect to the sign-in URL with the callback URL exactly when no (or an empty) provider is given or no entry matches; otherwise a POST with form headers and the form body plus callback URL, to the provider URL, rewritten `signin` → `callback` at its first occurrence exactly when the first matching entry's type is `credentials` (cloudflare/index.ts:255-316 is the same) |
| `AuthActions.CredentialsRewriteKeepsProviderAndParams` | src/node/index.ts:298-300 | when the sign-in URL contains `signin`, the rewrite happens inside it and the provider and authorization parameters are kept (cloudflare/index.ts:306-308) |
| `AuthActions.CredentialsRewriteHitsFirstOccurrence` | src/node/index.ts:299 | whenever no `signin` precedes it, the first `signin` of the whole URL is rewritten, so in `https://signin.example.com/auth/signin` the host becomes `callback.example.com` while the path segment stays |
| `AuthActions.SignOut` | src/node/index.ts:310-331 | a POST to the sign-out URL whose headers are the request's with the form content type set and no other header added, every other header copied unchanged, and whose body holds exactly the form's keys (each with its last value, `csrfToken` included) plus `callbackUrl` = the resolved callback URL, the same whether `Referer` is read before or after the content type is set (cloudflare/index.ts:318-342) |
| `EngineResults.IsOk` | src/node/index.ts:217 | `response.ok`: true for an absent status (defaulted to 200), otherwise exactly when the status lies in 200-299 (cloudflare/index.ts:220) |
| `EngineResults.EffectiveStatus` | src/node/index.ts:240 | the response status, 200 when absent |
| `EngineResults.ErrorMessage` | src/node/index.ts:246 | the thrown error's message is the body's `message`, or empty when there is none |
| `EngineResults.SessionRequest` | src/node/index.ts:235-238 | the session request is a GET carrying only a `cookie` header, the caller's cookie or the empty string (cloudflare/index.ts:240-243) |
| `EngineResults.CsrfRequest` | src/node/index.ts:212-215 | the CSRF request is a GET with no headers and no body (cloudflare/index.ts:215-218) |
| `EngineResults.ClassifySession` | src/node/index.ts:240-246 | `null` exactly when the body is absent or empty; the session (the body unchanged) exactly when it is non-empty and the status is 200; an error with the body's message exactly otherwise (cloudflare/index.ts:245-251) |
| `EngineResults.EmptyBodyIsNullForAnyStatus` | src/node/index.ts:244 | an empty body is `null` even under an error status |
| `EngineResults.ClassifyCsrf` | src/cloudflare/index.ts:220-223 | an error exactly when the response is not ok (status outside 200-299), otherwise the response itself, unchanged (node/index.ts:217-220) |
| `RemixAuth.AuthConfig.constructor` | src/node/index.ts:187 | the configuration as supplied: providers declared, no base path |
| `RemixAuth.AuthConfig.Loader` | src/node/index.ts:188-198 | fails exactly when `getBasePath` throws, leaving `basePath` as it was; otherwise overwrites `basePath` with the derived mount prefix (`action` is the same handler; cloudflare/index.ts:187-199) |
| `RemixAuth.LoaderOverwritesSharedBasePath` | src/node/index.ts:189 | two requests through the same configuration leave the second's base path in it, whatever the first derived and even when the first threw |

## Left out

- `Auth` (the engine), `createActionURL` and both `setEnvDefaults` are foreign calls: their outputs are inputs here, and `setEnvDefaults`'s changes to the configuration are not represented. So the differences between the variants in where they apply the environment defaults are not captured: the Cloudflare `loader`/`action` apply them before deriving the base path (and so even when that derivation throws), the Node ones after; and the Cloudflare `signIn` and `signOut` apply them on every call (src/cloudflare/index.ts:262, 323), while the Node `signIn` and `signOut` never call `setEnvDefaults` (src/node/index.ts:250-331).
- The environment the defaults and `createActionURL` read: `process.env` in the Node variant (src/node/index.ts:190, 208), `context.cloudflare.env` in the Cloudflare one (src/cloudflare/index.ts:189, 211). Environment variables are not represented; the URLs derived from them are inputs.
- Which `setEnvDefaults` runs: the Node variant imports `@auth/core`'s (src/node/index.ts:167), the Cloudflare one the async wrapper in src/lib/utils.ts (src/cloudflare/index.ts:174), which also resolves `config.adapter`; both are foreign calls here.
- The handlers' argument shape (a `Request` in the Node variant, `{ request, context }` in the Cloudflare one): the model takes the request's pathname, route parameters and headers directly.
- src/lib/utils.ts (the Cloudflare wrapper of `setEnvDefaults` and its awaited adapter factory, itself not awaited by the callers) and src/lib/types.ts (a type alias) are not part of this model.
- The protocol passed to `createActionURL` (`x-forwarded-proto` header, else the request URL's protocol) only feeds that foreign call.
- URL parsing and `URLSearchParams` serialisation (percent-encoding, `&`-joining, field order): the pathname is an input, the authorization parameters arrive serialised, bodies are maps. Both sign-in redirects are modelled as "the sign-in URL with `callbackUrl`"; the source appends to the URL's search parameters in one branch and concatenates `?` in the other, which differ only for a sign-in URL that already has a query.
- Strings are sequences of UTF-16 code units taken as characters; header names are assumed already lower-cased, as the `Headers` API compares them; route parameters arrive in `Object.values` enumeration order.
- Provider entries declared as factories are taken as the records they evaluate to; entry fields other than `id`, `type` and `options` are not read by the adapter.
- Form entries holding files and JSON bodies with non-string values or non-object shapes are not modelled: forms are string pairs, JSON bodies string maps.
- The response that `loader`, `action`, `signIn` and `signOut` return is the engine's; the model returns the request handed to the engine (or `Ok(())` for `loader`).
- `EngineResults.ClassifyCsrf`: when the failing response's body is `null`, the source throws a `TypeError` while reading `.message`; the model reports an error with the empty message instead.
- `EngineResults.EffectiveStatus`: a `Response` always carries a status, so the default of 200 only matters for the destructuring in `getSession`; `response.ok` is computed from the same effective status.
- The race on the shared configuration between concurrent requests: only its sequential consequence is stated (`RemixAuth.LoaderOverwritesSharedBasePath`).
- The React/Remix example routes and the sample configuration of the repository's example app contain no adapter logic.
- The round trip "sign in, then `getSession` shows the authorized profile" is a property of the engine.
