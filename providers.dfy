/** Provider lookup for `signIn`: a linear scan of `config.providers` that
    stops at the first entry whose effective id is the requested provider.

    An entry's effective id is its `options.id` when that is defined, else
    its own `id`; likewise for the type. Entries that the source declares as
    zero-argument factories are taken here as the records they evaluate to.
 */
module Providers {
  import opened Nullish

  /** The user-supplied overrides a provider factory keeps under `options`. */
  datatype ProviderOptions = ProviderOptions(id: Option<string>, kind: Option<string>)

  /** One entry of `config.providers`, reduced to what the lookup reads. */
  datatype ProviderEntry = ProviderEntry(id: Option<string>, kind: Option<string>, options: Option<ProviderOptions>)

  /** `foundProvider` after a successful scan. */
  datatype FoundProvider = FoundProvider(id: string, kind: Option<string>)

  /** `options?.id ?? defaults.id` */
  function EffectiveId(e: ProviderEntry): (r: Option<string>)
    ensures e.options.Some? && e.options.value.id.Some? ==> r == e.options.value.id
    ensures (e.options.None? || e.options.value.id.None?) ==> r == e.id
  {
    match e.options
    case Some(o) => if o.id.Some? then o.id else e.id
    case None => e.id
  }

  /** `options?.type ?? defaults.type` */
  function EffectiveKind(e: ProviderEntry): (r: Option<string>)
    ensures e.options.Some? && e.options.value.kind.Some? ==> r == e.options.value.kind
    ensures (e.options.None? || e.options.value.kind.None?) ==> r == e.kind
  {
    match e.options
    case Some(o) => if o.kind.Some? then o.kind else e.kind
    case None => e.kind
  }

  /** No entry's effective id is `provider`. */
  ghost predicate NoProviderMatches(providers: seq<ProviderEntry>, provider: string) {
    forall i :: 0 <= i < |providers| ==> EffectiveId(providers[i]) != Some(provider)
  }

  /** Entry `i` is the first one whose effective id is `provider`. */
  ghost predicate IsFirstMatch(providers: seq<ProviderEntry>, provider: string, i: int) {
    && 0 <= i < |providers|
    && EffectiveId(providers[i]) == Some(provider)
    && forall j :: 0 <= j < i ==> EffectiveId(providers[j]) != Some(provider)
  }

  /** The `for ... of config.providers` loop with `break`: finds nothing
      exactly when no entry matches, and otherwise reports the id and the
      effective type of the FIRST matching entry. */
  method FindProvider(providers: seq<ProviderEntry>, provider: string) returns (found: Option<FoundProvider>)
    ensures found.None? <==> NoProviderMatches(providers, provider)
    ensures found.Some? ==> exists i :: IsFirstMatch(providers, provider, i) &&
                                        found.value == FoundProvider(provider, EffectiveKind(providers[i]))
  {
    found := None;
    var i := 0;
    while i < |providers|
      invariant 0 <= i <= |providers|
      invariant forall j :: 0 <= j < i ==> EffectiveId(providers[j]) != Some(provider)
    {
      var entry := providers[i];
      var id := EffectiveId(entry);
      if id == Some(provider) {
        found := Some(FoundProvider(id.value, EffectiveKind(entry)));
        assert IsFirstMatch(providers, provider, i);
        break;
      }
      i := i + 1;
    }
  }
}
