/** The configuration object that `RemixAuth(config)` captures and that its
    `loader` and `action` handlers update in place before every request. */
module RemixAuth {
  import opened Nullish
  import opened BasePath
  import opened Providers

  /** The shared `config`, reduced to the fields the adapter itself reads
      or writes: the mount base path and the provider list. */
  class AuthConfig {
    var basePath: Option<string>
    var providers: seq<ProviderEntry>

    /** A configuration as the embedding application supplies it: providers
        declared, no base path yet. */
    constructor (providers: seq<ProviderEntry>)
      ensures this.providers == providers && basePath.None?
    {
      this.providers := providers;
      basePath := None;
    }

    /** `loader` (and the identical `action`): derive the base path from the
        request's pathname and route parameters and overwrite
        `config.basePath` with it, after which the request is forwarded
        unchanged to the engine (`Ok`). When the derivation throws, nothing
        is forwarded and the base path is left as it was. */
    method Loader(pathname: string, params: seq<Option<string>>) returns (r: Result<()>)
      modifies this`basePath
      ensures r.Err? <==> |params| == 0 || params[0].None? || params[0].value == ""
      ensures r.Err? ==> r.message == MissingParamMessage && basePath == old(basePath)
      ensures r.Ok? ==> basePath.Some? && IsMountPrefix(pathname, params[0].value[0], basePath.value)
    {
      var derived := GetBasePath(pathname, params);
      if derived.Err? {
        return Err(derived.message);
      }
      basePath := Some(derived.value);
      r := Ok(());
    }
  }

  /** The shared configuration keeps only the last request's base path: a
      second request's `loader` overwrites what the first one derived, so a
      request still in flight for the first sees the second's mount point. */
  method LoaderOverwritesSharedBasePath(config: AuthConfig, p1: string, params1: seq<Option<string>>,
                                        p2: string, params2: seq<Option<string>>)
    requires GetBasePath(p2, params2).Ok?
    modifies config
    ensures config.basePath == Some(GetBasePath(p2, params2).value)
    ensures config.providers == old(config.providers)
  {
    var r1 := config.Loader(p1, params1);
    var r2 := config.Loader(p2, params2);
    MountPrefixUnique(p2, params2[0].value[0], config.basePath.value, GetBasePath(p2, params2).value);
  }
}
