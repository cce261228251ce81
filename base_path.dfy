/** `getBasePath`: the mount point of the authentication routes, derived from
    the request's URL pathname and the route's dynamic parameters.

    The source takes the value of the first route parameter, fails when it is
    undefined or empty, splits the pathname on the FIRST CHARACTER of that
    value (not on the whole value), keeps the part before the first split
    point and removes at most one trailing `/`. The lemmas at the end pin down
    what that means for a pathname `mount + "/" + value + rest`: the mount is
    recovered only when the mount does not contain that first character.
 */
module BasePath {
  import opened Nullish
  import opened Strings

  const MissingParamMessage: string := "Value of first params is undefined"

  /** `const [params] = Object.values(args.params)`: the first parameter value
      in enumeration order; a parameter whose value is undefined is `None`. */
  function FirstParamValue(params: seq<Option<string>>): (r: Option<string>)
    ensures |params| == 0 ==> r.None?
    ensures |params| > 0 ==> r == params[0]
  {
    if |params| == 0 then None else params[0]
  }

  /** `s.split(c)[0]`: the longest prefix of `s` free of `c`. */
  function BeforeFirst(s: string, c: char): (r: string)
    ensures r <= s
    ensures c !in r
    ensures |r| == |s| || s[|r|] == c
  {
    OccursAtChar(s, c);
    match IndexOf(s, [c])
    case Some(k) => s[..k]
    case None => s
  }

  /** `s.replace(/\/$/, "")`: one trailing slash removed, if there is one. */
  function StripTrailingSlash(s: string): (r: string)
    ensures r <= s
    ensures r == s <==> (s == [] || s[|s| - 1] != '/')
    ensures r != s ==> r + "/" == s
  {
    if |s| > 0 && s[|s| - 1] == '/' then s[..|s| - 1] else s
  }

  /** `b` is what the source derives from `pathname` when the first route
      parameter starts with `c`: a `c`-free prefix of the pathname that is
      followed either by the end or by `c` (and does not itself end in `/`),
      or by one `/` that is in turn followed by the end or by `c`. */
  ghost predicate IsMountPrefix(pathname: string, c: char, b: string) {
    && b <= pathname
    && c !in b
    && var rest := pathname[|b|..];
       || ((rest == [] || rest[0] == c) && (b == [] || b[|b| - 1] != '/'))
       || (|rest| > 0 && rest[0] == '/' && (|rest| == 1 || rest[1] == c))
  }

  /** `getBasePath(args)`: fails exactly when there is no first route
      parameter or its value is undefined or empty; otherwise returns the
      mount prefix of the pathname cut at the parameter's first character. */
  function GetBasePath(pathname: string, params: seq<Option<string>>): (r: Result<string>)
    ensures r.Err? <==> |params| == 0 || params[0].None? || params[0].value == ""
    ensures r.Err? ==> r.message == MissingParamMessage
    ensures r.Ok? ==> IsMountPrefix(pathname, params[0].value[0], r.value)
  {
    match FirstParamValue(params)
    case None => Err(MissingParamMessage)
    case Some(value) =>
      if value == "" then Err(MissingParamMessage)
      else Ok(StripTrailingSlash(BeforeFirst(pathname, value[0])))
  }

  /** The description `IsMountPrefix` admits at most one base path, so
      `GetBasePath` is fully determined by it. */
  lemma MountPrefixUnique(pathname: string, c: char, b1: string, b2: string)
    requires IsMountPrefix(pathname, c, b1)
    requires IsMountPrefix(pathname, c, b2)
    ensures b1 == b2
  {
    assert b1 == pathname[..|b1|] == b2;
  }

  /** A mount path that does not contain the parameter's first character
      (nor ends in `/`) is recovered exactly from `mount/value...`. */
  lemma MountRecovered(mount: string, value: string, rest: string, others: seq<Option<string>>)
    requires value != "" && value[0] != '/' && value[0] !in mount
    requires mount == [] || mount[|mount| - 1] != '/'
    ensures GetBasePath(mount + "/" + value + rest, [Some(value)] + others) == Ok(mount)
  {
    var pathname := mount + "/" + value + rest;
    var params := [Some(value)] + others;
    assert pathname[|mount|..] == "/" + value + rest;
    assert IsMountPrefix(pathname, value[0], mount);
    MountPrefixUnique(pathname, value[0], mount, GetBasePath(pathname, params).value);
  }

  /** The quirk: when the mount path contains the parameter's first
      character anywhere, the derived base path stops before that character
      and is strictly shorter than the mount path. */
  lemma EarlierOccurrenceTruncates(mount: string, value: string, rest: string, others: seq<Option<string>>, i: nat)
    requires value != "" && i < |mount| && mount[i] == value[0]
    ensures var r := GetBasePath(mount + "/" + value + rest, [Some(value)] + others);
            r.Ok? && r.value <= mount[..i] && |r.value| < |mount|
  {
    var pathname := mount + "/" + value + rest;
    var b := GetBasePath(pathname, [Some(value)] + others).value;
    assert pathname[i] == value[0];
    assert b == pathname[..|b|];
  }

  /** With the splat route mounted at `/auth`, `/auth/signin` gives `/auth`. */
  lemma ExampleAuthMount()
    ensures GetBasePath("/auth/signin", [Some("signin")]) == Ok("/auth")
  {
    assert "/auth/signin" == "/auth" + "/" + "signin" + "";
    MountRecovered("/auth", "signin", "", []);
  }

  /** Mounted at `/sessions/auth`, `/sessions/auth/signin` gives the empty
      base path: the `s` of `sessions` is the first split point. */
  lemma ExampleTruncatedMount()
    ensures GetBasePath("/sessions/auth/signin", [Some("signin")]) == Ok("")
  {
    var pathname := "/sessions/auth/signin";
    assert pathname[0] == '/' && pathname[1] == 's';
    assert IsMountPrefix(pathname, 's', "");
    MountPrefixUnique(pathname, 's', "", GetBasePath(pathname, [Some("signin")]).value);
  }
}
