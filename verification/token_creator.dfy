/**
 * The registry token service's request analysis: parsing an image name
 * out of a scope, the access filters that cut a resource's requested
 * actions down to what the user may do, the read/write/manage permission
 * ladder, the scope query parsing, and the authentication rule of Create.
 */
module TokenCreator {
  import opened Wrappers
  import opened GoStrings

  /** The parsed image: namespace (the project), repository and tag. */
  datatype Image = Image(namespace: string, repo: string, tag: string)

  datatype ParseError = NoSlash | EndpointMismatch

  /**
   * parseImg: "<namespace>/<repo>[:<tag>]". The namespace ends at the first
   * '/', the repository at the first ':' after it; no ':' leaves the tag empty.
   */
  function ParseImg(s: string): (r: Result<Image, ParseError>)
    ensures r == Err(NoSlash) <==> '/' !in s
    ensures r.Ok? ==>
      '/' !in r.value.namespace && ':' !in r.value.repo
      && (s == r.value.namespace + "/" + r.value.repo + ":" + r.value.tag
          || (s == r.value.namespace + "/" + r.value.repo && r.value.tag == ""))
  {
    var repo := SplitFirst(s, '/');
    if |repo| < 2 then Err(NoSlash)
    else
      var i := SplitFirst(repo[1], ':');
      var img := Image(repo[0], i[0], if |i| == 2 then i[1] else "");
      assert s == repo[0] + "/" + repo[1];
      assert |i| == 2 ==> s == img.namespace + "/" + img.repo + ":" + img.tag by {
        if |i| == 2 {
          SplitTwice(s, repo[0], repo[1], i[0], i[1]);
        }
      }
      Ok(img)
  }

  lemma SplitTwice(s: string, a: string, b: string, x: string, y: string)
    requires s == a + "/" + b && b == x + ":" + y
    ensures s == a + "/" + x + ":" + y
  {
  }

  /** The name an image is written as; an empty tag is left off. */
  function FormatImg(img: Image): string {
    img.namespace + "/" + img.repo + (if img.tag == "" then "" else ":" + img.tag)
  }

  /** Parsing a written image gives it back, when its namespace has no '/' and its repository no ':'. */
  lemma ParseFormatImg(img: Image)
    requires '/' !in img.namespace && ':' !in img.repo
    ensures ParseImg(FormatImg(img)) == Ok(img)
  {
    var rest := img.repo + (if img.tag == "" then "" else ":" + img.tag);
    assert FormatImg(img) == img.namespace + ['/'] + rest;
    IndexOfAfter(img.namespace, rest, '/');
    if img.tag == "" {
      assert rest == img.repo;
    } else {
      assert rest == img.repo + [':'] + img.tag;
      IndexOfAfter(img.repo, img.tag, ':');
    }
  }

  /** How a repository filter reads a resource name: plainly, or after a leading endpoint segment. */
  datatype ImageParser = BasicParser | EndpointParser(endpoint: string)

  /** basicParser.parse and endpointParser.parse. */
  function Parse(p: ImageParser, s: string): (r: Result<Image, ParseError>)
    ensures p.BasicParser? ==> r == ParseImg(s)
    ensures p.EndpointParser? && '/' !in s ==> r == Err(NoSlash)
  {
    match p
      case BasicParser => ParseImg(s)
      case EndpointParser(endpoint) =>
        var repo := SplitFirst(s, '/');
        if |repo| < 2 then Err(NoSlash)
        else if repo[0] != endpoint then Err(EndpointMismatch)
        else ParseImg(repo[1])
  }

  /** The endpoint parser strips its own endpoint and parses the rest; any other first segment is refused. */
  lemma EndpointParse(endpoint: string, first: string, rest: string)
    requires '/' !in endpoint && '/' !in first
    ensures Parse(EndpointParser(endpoint), first + "/" + rest) ==
      if first == endpoint then ParseImg(rest) else Err(EndpointMismatch)
  {
    assert first + "/" + rest == first + ['/'] + rest;
    IndexOfAfter(first, rest, '/');
  }

  // ---- the permission ladder ----

  /**
   * The security context's answers the filters consult; the permission
   * functions take a project name.
   */
  datatype SecurityContext = SecurityContext(
    authenticated: bool,
    sysAdmin: bool,
    hasAllPerm: string -> bool,
    hasWritePerm: string -> bool,
    hasReadPerm: string -> bool)

  /**
   * The permission a user has on a project: "RWM" with all permissions,
   * else "RW" with write, else "R" with read, else "".
   */
  function Permission(ctx: SecurityContext, project: string): (perm: string)
    ensures |perm| <= 3 && perm == "RWM"[..|perm|]
    ensures |perm| == 3 <==> ctx.hasAllPerm(project)
    ensures |perm| == 2 <==> !ctx.hasAllPerm(project) && ctx.hasWritePerm(project)
    ensures |perm| == 1 <==> !ctx.hasAllPerm(project) && !ctx.hasWritePerm(project) && ctx.hasReadPerm(project)
  {
    if ctx.hasAllPerm(project) then "RWM"
    else if ctx.hasWritePerm(project) then "RW"
    else if ctx.hasReadPerm(project) then "R"
    else ""
  }

  /** A stronger permission never yields a shorter permission string. */
  lemma PermissionMonotone(weaker: SecurityContext, stronger: SecurityContext, project: string)
    requires weaker.hasAllPerm(project) ==> stronger.hasAllPerm(project)
    requires weaker.hasWritePerm(project) ==> stronger.hasAllPerm(project) || stronger.hasWritePerm(project)
    requires weaker.hasReadPerm(project) ==>
      stronger.hasAllPerm(project) || stronger.hasWritePerm(project) || stronger.hasReadPerm(project)
    ensures |Permission(weaker, project)| <= |Permission(stronger, project)|
  {
  }

  // ---- the access filters ----

  /** token.ResourceActions: a requested resource and the actions granted on it, narrowed in place. */
  class ResourceActions {
    var typ: string
    var name: string
    var actions: seq<string>

    constructor(typ: string, name: string, actions: seq<string>)
      ensures this.typ == typ && this.name == name && this.actions == actions
    {
      this.typ := typ;
      this.name := name;
      this.actions := actions;
    }
  }

  datatype FilterError = NotCatalog(typ: string, name: string) | ParseFailed(cause: ParseError) | LookupFailed

  const CatalogName: string := "catalog"

  /** registryFilter.filter: only the catalog can be asked for, and only an administrator keeps its actions. */
  method RegistryFilter(ctx: SecurityContext, a: ResourceActions) returns (err: Option<FilterError>)
    modifies a
    ensures a.typ == old(a.typ) && a.name == old(a.name)
    ensures a.name != CatalogName ==> err == Some(NotCatalog(a.typ, a.name)) && a.actions == old(a.actions)
    ensures a.name == CatalogName ==> err.None? && a.actions == (if ctx.sysAdmin then old(a.actions) else [])
  {
    if a.name != CatalogName {
      return Some(NotCatalog(a.typ, a.name));
    }
    if !ctx.sysAdmin {
      a.actions := [];
    }
    return None;
  }

  /**
   * repositoryFilter.filter. `projectExists` is the project manager's
   * answer (None: the lookup failed); `permToActions` turns a permission
   * string into registry actions.
   */
  method RepositoryFilter(parser: ImageParser, ctx: SecurityContext, projectExists: string -> Option<bool>,
                          permToActions: string -> seq<string>, a: ResourceActions)
    returns (err: Option<FilterError>)
    modifies a
    ensures a.typ == old(a.typ) && a.name == old(a.name)
    ensures Parse(parser, a.name).Err? ==>
      err == Some(ParseFailed(Parse(parser, a.name).error)) && a.actions == old(a.actions)
    ensures Parse(parser, a.name).Ok? ==>
      var project := Parse(parser, a.name).value.namespace;
      match projectExists(project)
        case None => err == Some(LookupFailed) && a.actions == old(a.actions)
        case Some(false) => err.None? && a.actions == []
        case Some(true) => err.None? && a.actions == permToActions(Permission(ctx, project))
  {
    var img := Parse(parser, a.name);
    if img.Err? {
      return Some(ParseFailed(img.error));
    }
    var project := img.value.namespace;
    var exist := projectExists(project);
    if exist.None? {
      return Some(LookupFailed);
    }
    if !exist.value {
      a.actions := [];
      return None;
    }
    var permission := "";
    if ctx.hasAllPerm(project) {
      permission := "RWM";
    } else if ctx.hasWritePerm(project) {
      permission := "RW";
    } else if ctx.hasReadPerm(project) {
      permission := "R";
    }
    a.actions := permToActions(permission);
    return None;
  }

  // ---- parseScopes and Create ----

  /** The scopes of a token request: every scope query value split on spaces, in query order. */
  function ScopesOf(values: seq<string>): seq<string> {
    if values == [] then [] else ScopesOf(values[..|values| - 1]) + Split(values[|values| - 1], ' ')
  }

  /** parseScopes over the values of the "scope" query parameter. */
  method ParseScopes(values: seq<string>) returns (result: seq<string>)
    ensures result == ScopesOf(values)
  {
    result := [];
    var k := 0;
    while k < |values|
      invariant 0 <= k <= |values|
      invariant result == ScopesOf(values[..k])
    {
      assert values[..k + 1][..k] == values[..k];
      result := result + Split(values[k], ' ');
      k := k + 1;
    }
    assert values[..k] == values;
  }

  /** No parsed scope contains a space, and every query value yields at least one scope. */
  lemma {:induction false} ScopesOfFacts(values: seq<string>)
    ensures forall k :: 0 <= k < |ScopesOf(values)| ==> ' ' !in ScopesOf(values)[k]
    ensures |ScopesOf(values)| >= |values|
  {
    if values != [] {
      ScopesOfFacts(values[..|values| - 1]);
    }
  }

  /** Joining the scopes of one query value with spaces gives the value back. */
  lemma OneValueRoundTrip(value: string)
    ensures |ScopesOf([value])| >= 1 && Join(ScopesOf([value]), ' ') == value
  {
    assert [value][..0] == [];
    assert ScopesOf([value]) == Split(value, ' ');
    JoinSplit(value, ' ');
  }

  datatype CreateError = NoSecurityContext | NoProjectManager | Unauthorized

  /**
   * The checks generalCreator.Create makes before it filters the requested
   * access: None means it goes on to the filters.
   */
  function CreateGate(scopes: seq<string>, ctx: Option<SecurityContext>, pmFound: bool): (r: Option<CreateError>)
    ensures r == Some(Unauthorized) <==> ctx.Some? && pmFound && !ctx.value.authenticated && scopes == []
    ensures r.None? <==> ctx.Some? && pmFound && (ctx.value.authenticated || scopes != [])
  {
    if ctx.None? then Some(NoSecurityContext)
    else if !pmFound then Some(NoProjectManager)
    else if !ctx.value.authenticated && |scopes| == 0 then Some(Unauthorized)
    else None
  }

  /** An anonymous request that names at least one scope (an anonymous pull) is let through to the filters. */
  lemma AnonymousPullPassesGate(values: seq<string>, ctx: SecurityContext)
    requires values != []
    ensures CreateGate(ScopesOf(values), Some(ctx), true).None?
  {
    ScopesOfFacts(values);
  }
}
