/**
 * The Clair scan job: its retry settings, the properties it reads from the
 * job context before running, and the parent-linked chain of layers it
 * submits to Clair for an image manifest.
 */
module ClairJob {
  import opened Wrappers
  import opened GoStrings
  import JobWrapper
  import JobPool
  import JobModels

  /** ClairJob.MaxFails, ClairJob.ShouldRetry and ClairJob.Validate. */
  const ClairMaxFails: nat := 1
  const ClairShouldRetry: bool := false

  function Validate(params: map<string, string>): (err: Option<string>)
    ensures err.None?
  {
    None
  }

  /** The registration the pool keeps for the scan job. */
  function Registration(typeName: string): (j: JobPool.JobImpl)
    ensures j.implementsJob && j.maxFails == ClairMaxFails && !j.shouldRetry
  {
    JobPool.JobImpl(typeName, true, ClairMaxFails, ClairShouldRetry)
  }

  /**
   * With MaxFails 1 a failure always reaches the limit, so the wrapper's
   * retry-disabling rule never fires for the scan job: the backend's own
   * limit already stops it.
   */
  lemma ScanJobNeverNeedsRetryDisabled(fails: nat, cancelled: bool)
    ensures !JobWrapper.ShouldDisableRetry(ClairMaxFails, fails, ClairShouldRetry, cancelled)
  {
  }

  // ---- init ----

  /** The properties init reads, in the order it reads them. */
  datatype Property = RegistryURLProp | SecretProp | TokenServiceURLProp | ClairURLProp

  /** A context property that is present with a non-empty string value. */
  predicate Present(ctx: map<Property, string>, p: Property) {
    p in ctx && |ctx[p]| > 0
  }

  /**
   * The first property init finds missing or empty. `ctx` holds the job
   * context's properties; the secret comes from the JOBSERVICE_SECRET
   * environment variable.
   */
  function FirstMissing(ctx: map<Property, string>, envSecret: string): (r: Option<Property>)
    ensures r.None? <==> Present(ctx, RegistryURLProp) && |envSecret| > 0
                         && Present(ctx, TokenServiceURLProp) && Present(ctx, ClairURLProp)
    ensures r == Some(SecretProp) ==> Present(ctx, RegistryURLProp)
    ensures r == Some(TokenServiceURLProp) ==> Present(ctx, RegistryURLProp) && |envSecret| > 0
    ensures r == Some(ClairURLProp) ==>
      Present(ctx, RegistryURLProp) && |envSecret| > 0 && Present(ctx, TokenServiceURLProp)
  {
    if !Present(ctx, RegistryURLProp) then Some(RegistryURLProp)
    else if |envSecret| == 0 then Some(SecretProp)
    else if !Present(ctx, TokenServiceURLProp) then Some(TokenServiceURLProp)
    else if !Present(ctx, ClairURLProp) then Some(ClairURLProp)
    else None
  }

  /** Whether init gets as far as reading property p: every earlier property was found. */
  predicate Reaches(ctx: map<Property, string>, envSecret: string, p: Property) {
    match p
      case RegistryURLProp => true
      case SecretProp => Present(ctx, RegistryURLProp)
      case TokenServiceURLProp => Present(ctx, RegistryURLProp) && |envSecret| > 0
      case ClairURLProp => Present(ctx, RegistryURLProp) && |envSecret| > 0 && Present(ctx, TokenServiceURLProp)
  }

  class ScanJob {
    var registryURL: string
    var secret: string
    var tokenEndpoint: string
    var clairEndpoint: string

    constructor ()
      ensures registryURL == "" && secret == "" && tokenEndpoint == "" && clairEndpoint == ""
    {
      registryURL, secret, tokenEndpoint, clairEndpoint := "", "", "", "";
    }

    /** init: fills the fields in order and stops at the first missing property. */
    method Init(ctx: map<Property, string>, envSecret: string) returns (err: Option<Property>)
      modifies this
      ensures err == FirstMissing(ctx, envSecret)
      ensures registryURL == if Present(ctx, RegistryURLProp) then ctx[RegistryURLProp] else old(registryURL)
      ensures secret == if Reaches(ctx, envSecret, SecretProp) && |envSecret| > 0 then envSecret else old(secret)
      ensures tokenEndpoint ==
        if Reaches(ctx, envSecret, TokenServiceURLProp) && Present(ctx, TokenServiceURLProp)
        then ctx[TokenServiceURLProp] else old(tokenEndpoint)
      ensures clairEndpoint ==
        if Reaches(ctx, envSecret, ClairURLProp) && Present(ctx, ClairURLProp)
        then ctx[ClairURLProp] else old(clairEndpoint)
    {
      if Present(ctx, RegistryURLProp) {
        registryURL := ctx[RegistryURLProp];
      } else {
        return Some(RegistryURLProp);
      }
      if |envSecret| > 0 {
        secret := envSecret;
      } else {
        return Some(SecretProp);
      }
      if Present(ctx, TokenServiceURLProp) {
        tokenEndpoint := ctx[TokenServiceURLProp];
      } else {
        return Some(TokenServiceURLProp);
      }
      if Present(ctx, ClairURLProp) {
        clairEndpoint := ctx[ClairURLProp];
      } else {
        return Some(ClairURLProp);
      }
      return None;
    }
  }

  // ---- the layer chain ----

  /** schema2.MediaTypeConfig, the media type of an image configuration blob. */
  const MediaTypeConfig: string := "application/vnd.docker.container.image.v1+json"

  /** A reference listed by a manifest. */
  datatype Descriptor = Descriptor(mediaType: string, digest: string)

  datatype ClairLayer = ClairLayer(name: string, parentName: string, path: string,
                                   headers: map<string, string>, format: string)

  /** utils.BuildBlobURL. */
  function BuildBlobURL(endpoint: string, repository: string, digest: string): (u: string)
    ensures HasPrefix(u, endpoint + "/v2/" + repository) && HasSuffix(u, "/blobs/" + digest)
  {
    var u := endpoint + "/v2/" + repository + "/blobs/" + digest;
    assert u == (endpoint + "/v2/" + repository) + ("/blobs/" + digest);
    u
  }

  /** The headers Clair sends when it fetches a layer blob. */
  function TokenHeader(token: string): map<string, string> {
    map["Connection" := "close", "Authorization" := "Bearer " + token]
  }

  /** The digests of the references that are layers, in manifest order. */
  function LayerDigests(refs: seq<Descriptor>): (ds: seq<string>)
    ensures |ds| <= |refs|
  {
    if refs == [] then []
    else
      var last := refs[|refs| - 1];
      LayerDigests(refs[..|refs| - 1]) + (if last.mediaType == MediaTypeConfig then [] else [last.digest])
  }

  /** The string hashed to name a layer: every digest up to it, each followed by "-". */
  function Chain(ds: seq<string>): string {
    if ds == [] then "" else Chain(ds[..|ds| - 1]) + ds[|ds| - 1] + "-"
  }

  /**
   * The k-th layer of the chain. `hash` is the hex SHA-256 of a string,
   * which is not part of this model.
   */
  function LayerAt(ds: seq<string>, k: nat, registryURL: string, repo: string, token: string,
                   hash: string -> string): (l: ClairLayer)
    requires k < |ds|
    ensures l.name == hash(Chain(ds[..k + 1]))
    ensures l.parentName == if k == 0 then "" else hash(Chain(ds[..k]))
    ensures l.path == BuildBlobURL(registryURL, repo, ds[k])
    ensures l.headers.Keys == {"Connection", "Authorization"}
    ensures l.headers["Connection"] == "close" && l.headers["Authorization"] == "Bearer " + token
    ensures l.format == "Docker"
  {
    ClairLayer(hash(Chain(ds[..k + 1])), if k == 0 then "" else hash(Chain(ds[..k])),
               BuildBlobURL(registryURL, repo, ds[k]), TokenHeader(token), "Docker")
  }

  /** The layers of a chain built from the given digests. */
  predicate IsChain(layers: seq<ClairLayer>, ds: seq<string>, registryURL: string, repo: string, token: string,
                    hash: string -> string) {
    |layers| == |ds| && forall k :: 0 <= k < |ds| ==> layers[k] == LayerAt(ds, k, registryURL, repo, token, hash)
  }

  /** One more reference adds its digest to the chain unless it is the configuration. */
  lemma DigestsStep(refs: seq<Descriptor>, i: nat)
    requires i < |refs|
    ensures LayerDigests(refs[..i + 1]) ==
      LayerDigests(refs[..i]) + (if refs[i].mediaType == MediaTypeConfig then [] else [refs[i].digest])
  {
    assert refs[..i + 1][..i] == refs[..i];
  }

  /** Appending the layer for one more digest keeps a chain a chain. */
  lemma ChainStep(layers: seq<ClairLayer>, before: seq<string>, digest: string, l: ClairLayer,
                  registryURL: string, repo: string, token: string, hash: string -> string)
    requires IsChain(layers, before, registryURL, repo, token, hash)
    requires l.name == hash(Chain(before + [digest]))
    requires l.parentName == if |layers| > 0 then layers[|layers| - 1].name else ""
    requires l.path == BuildBlobURL(registryURL, repo, digest)
    requires l.headers == TokenHeader(token) && l.format == "Docker"
    ensures IsChain(layers + [l], before + [digest], registryURL, repo, token, hash)
  {
    var ds := before + [digest];
    forall k | 0 <= k < |before|
      ensures LayerAt(ds, k, registryURL, repo, token, hash) == LayerAt(before, k, registryURL, repo, token, hash)
    {
      assert ds[..k + 1] == before[..k + 1] && ds[..k] == before[..k];
    }
    assert ds[..|before| + 1] == ds;
    if |before| > 0 {
      assert layers[|layers| - 1] == LayerAt(before, |before| - 1, registryURL, repo, token, hash);
      assert ds[..|before|] == before[..|before| - 1 + 1];
    }
    assert l == LayerAt(ds, |before|, registryURL, repo, token, hash);
  }

  /** prepareLayers; `manifest` is None when the payload does not unmarshal. */
  method PrepareLayers(manifest: Option<seq<Descriptor>>, registryURL: string, repo: string, token: string,
                       hash: string -> string)
    returns (layers: seq<ClairLayer>, failed: bool)
    ensures failed <==> manifest.None?
    ensures failed ==> layers == []
    ensures !failed ==> IsChain(layers, LayerDigests(manifest.value), registryURL, repo, token, hash)
  {
    layers, failed := [], false;
    if manifest.None? {
      return layers, true;
    }
    var refs := manifest.value;
    var header := TokenHeader(token);
    var shaChain := "";
    var i := 0;
    while i < |refs|
      invariant 0 <= i <= |refs|
      invariant shaChain == Chain(LayerDigests(refs[..i]))
      invariant IsChain(layers, LayerDigests(refs[..i]), registryURL, repo, token, hash)
    {
      shaChain, layers := PrepareStep(refs, i, shaChain, layers, registryURL, repo, token, header, hash);
      i := i + 1;
    }
    assert refs[..i] == refs;
  }

  /**
   * One pass of prepareLayers' loop: the configuration is skipped, and any
   * other reference extends the digest chain and adds its layer.
   */
  method PrepareStep(refs: seq<Descriptor>, i: nat, shaChain: string, layers: seq<ClairLayer>,
                     registryURL: string, repo: string, token: string, header: map<string, string>,
                     hash: string -> string)
    returns (shaChain': string, layers': seq<ClairLayer>)
    requires i < |refs| && header == TokenHeader(token)
    requires shaChain == Chain(LayerDigests(refs[..i]))
    requires IsChain(layers, LayerDigests(refs[..i]), registryURL, repo, token, hash)
    ensures shaChain' == Chain(LayerDigests(refs[..i + 1]))
    ensures IsChain(layers', LayerDigests(refs[..i + 1]), registryURL, repo, token, hash)
  {
    var d := refs[i];
    ghost var before := LayerDigests(refs[..i]);
    DigestsStep(refs, i);
    if d.mediaType == MediaTypeConfig {
      assert before + [] == before;
      return shaChain, layers;
    }
    assert (before + [d.digest])[..|before|] == before;
    shaChain' := shaChain + d.digest + "-";
    var l := ClairLayer(hash(shaChain'), "", BuildBlobURL(registryURL, repo, d.digest), header, "Docker");
    if |layers| > 0 {
      l := l.(parentName := layers[|layers| - 1].name);
    }
    ChainStep(layers, before, d.digest, l, registryURL, repo, token, hash);
    layers' := layers + [l];
  }

  /** Each layer after the first names its predecessor as its parent; the first has none. */
  lemma ParentLinks(layers: seq<ClairLayer>, ds: seq<string>, registryURL: string, repo: string, token: string,
                    hash: string -> string)
    requires IsChain(layers, ds, registryURL, repo, token, hash)
    ensures |layers| > 0 ==> layers[0].parentName == ""
    ensures forall k :: 0 < k < |layers| ==> layers[k].parentName == layers[k - 1].name
  {
    forall k | 0 < k < |layers|
      ensures layers[k].parentName == layers[k - 1].name
    {
      assert layers[k - 1] == LayerAt(ds, k - 1, registryURL, repo, token, hash);
      assert layers[k] == LayerAt(ds, k, registryURL, repo, token, hash);
    }
  }

  /**
   * Two images whose layer digests start the same way get the same names
   * for those shared layers, so the names of a base image's layers are
   * re-used by images built on top of it.
   */
  lemma SharedBaseSharesNames(base: seq<string>, image: seq<string>, k: nat, registryURL: string, repo: string,
                              token: string, hash: string -> string)
    requires |base| <= |image| && image[..|base|] == base && k < |base|
    ensures LayerAt(base, k, registryURL, repo, token, hash).name == LayerAt(image, k, registryURL, repo, token, hash).name
  {
    assert image[..k + 1] == base[..k + 1];
  }

  /** A manifest whose only reference is the image configuration yields no layers. */
  lemma ConfigOnlyManifestHasNoLayers(config: Descriptor)
    requires config.mediaType == MediaTypeConfig
    ensures LayerDigests([config]) == []
  {
    assert [config][..0] == [];
  }

  // ---- the scan after the layers are prepared ----

  /**
   * ClairJob.Run after prepareLayers, as written: each layer is submitted
   * (`scanFailsAt` is the first one Clair refuses, if any), then the name
   * of the last layer is read without checking that there is one.
   */
  function RunAfterPrepareAsWritten(layers: seq<ClairLayer>, scanFailsAt: Option<nat>, resultOk: bool, updateOk: bool)
    : (o: JobWrapper.BodyOutcome)
    ensures |layers| == 0 && (scanFailsAt.None? || scanFailsAt.value >= |layers|) ==> o == JobWrapper.BodyPanicked
  {
    if scanFailsAt.Some? && scanFailsAt.value < |layers| then JobWrapper.BodyFailed
    else if |layers| == 0 then JobWrapper.BodyPanicked
    else if !resultOk || !updateOk then JobWrapper.BodyFailed
    else JobWrapper.BodySucceeded
  }

  /**
   * A scan of a manifest with no layers panics in the job body, and the
   * wrapper as written reports that panic to the work queue as success.
   */
  method ConfigOnlyScanIsReportedAsSuccess(config: Descriptor, registryURL: string, repo: string, token: string,
                                           hash: string -> string, unique: bool, fails: int)
    returns (res: JobWrapper.RunResult)
    requires config.mediaType == MediaTypeConfig
    ensures res.returned.None? && res.statuses == [JobModels.Running, JobModels.Error]
  {
    var layers, failed := PrepareLayers(Some([config]), registryURL, repo, token, hash);
    ConfigOnlyManifestHasNoLayers(config);
    var outcome := RunAfterPrepareAsWritten(layers, None, true, true);
    res := JobWrapper.RunAsWritten(true, unique, outcome, ClairMaxFails, ClairShouldRetry, fails);
  }

  /** The scan with the missing check added: no layers is an ordinary failure. */
  function RunAfterPrepare(layers: seq<ClairLayer>, scanFailsAt: Option<nat>, resultOk: bool, updateOk: bool)
    : (o: JobWrapper.BodyOutcome)
    ensures o != JobWrapper.BodyPanicked
    ensures o == JobWrapper.BodySucceeded <==>
      |layers| > 0 && (scanFailsAt.None? || scanFailsAt.value >= |layers|) && resultOk && updateOk
    ensures |layers| > 0 ==> o == RunAfterPrepareAsWritten(layers, scanFailsAt, resultOk, updateOk)
  {
    if scanFailsAt.Some? && scanFailsAt.value < |layers| then JobWrapper.BodyFailed
    else if |layers| == 0 then JobWrapper.BodyFailed
    else if !resultOk || !updateOk then JobWrapper.BodyFailed
    else JobWrapper.BodySucceeded
  }
}
