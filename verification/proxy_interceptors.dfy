/**
 * The registry proxy's interceptors: recognising manifest pulls and
 * catalog listings, the read-only gate, the image-information step, the
 * project policy lookups (which fail closed), the content-trust gate with
 * its Notary digest match, and the vulnerability gate.
 *
 * Every handler either passes the request to the next handler or answers
 * it with an error status; the model returns that verdict.
 */
module ProxyInterceptors {
  import opened Wrappers
  import opened GoStrings
  import opened Http
  import opened ClairUtils

  datatype Verdict = Pass | Refuse(status: int)

  // ---- request matching ----

  const DigestPrefix: string := "sha256:"

  /** isDigest: a reference is a digest when it is "sha256:" and 64 more characters. */
  predicate IsDigest(ref: string)
    ensures IsDigest(ref) ==> |ref| == |DigestPrefix| + 64 && ref[..|DigestPrefix|] == DigestPrefix
  {
    HasPrefix(ref, DigestPrefix) && |ref| == 71
  }

  /** A digest reference is exactly "sha256:" followed by 64 characters. */
  lemma DigestShape(ref: string)
    ensures IsDigest(ref) <==> exists hex :: |hex| == 64 && ref == DigestPrefix + hex
  {
    if IsDigest(ref) {
      assert ref == DigestPrefix + ref[7..];
    }
  }

  /** A tag name shorter than a digest is never taken for one. */
  lemma ShortRefIsTag(ref: string)
    requires |ref| < 71
    ensures !IsDigest(ref)
  {
  }

  /**
   * The two sub-matches of manifestURLPattern on a path: the repository
   * with its trailing '/', and the reference. The regular expression is
   * a parameter.
   */
  type ManifestPattern = string -> Option<(string, string)>

  datatype ManifestMatch = ManifestMatch(matched: bool, repository: string, reference: string)

  /** MatchPullManifest: a GET whose path matches the manifest pattern, with the repository's trailing '/' dropped. */
  function MatchPullManifest(m: Method, path: string, pattern: ManifestPattern): (r: ManifestMatch)
    ensures r.matched <==> m == GET && pattern(path).Some?
    ensures !r.matched ==> r.repository == "" && r.reference == ""
    ensures r.matched ==>
      r.reference == pattern(path).value.1
      && (HasSuffix(pattern(path).value.0, "/") ==> r.repository + "/" == pattern(path).value.0)
      && (!HasSuffix(pattern(path).value.0, "/") ==> r.repository == pattern(path).value.0)
  {
    if m != GET then ManifestMatch(false, "", "")
    else match pattern(path)
      case Some((repo, ref)) => ManifestMatch(true, TrimSuffix(repo, "/"), ref)
      case None => ManifestMatch(false, "", "")
  }

  const CatalogURLPattern: string := "/v2/_catalog"

  /** MatchListRepos: a GET whose path contains "/v2/_catalog" anywhere. */
  predicate MatchListRepos(m: Method, path: string) {
    m == GET && Contains(path, CatalogURLPattern)
  }

  /** Any GET path with "/v2/_catalog" in it lists repositories; no other method does. */
  lemma CatalogListing(m: Method, before: string, after: string)
    ensures MatchListRepos(m, before + CatalogURLPattern + after) <==> m == GET
  {
    var path := before + CatalogURLPattern + after;
    assert OccursAt(path, CatalogURLPattern, |before|) by {
      assert path[|before|..|before| + |CatalogURLPattern|] == CatalogURLPattern;
    }
  }

  // ---- the read-only gate ----

  /** The methods read-only mode prohibits. */
  predicate Modifies(m: Method) {
    m == DELETE || m == POST || m == PATCH || m == PUT
  }

  /** readonlyHandler: in read-only mode DELETE, POST, PATCH and PUT get 403. */
  function ReadonlyGate(readOnly: bool, m: Method): (v: Verdict)
    ensures v == Refuse(StatusForbidden) <==> readOnly && m in {DELETE, POST, PATCH, PUT}
    ensures v.Refuse? ==> v == Refuse(StatusForbidden)
  {
    if readOnly && Modifies(m) then Refuse(StatusForbidden) else Pass
  }

  /** Reads (GET, HEAD) and everything outside read-only mode pass the gate. */
  lemma ReadsAlwaysPass(readOnly: bool, m: Method)
    requires m == GET || m == HEAD || m == OPTIONS || !readOnly
    ensures ReadonlyGate(readOnly, m) == Pass
  {
  }

  // ---- the image information attached to a manifest pull ----

  /** imageInfo: what urlHandler attaches to a manifest pull. */
  datatype ImageInfo = ImageInfo(repository: string, reference: string, projectName: string, digest: string)

  datatype UrlOutcome = Forward(img: Option<ImageInfo>) | Answer(status: int)

  /**
   * urlHandler. `clientOk` says whether the repository client could be
   * built; `manifestExist` is the registry's answer for the reference
   * (the digest, or a failure).
   */
  function UrlHandler(m: Method, path: string, pattern: ManifestPattern,
                      clientOk: bool, manifestExist: Result<string, ()>): (r: UrlOutcome)
    ensures !MatchPullManifest(m, path, pattern).matched ==> r == Forward(None)
    ensures MatchPullManifest(m, path, pattern).matched ==>
      var repo := MatchPullManifest(m, path, pattern).repository;
      ('/' !in repo ==> r == Answer(StatusBadRequest))
      && ('/' in repo && !clientOk ==> r == Answer(StatusInternalServerError))
      && ('/' in repo && clientOk && manifestExist.Err? ==> r == Answer(StatusInternalServerError))
      && ('/' in repo && clientOk && manifestExist.Ok? ==>
            r.Forward? && r.img.Some?
            && r.img.value.repository == repo
            && r.img.value.reference == MatchPullManifest(m, path, pattern).reference
            && r.img.value.digest == manifestExist.value
            && '/' !in r.img.value.projectName
            && exists rest :: repo == r.img.value.projectName + "/" + rest)
  {
    var mm := MatchPullManifest(m, path, pattern);
    if !mm.matched then Forward(None)
    else
      var components := SplitFirst(mm.repository, '/');
      if |components| < 2 then Answer(StatusBadRequest)
      else if !clientOk then Answer(StatusInternalServerError)
      else match manifestExist
        case Err(_) => Answer(StatusInternalServerError)
        case Ok(digest) =>
          assert mm.repository == components[0] + "/" + components[1];
          Forward(Some(ImageInfo(mm.repository, mm.reference, components[0], digest)))
  }

  // ---- the project policies ----

  /** The project settings the policy checker reads. */
  datatype ProjectPolicy = ProjectPolicy(contentTrust: bool, preventVul: bool, severity: string)

  /** pmsPolicyChecker.contentTrustEnabled: a failed project lookup counts as enabled. */
  function ContentTrustEnabled(project: Result<ProjectPolicy, ()>): (enabled: bool)
    ensures enabled <==> project.Err? || project.value.contentTrust
  {
    match project
      case Err(_) => true
      case Ok(p) => p.contentTrust
  }

  /** pmsPolicyChecker.vulnerablePolicy: a failed project lookup counts as prevention on at SevUnknown. */
  function VulnerablePolicy(project: Result<ProjectPolicy, ()>): (policy: (bool, Severity))
    ensures project.Err? ==> policy == (true, SevUnknown)
    ensures project.Ok? ==> policy == (project.value.preventVul, ParseClairSev(project.value.severity))
  {
    match project
      case Err(_) => (true, SevUnknown)
      case Ok(p) => (p.preventVul, ParseClairSev(p.severity))
  }

  // ---- matchNotaryDigest ----

  /** A Notary target: its tag and the digest read from it (which can fail). */
  datatype Target = Target(tag: string, digest: Result<string, ()>)

  /** Whether matchNotaryDigest consults a target: every target for a digest reference, else those with the reference as tag. */
  predicate Consulted(img: ImageInfo, t: Target) {
    IsDigest(img.reference) || t.tag == img.reference
  }

  /** What matchNotaryDigest answers for a target list, walking it from the front. */
  function NotaryMatch(img: ImageInfo, targets: seq<Target>): Result<bool, ()> {
    if targets == [] then Ok(false)
    else if !Consulted(img, targets[0]) then NotaryMatch(img, targets[1..])
    else match targets[0].digest
      case Err(_) => Err(())
      case Ok(d) => if img.digest == d then Ok(true) else NotaryMatch(img, targets[1..])
  }

  /**
   * matchNotaryDigest over the targets Notary returned (or its failure).
   * The loop returns at the first consulted target whose digest fails or matches.
   */
  method MatchNotaryDigest(img: ImageInfo, targets: Result<seq<Target>, ()>) returns (r: Result<bool, ()>)
    ensures targets.Err? ==> r.Err?
    ensures targets.Ok? ==> r == NotaryMatch(img, targets.value)
  {
    if targets.Err? {
      return Err(());
    }
    var ts := targets.value;
    var k := 0;
    while k < |ts|
      invariant 0 <= k <= |ts|
      invariant NotaryMatch(img, ts) == NotaryMatch(img, ts[k..])
    {
      assert ts[k..][1..] == ts[k + 1..];
      var t := ts[k];
      if IsDigest(img.reference) {
        if t.digest.Err? {
          return Err(());
        }
        if img.digest == t.digest.value {
          return Ok(true);
        }
      } else {
        if t.tag == img.reference {
          if t.digest.Err? {
            return Err(());
          }
          if img.digest == t.digest.value {
            return Ok(true);
          }
        }
      }
      k := k + 1;
    }
    return Ok(false);
  }

  /**
   * The three answers of matchNotaryDigest: a match is a consulted target
   * carrying the image's digest; a failure is a consulted target whose
   * digest could not be read; "no match" means every consulted target was
   * read and none carries the digest.
   */
  lemma {:induction false} NotaryMatchMeaning(img: ImageInfo, ts: seq<Target>)
    ensures NotaryMatch(img, ts) == Ok(true) ==>
      exists k :: 0 <= k < |ts| && Consulted(img, ts[k]) && ts[k].digest == Ok(img.digest)
    ensures NotaryMatch(img, ts).Err? ==>
      exists k :: 0 <= k < |ts| && Consulted(img, ts[k]) && ts[k].digest.Err?
    ensures NotaryMatch(img, ts) == Ok(false) <==>
      forall k :: 0 <= k < |ts| && Consulted(img, ts[k]) ==> ts[k].digest.Ok? && ts[k].digest.value != img.digest
  {
    if ts != [] {
      NotaryMatchMeaning(img, ts[1..]);
      if NotaryMatch(img, ts) == Ok(true) && !(Consulted(img, ts[0]) && ts[0].digest == Ok(img.digest)) {
        var k :| 0 <= k < |ts[1..]| && Consulted(img, ts[1..][k]) && ts[1..][k].digest == Ok(img.digest);
        assert ts[k + 1] == ts[1..][k];
      }
      if NotaryMatch(img, ts).Err? && !(Consulted(img, ts[0]) && ts[0].digest.Err?) {
        var k :| 0 <= k < |ts[1..]| && Consulted(img, ts[1..][k]) && ts[1..][k].digest.Err?;
        assert ts[k + 1] == ts[1..][k];
      }
      if forall k :: 0 <= k < |ts| && Consulted(img, ts[k]) ==> ts[k].digest.Ok? && ts[k].digest.value != img.digest {
        forall k | 0 <= k < |ts[1..]| && Consulted(img, ts[1..][k])
          ensures ts[1..][k].digest.Ok? && ts[1..][k].digest.value != img.digest
        {
          assert ts[1..][k] == ts[k + 1];
        }
      }
    }
  }

  /** For a tag reference, targets under other tags never change the answer. */
  lemma {:induction false} OtherTagsIgnored(img: ImageInfo, ts: seq<Target>, t: Target)
    requires !IsDigest(img.reference) && t.tag != img.reference
    ensures NotaryMatch(img, ts + [t]) == NotaryMatch(img, ts)
  {
    if ts != [] {
      assert (ts + [t])[1..] == ts[1..] + [t];
      OtherTagsIgnored(img, ts[1..], t);
    } else {
      assert [t][1..] == [];
    }
  }

  // ---- the gates ----

  /**
   * contentTrustHandler. `img` is the image information urlHandler
   * attached (None: not a manifest pull); `project` the lookup of its
   * project; `targets` Notary's answer.
   */
  function ContentTrustGate(img: Option<ImageInfo>, withNotary: bool, project: Result<ProjectPolicy, ()>,
                            targets: Result<seq<Target>, ()>): (v: Verdict)
    ensures v == Pass <==>
      img.None? || !withNotary || img.value.digest == "" || !ContentTrustEnabled(project)
      || (targets.Ok? && NotaryMatch(img.value, targets.value) == Ok(true))
    ensures v == Refuse(StatusInternalServerError) <==>
      img.Some? && withNotary && img.value.digest != "" && ContentTrustEnabled(project)
      && (targets.Err? || NotaryMatch(img.value, targets.value).Err?)
    ensures v.Refuse? ==> v.status in {StatusInternalServerError, StatusPreconditionFailed}
  {
    if img.None? || !withNotary then Pass
    else if img.value.digest == "" then Pass
    else if !ContentTrustEnabled(project) then Pass
    else
      var m := if targets.Err? then Err(()) else NotaryMatch(img.value, targets.value);
      match m
        case Err(_) => Refuse(StatusInternalServerError)
        case Ok(false) => Refuse(StatusPreconditionFailed)
        case Ok(true) => Pass
  }

  /**
   * Content trust fails closed: when the project cannot be looked up, a
   * pull of an image Notary has not signed is refused with 412.
   */
  lemma UnsignedRefusedOnLookupFailure(img: ImageInfo, ts: seq<Target>)
    requires img.digest != ""
    requires forall k :: 0 <= k < |ts| ==> ts[k].digest.Ok? && ts[k].digest.value != img.digest
    ensures ContentTrustGate(Some(img), true, Err(()), Ok(ts)) == Refuse(StatusPreconditionFailed)
  {
    NotaryMatchMeaning(img, ts);
  }

  /**
   * vulnerableHandler. `project` is the lookup of the image's project;
   * `overview` the scan overview's severity (None: no overview), or the
   * failure of reading it.
   */
  function VulnerableGate(img: Option<ImageInfo>, withClair: bool, project: Result<ProjectPolicy, ()>,
                          overview: Result<Option<int>, ()>): (v: Verdict)
    ensures v.Refuse? ==> v == Refuse(StatusPreconditionFailed)
    ensures v == Pass <==>
      img.None? || !withClair || img.value.digest == "" || !VulnerablePolicy(project).0
      || (overview.Ok? && overview.value.Some? && overview.value.value != 0
          && overview.value.value < Level(VulnerablePolicy(project).1))
  {
    if img.None? || !withClair then Pass
    else if img.value.digest == "" then Pass
    else
      var (enabled, threshold) := VulnerablePolicy(project);
      if !enabled then Pass
      else match overview
        case Err(_) => Refuse(StatusPreconditionFailed)
        case Ok(None) => Refuse(StatusPreconditionFailed)
        case Ok(Some(sev)) =>
          if sev == 0 then Refuse(StatusPreconditionFailed)
          else if sev >= Level(threshold) then Refuse(StatusPreconditionFailed)
          else Pass
  }

  /**
   * The vulnerability gate fails closed: when the project cannot be looked
   * up, only an image scanned clean (SevNone) is let through. Stored
   * severities are never negative.
   */
  lemma LookupFailureAdmitsOnlyClean(img: ImageInfo, sev: nat)
    requires img.digest != ""
    ensures VulnerableGate(Some(img), true, Err(()), Ok(Some(sev))) == Pass <==> sev == Level(SevNone)
  {
  }

  /** A stricter (lower) threshold never lets through an image a laxer one refuses. */
  lemma ThresholdMonotone(img: ImageInfo, strict: ProjectPolicy, lax: ProjectPolicy, overview: Result<Option<int>, ()>)
    requires strict.preventVul && lax.preventVul
    requires Level(ParseClairSev(strict.severity)) <= Level(ParseClairSev(lax.severity))
    ensures VulnerableGate(Some(img), true, Ok(strict), overview) == Pass ==>
      VulnerableGate(Some(img), true, Ok(lax), overview) == Pass
  {
  }
}
