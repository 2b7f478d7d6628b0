/**
 * The shared-secret check the job service applies to every request: the
 * Authorization header must carry "Harbor-Secret" followed by the secret
 * configured for the core service.
 */
module JobAuth {
  import opened Wrappers
  import opened GoStrings

  const SecretPrefix: string := "Harbor-Secret"

  /** The request as the authenticator sees it: the Authorization header value, "" when absent. */
  datatype Request = Request(authorization: string)

  /** The reasons DoAuth gives, in the order it checks them. */
  datatype AuthError = NilRequest | HeaderMissing | BadPrefix | EmptySecret | Unauthorized

  /** The secret a header carries: the trimmed rest after the prefix. */
  function SecretOf(header: string): string {
    TrimSpace(TrimPrefix(TrimSpace(header), SecretPrefix))
  }

  /** SecretAuthenticator.DoAuth; `expected` is the configured secret. */
  function DoAuth(req: Option<Request>, expected: string): (r: Option<AuthError>)
    ensures r.None? <==>
      req.Some? && HasPrefix(TrimSpace(req.value.authorization), SecretPrefix)
      && SecretOf(req.value.authorization) != "" && SecretOf(req.value.authorization) == expected
    ensures r == Some(NilRequest) <==> req.None?
    ensures r == Some(HeaderMissing) <==> req.Some? && IsBlank(req.value.authorization)
    ensures r == Some(BadPrefix) <==>
      req.Some? && !IsBlank(req.value.authorization) && !HasPrefix(TrimSpace(req.value.authorization), SecretPrefix)
    ensures r == Some(EmptySecret) <==>
      req.Some? && HasPrefix(TrimSpace(req.value.authorization), SecretPrefix) && IsBlank(SecretOf(req.value.authorization))
  {
    match req
      case None => Some(NilRequest)
      case Some(rq) =>
        var h := TrimSpace(rq.authorization);
        BlankIsEmptyAfterTrim(rq.authorization);
        TrimmedBlankIsEmpty(h);
        assert HasPrefix(h, SecretPrefix) ==> h[0] == 'H';
        if IsBlank(h) then Some(HeaderMissing)
        else if !HasPrefix(h, SecretPrefix) then Some(BadPrefix)
        else
          var secret := TrimSpace(TrimPrefix(h, SecretPrefix));
          TrimmedBlankIsEmpty(secret);
          if IsBlank(secret) then Some(EmptySecret)
          else if expected != secret then Some(Unauthorized)
          else None
  }

  /** Trimming a space put in front of a trimmed, non-empty string gives the string back. */
  lemma TrimLeadingSpace(s: string)
    requires s != [] && Trimmed(s)
    ensures TrimSpace([' '] + s) == s
  {
    var t := [' '] + s;
    assert SkipSpace(t, 1) == 1;
    assert SkipSpace(t, 0) == 1;
    assert SkipSpaceBack(t, |t|) == |t|;
    assert t[1..|t|] == s;
  }

  /**
   * A header built as "Harbor-Secret <s>" is accepted exactly when s is the
   * configured secret, for any secret with no white space at its ends.
   */
  lemma HeaderRoundTrip(s: string, expected: string)
    requires s != [] && Trimmed(s)
    ensures DoAuth(Some(Request(SecretPrefix + " " + s)), expected).None? <==> s == expected
  {
    var p := SecretPrefix;
    var rest := [' '] + s;
    var h := p + rest;
    assert SecretPrefix + " " + s == h;
    assert h[0] == p[0] == 'H';
    assert h[|h| - 1] == s[|s| - 1];
    assert TrimSpace(h) == h;
    assert h[..|p|] == p && h[|p|..] == rest;
    assert TrimPrefix(h, p) == rest;
    TrimLeadingSpace(s);
    assert SecretOf(h) == s;
  }

  /** With no secret configured, no request is accepted. */
  lemma EmptyExpectedRejectsAll(req: Option<Request>)
    ensures DoAuth(req, "").Some?
  {
  }
}
