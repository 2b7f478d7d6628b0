/**
 * The registry controller's authentication gate: every request but the
 * health check must carry a secret the authenticator accepts.
 */
module RegistryctlAuth {
  import opened Wrappers
  import opened Http

  /** What the gate does with a request. */
  datatype GateOutcome =
    | Answer(status: int)  // an error response
    | Served               // the wrapped handler serves the request
    | Unserved             // no handler is wired; nothing is written

  /** The APIs served without authentication, as NewHandlerChain configures them. */
  const InsecureAPIs: map<string, bool> := map["/api/health" := true]

  /**
   * authHandler.ServeHTTP. `authenticator` is None when none is
   * configured, else the outcome of AuthorizeRequest for this request;
   * `insecure` is the insecure-API table (None: nil).
   */
  function ServeHTTP(authenticator: Option<bool>, insecure: Option<map<string, bool>>, hasHandler: bool,
                     path: string): (r: GateOutcome)
    ensures authenticator.None? <==> r == Answer(StatusInternalServerError)
    ensures r == Answer(StatusUnauthorized) <==>
      authenticator == Some(false) && !(insecure.Some? && path in insecure.value && insecure.value[path])
    ensures r == Served <==>
      authenticator.Some? && hasHandler
      && (authenticator.value || (insecure.Some? && path in insecure.value && insecure.value[path]))
  {
    if authenticator.None? then Answer(StatusInternalServerError)
    else if insecure.Some? && path in insecure.value && insecure.value[path] then
      if hasHandler then Served else Unserved
    else if !authenticator.value then Answer(StatusUnauthorized)
    else if hasHandler then Served else Unserved
  }

  /** With the configured table, only the exact path "/api/health" is served without a valid secret. */
  lemma OnlyHealthIsInsecure(path: string)
    ensures ServeHTTP(Some(false), Some(InsecureAPIs), true, path) == Served <==> path == "/api/health"
    ensures path != "/api/health" ==> ServeHTTP(Some(false), Some(InsecureAPIs), true, path) == Answer(StatusUnauthorized)
  {
  }

  /** Without an authenticator nothing is served, not even the health check. */
  lemma NoAuthenticatorNothingServed(insecure: Option<map<string, bool>>, hasHandler: bool, path: string)
    ensures ServeHTTP(None, insecure, hasHandler, path) != Served
  {
  }
}
