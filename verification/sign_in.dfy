/**
 * The sign-in page: its status machine (normal, request in flight, error),
 * the "remember me" cookie holding the last user name, and the auth-mode
 * switches that show the sign-up and forgotten-password links.
 */
module SignIn {
  import opened Wrappers
  import opened GoStrings
  import PortalGuards

  /** signInStatusNormal (0), signInStatusOnGoing (1), signInStatusError (-1). */
  datatype SignInStatus = Normal | OnGoing | Error

  const RemCookieKey: string := "rem-username"
  const ExpireDays: int := 10
  /** The remember-me cookie's lifetime in milliseconds. */
  const ExpireMillis: int := ExpireDays * 3600 * 24 * 1000

  datatype Cookie = Cookie(value: string, path: string, expires: int)

  // ---- the status machine ----

  /** The status after signIn, and whether it sends a request. */
  datatype SignInStep = SignInStep(status: SignInStatus, sent: bool)

  /**
   * signIn: an invalid form is an error and sends nothing; while a request
   * is in flight nothing happens; otherwise the status becomes OnGoing and
   * the request goes out.
   */
  function AfterSignIn(s: SignInStatus, formValid: bool): (r: SignInStep)
    ensures !formValid ==> r == SignInStep(Error, false)
    ensures formValid && s == OnGoing ==> r == SignInStep(OnGoing, false)
    ensures r.sent <==> formValid && s != OnGoing
    ensures r.sent ==> r.status == OnGoing
  {
    if !formValid then SignInStep(Error, false)
    else if s == OnGoing then SignInStep(s, false)
    else SignInStep(OnGoing, true)
  }

  /** The status when the request answers: it stays OnGoing on success (the button stays disabled) and is Error on failure. */
  function AfterAnswer(s: SignInStatus, ok: bool): (r: SignInStatus)
    ensures ok ==> r == s
    ensures !ok ==> r == Error
  {
    if ok then s else Error
  }

  /** updateState: only an error goes back to normal. */
  function AfterUpdate(s: SignInStatus): (r: SignInStatus)
    ensures r != Error
    ensures s != Error ==> r == s
  {
    if s == Error then Normal else s
  }

  /** Two sign-in clicks in a row send at most one request, whatever the form says the second time. */
  lemma NoDoubleRequest(s: SignInStatus, valid1: bool, valid2: bool)
    ensures !(AfterSignIn(s, valid1).sent && AfterSignIn(AfterSignIn(s, valid1).status, valid2).sent)
  {
  }

  /** After a failed attempt, editing the form makes a valid form sendable again. */
  lemma FailureIsRecoverable(s: SignInStatus)
    ensures AfterSignIn(AfterUpdate(AfterAnswer(s, false)), true).sent
  {
  }

  // ---- the remember-me cookie ----

  /** The user name the page reads back from the cookie jar: the trimmed cookie value, or nothing. */
  function RememberedIn(cookies: map<string, Cookie>): (name: string)
    ensures name == "" <==> RemCookieKey !in cookies || JsBlank(cookies[RemCookieKey].value)
    ensures name != "" ==> Contains(cookies[RemCookieKey].value, name)
  {
    if RemCookieKey in cookies then JsTrim(cookies[RemCookieKey].value) else ""
  }

  /**
   * remeberMe: the cookie is written, for the whole site and for ten days
   * from `now`, only when remember-me is on and the principal is not the
   * name already remembered.
   */
  function RememberedCookies(cookies: map<string, Cookie>, rememberMe: bool, rememberedName: string,
                             principal: string, now: int): (c: map<string, Cookie>)
    ensures rememberMe && rememberedName != principal ==>
      RemCookieKey in c && c[RemCookieKey] == Cookie(principal, "/", now + 864000000)
    ensures forall k :: k != RemCookieKey ==> (k in c <==> k in cookies) && (k in c ==> c[k] == cookies[k])
    ensures !(rememberMe && rememberedName != principal) ==> c == cookies
  {
    if rememberMe && rememberedName != principal then
      cookies[RemCookieKey := Cookie(principal, "/", now + ExpireMillis)]
    else cookies
  }

  /** A name written by remeberMe is the name the next visit reads back, when it has no white space at its ends. */
  lemma RememberRoundTrip(cookies: map<string, Cookie>, rememberedName: string, principal: string, now: int)
    requires principal != rememberedName && principal != ""
    requires !IsJsSpace(principal[0]) && !IsJsSpace(principal[|principal| - 1])
    ensures RememberedIn(RememberedCookies(cookies, true, rememberedName, principal, now)) == principal
  {
  }

  // ---- the auth-mode switches ----

  /** selfSignUp: the sign-up link shows only for database authentication with self-registration on. */
  predicate SelfSignUp(authMode: string, selfRegistration: bool)
    ensures SelfSignUp(authMode, selfRegistration) ==> selfRegistration
    ensures authMode != "db_auth" ==> !SelfSignUp(authMode, selfRegistration)
  {
    authMode == "db_auth" && selfRegistration
  }

  /** showForgetPwd: the forgotten-password link shows unless users come from LDAP or UAA. */
  predicate ShowForgetPwd(authMode: string)
    ensures authMode == "db_auth" ==> ShowForgetPwd(authMode)
    ensures authMode in {"ldap_auth", "uaa_auth"} ==> !ShowForgetPwd(authMode)
  {
    authMode != "ldap_auth" && authMode != "uaa_auth"
  }

  /** Where self sign-up is offered, password recovery is offered too; neither is offered for LDAP. */
  lemma SignUpImpliesForgetPwd(authMode: string, selfRegistration: bool)
    ensures SelfSignUp(authMode, selfRegistration) ==> ShowForgetPwd(authMode)
    ensures !SelfSignUp("ldap_auth", selfRegistration) && !ShowForgetPwd("ldap_auth")
  {
  }

  // ---- the component ----

  /** SignInComponent: its status, remember-me state, credential and the browser's cookie jar. */
  class SignInComponent {
    var redirectUrl: string
    var rememberMe: bool
    var rememberedName: string
    var principal: string
    var status: SignInStatus
    var cookies: map<string, Cookie>

    constructor(cookies: map<string, Cookie>)
      ensures redirectUrl == "" && rememberMe && rememberedName == "" && principal == ""
      ensures status == Normal && this.cookies == cookies
    {
      redirectUrl := "";
      rememberMe := true;
      rememberedName := "";
      principal := "";
      status := Normal;
      this.cookies := cookies;
    }

    /**
     * ngOnInit: the redirect target comes from the query, and a remembered
     * user name, when the cookie holds one, fills the principal.
     */
    method OnInit(redirectParam: Option<string>)
      modifies this
      ensures redirectUrl == (if PortalGuards.Truthy(redirectParam) then redirectParam.value else "")
      ensures var name := RememberedIn(old(cookies));
        if name != "" then principal == name && rememberMe && rememberedName == name
        else principal == old(principal) && rememberMe == old(rememberMe) && rememberedName == old(rememberedName)
      ensures status == old(status) && cookies == old(cookies)
    {
      redirectUrl := if redirectParam.Some? && redirectParam.value != "" then redirectParam.value else "";
      var remUsername := "";
      if RemCookieKey in cookies {
        remUsername := JsTrim(cookies[RemCookieKey].value);
      }
      if remUsername != "" {
        principal := remUsername;
        rememberMe := true;
        rememberedName := remUsername;
      }
    }

    /** clickRememberMe: unchecking forgets the remembered name and removes the cookie. */
    method ClickRememberMe(checked: Option<bool>)
      modifies this
      ensures checked.None? ==> rememberMe == old(rememberMe) && rememberedName == old(rememberedName) && cookies == old(cookies)
      ensures checked == Some(true) ==> rememberMe && rememberedName == old(rememberedName) && cookies == old(cookies)
      ensures checked == Some(false) ==>
        !rememberMe && rememberedName == "" && cookies == old(cookies) - {RemCookieKey}
      ensures status == old(status) && principal == old(principal) && redirectUrl == old(redirectUrl)
    {
      if checked.Some? {
        rememberMe := checked.value;
        if !rememberMe {
          cookies := cookies - {RemCookieKey};
          rememberedName := "";
        }
      }
    }

    /** remeberMe, at time `now`. */
    method RemeberMe(now: int)
      modifies this
      ensures cookies == RememberedCookies(old(cookies), rememberMe, rememberedName, principal, now)
      ensures rememberMe == old(rememberMe) && rememberedName == old(rememberedName)
      ensures principal == old(principal) && status == old(status) && redirectUrl == old(redirectUrl)
    {
      if rememberMe {
        if rememberedName != principal {
          var expires := ExpireDays * 3600 * 24 * 1000;
          cookies := cookies[RemCookieKey := Cookie(principal, "/", now + expires)];
        }
      }
    }

    /** signIn: returns whether the sign-in request is sent. */
    method SignIn(formValid: bool) returns (sent: bool)
      modifies this
      ensures SignInStep(status, sent) == AfterSignIn(old(status), formValid)
      ensures cookies == old(cookies) && principal == old(principal) && rememberedName == old(rememberedName)
      ensures rememberMe == old(rememberMe) && redirectUrl == old(redirectUrl)
    {
      if !formValid {
        status := Error;
        return false;
      }
      if status == OnGoing {
        return false;
      }
      status := OnGoing;
      return true;
    }

    /** The request succeeded: remember the user, then go to the redirect target or the project list. */
    method SignInSucceeded(now: int) returns (navigation: string)
      modifies this
      ensures status == AfterAnswer(old(status), true)
      ensures cookies == RememberedCookies(old(cookies), rememberMe, rememberedName, principal, now)
      ensures navigation == if redirectUrl == "" then PortalGuards.HarborDefault else redirectUrl
      ensures rememberMe == old(rememberMe) && rememberedName == old(rememberedName)
      ensures principal == old(principal) && redirectUrl == old(redirectUrl)
    {
      RemeberMe(now);
      if redirectUrl == "" {
        navigation := PortalGuards.HarborDefault;
      } else {
        navigation := redirectUrl;
      }
    }

    /** The request failed (handleError). */
    method SignInFailed()
      modifies this
      ensures status == AfterAnswer(old(status), false)
      ensures cookies == old(cookies) && principal == old(principal) && rememberedName == old(rememberedName)
      ensures rememberMe == old(rememberMe) && redirectUrl == old(redirectUrl)
    {
      status := Error;
    }

    /** updateState, run when the form changes. */
    method UpdateState()
      modifies this
      ensures status == AfterUpdate(old(status))
      ensures cookies == old(cookies) && principal == old(principal) && rememberedName == old(rememberedName)
      ensures rememberMe == old(rememberMe) && redirectUrl == old(redirectUrl)
    {
      if status == Error {
        status := Normal;
      }
    }
  }
}
