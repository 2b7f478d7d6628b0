/**
 * The portal's route guards: the authentication check with its guest
 * bypass, the sign-in page guard, and the project member guard with its
 * public-project fallback. Each guard's collaborators (the session cache,
 * the user and project lookups, the router, the message bar and the search
 * panel) appear as the answers they give and the calls made on them.
 * Angular's canActivateChild delegates to canActivate in all three guards,
 * so one definition models both.
 */
module PortalGuards {
  import opened Wrappers
  import opened GoStrings

  const HarborRoot: string := "/harbor"
  const HarborDefault: string := "/harbor/projects"
  const EmbeddedSignIn: string := "/harbor/sign-in"

  /** A call a guard makes on a collaborator, in the order made. */
  datatype UiEffect =
    | ClearMessages                                    // msgHandler.clear
    | ReadOnlyNotice                                   // msgHandler.handleReadOnly
    | CloseSearch                                      // searchTrigger.closeSearch
    | RetrieveUser                                     // session.retrieveUser
    | SignOff                                          // session.signOff
    | ClearSession                                     // session.clear
    | Navigate(path: string, redirectUrl: Option<string>)

  /** What a guard resolves to, and the calls it made on the way. */
  datatype GuardResult = GuardResult(effects: seq<UiEffect>, allow: bool)

  predicate Navigates(effects: seq<UiEffect>) {
    exists e :: e in effects && e.Navigate?
  }

  // ---- the guest pattern ----

  predicate IsDigit(c: char) {
    '0' <= c <= '9'
  }

  /** The characters a regular expression's '.' does not match. */
  predicate IsLineTerminator(c: char) {
    c == '\n' || c == '\r' || c == '\U{2028}' || c == '\U{2029}'
  }

  const ProjectsPrefix: string := "/harbor/projects/"
  const TagsPrefix: string := "/harbor/tags/"

  /** The lower-case text p occurs in url at i, letters compared without regard to case. */
  predicate FoldedAt(url: string, i: nat, p: string) {
    i + |p| <= |url| && forall k :: 0 <= k < |p| ==> LowerChar(url[i + k]) == p[k]
  }

  /** From j on, url holds n digits (n >= 1), a '/', and one character that is not a line terminator. */
  predicate IdTail(url: string, j: nat, n: nat) {
    1 <= n && j + n + 1 < |url|
    && (forall k :: j <= k < j + n ==> IsDigit(url[k]))
    && url[j + n] == '/' && !IsLineTerminator(url[j + n + 1])
  }

  predicate IdTailAt(url: string, j: nat) {
    exists n :: 0 <= n < |url| && IdTail(url, j, n)
  }

  predicate GuestMatchAt(url: string, i: nat, p: string) {
    FoldedAt(url, i, p) && IdTailAt(url, i + |p|)
  }

  /**
   * isGuest: the URL contains "/harbor/projects/<digits>/<a character>" or
   * "/harbor/tags/<digits>/<a character>" anywhere, matched without regard to case.
   */
  predicate IsGuest(url: string)
    ensures IsGuest(url) ==> |url| >= |TagsPrefix| + 3
  {
    exists i :: 0 <= i <= |url| && (GuestMatchAt(url, i, ProjectsPrefix) || GuestMatchAt(url, i, TagsPrefix))
  }

  /** A project page is a guest URL. */
  lemma ProjectPageIsGuest()
    ensures IsGuest("/harbor/projects/12/repositories")
  {
    var url := "/harbor/projects/12/repositories";
    assert IdTail(url, |ProjectsPrefix|, 2);
    assert GuestMatchAt(url, 0, ProjectsPrefix);
  }

  /** The project list itself, with no project ID after it, is not a guest URL. */
  lemma ProjectListIsNotGuest()
    ensures !IsGuest(HarborDefault + "/")
  {
    var url := HarborDefault + "/";
    forall i | 0 <= i <= |url|
      ensures !GuestMatchAt(url, i, ProjectsPrefix) && !GuestMatchAt(url, i, TagsPrefix)
    {
      if i == 0 {
        assert LowerChar(url[i + 8]) != TagsPrefix[8];
      } else if i <= 4 {
        assert LowerChar(url[i]) != TagsPrefix[0];
      }
    }
  }

  lemma LowerCharFixes(c: char)
    ensures LowerChar(LowerChar(c)) == LowerChar(c)
    ensures IsDigit(LowerChar(c)) <==> IsDigit(c)
    ensures LowerChar(c) == '/' <==> c == '/'
    ensures IsLineTerminator(LowerChar(c)) <==> IsLineTerminator(c)
  {
  }

  lemma MatchAtLower(url: string, i: nat, p: string)
    ensures GuestMatchAt(url, i, p) <==> GuestMatchAt(ToLower(url), i, p)
  {
    var low := ToLower(url);
    forall k | 0 <= k < |url|
      ensures LowerChar(low[k]) == LowerChar(url[k])
      ensures IsDigit(low[k]) <==> IsDigit(url[k])
      ensures low[k] == '/' <==> url[k] == '/'
      ensures IsLineTerminator(low[k]) <==> IsLineTerminator(url[k])
    {
      LowerCharFixes(url[k]);
    }
    var j := i + |p|;
    forall n | 0 <= n < |url|
      ensures IdTail(url, j, n) <==> IdTail(low, j, n)
    {
    }
    assert IdTailAt(url, j) <==> IdTailAt(low, j);
    if FoldedAt(url, i, p) {
      assert FoldedAt(low, i, p);
    }
    if FoldedAt(low, i, p) {
      assert FoldedAt(url, i, p);
    }
  }

  /** The test ignores case: a URL is a guest URL exactly when its lower-cased form is. */
  lemma GuestIgnoresCase(url: string)
    ensures IsGuest(url) <==> IsGuest(ToLower(url))
  {
    forall i | 0 <= i <= |url|
      ensures GuestMatchAt(url, i, ProjectsPrefix) <==> GuestMatchAt(ToLower(url), i, ProjectsPrefix)
      ensures GuestMatchAt(url, i, TagsPrefix) <==> GuestMatchAt(ToLower(url), i, TagsPrefix)
    {
      MatchAtLower(url, i, ProjectsPrefix);
      MatchAtLower(url, i, TagsPrefix);
    }
  }

  lemma MatchShifts(a: string, url: string, b: string, i: nat, p: string)
    requires GuestMatchAt(url, i, p)
    ensures GuestMatchAt(a + url + b, |a| + i, p)
  {
    var big := a + url + b;
    var j := i + |p|;
    assert IdTailAt(url, j);
    var n :| 0 <= n < |url| && IdTail(url, j, n);
    forall k | 0 <= k < |url|
      ensures big[|a| + k] == url[k]
    {
    }
    assert IdTail(big, |a| + j, n);
    assert IdTailAt(big, |a| + j);
  }

  /** The pattern is not anchored: text around a guest URL keeps it a guest URL. */
  lemma GuestAnywhere(a: string, url: string, b: string)
    requires IsGuest(url)
    ensures IsGuest(a + url + b)
  {
    var i :| 0 <= i <= |url| && (GuestMatchAt(url, i, ProjectsPrefix) || GuestMatchAt(url, i, TagsPrefix));
    if GuestMatchAt(url, i, ProjectsPrefix) {
      MatchShifts(a, url, b, i, ProjectsPrefix);
    } else {
      MatchShifts(a, url, b, i, TagsPrefix);
    }
  }

  // ---- AuthCheckGuard ----

  /** The calls every evaluation of the authentication check starts with. */
  function Prelude(readOnly: bool): seq<UiEffect> {
    [ClearMessages] + (if readOnly then [ReadOnlyNotice] else []) + [CloseSearch]
  }

  /**
   * AuthCheckGuard.canActivate. A cached user is let through without a
   * lookup; otherwise the user is fetched, and a failed fetch still lets
   * through guest URLs, the root and the sign-in page, and sends every other
   * URL to sign-in with itself as the redirect target.
   */
  function AuthCheck(readOnly: bool, userCached: bool, fetchOk: bool, url: string): (r: GuardResult)
    ensures Prelude(readOnly) <= r.effects
    ensures (ReadOnlyNotice in r.effects) <==> readOnly
    ensures (RetrieveUser in r.effects) <==> !userCached
    ensures r.allow <==>
      userCached || fetchOk || IsGuest(url) || url == HarborRoot || HasPrefix(url, EmbeddedSignIn)
    ensures !r.allow <==> Navigates(r.effects)
    ensures forall e :: e in r.effects && e.Navigate? ==> e == Navigate(EmbeddedSignIn, Some(url))
  {
    var prelude := Prelude(readOnly);
    if userCached then GuardResult(prelude, true)
    else if fetchOk || IsGuest(url) then GuardResult(prelude + [RetrieveUser], true)
    else if url != HarborRoot && !HasPrefix(url, EmbeddedSignIn) then
      var effects := prelude + [RetrieveUser, Navigate(EmbeddedSignIn, Some(url))];
      assert effects[|effects| - 1].Navigate?;
      GuardResult(effects, false)
    else GuardResult(prelude + [RetrieveUser], true)
  }

  // ---- SignInGuard ----

  /** A query parameter is set when it is present and not the empty string. */
  predicate Truthy(param: Option<string>) {
    param.Some? && param.value != ""
  }

  /**
   * SignInGuard.canActivate. With the signout parameter the user is signed
   * off, and the session cache is cleared only when that succeeds; otherwise
   * a user who is, or can be, signed in is sent to the project list.
   */
  function SignInGuard(signout: Option<string>, userCached: bool, signOffOk: bool, fetchOk: bool): (r: GuardResult)
    ensures Truthy(signout) ==>
      SignOff in r.effects && (r.allow <==> signOffOk) && (ClearSession in r.effects <==> signOffOk)
      && RetrieveUser !in r.effects && !Navigates(r.effects)
    ensures !Truthy(signout) ==>
      SignOff !in r.effects && ClearSession !in r.effects
      && (RetrieveUser in r.effects <==> !userCached)
      && (r.allow <==> !userCached && !fetchOk)
      && (!r.allow <==> Navigate(HarborDefault, None) in r.effects)
    ensures forall e :: e in r.effects && e.Navigate? ==> e == Navigate(HarborDefault, None)
  {
    if Truthy(signout) then
      if signOffOk then GuardResult([SignOff, ClearSession], true) else GuardResult([SignOff], false)
    else if !userCached then
      if fetchOk then GuardResult([RetrieveUser, Navigate(HarborDefault, None)], false)
      else GuardResult([RetrieveUser], true)
    else GuardResult([Navigate(HarborDefault, None)], false)
  }

  /**
   * Outside the public routes, exactly one of the sign-in page and the
   * requested page opens: the sign-in guard refuses exactly the users the
   * authentication check lets through.
   */
  lemma SignInAndAuthComplement(readOnly: bool, userCached: bool, fetchOk: bool, signOffOk: bool, url: string)
    requires !IsGuest(url) && url != HarborRoot && !HasPrefix(url, EmbeddedSignIn)
    ensures AuthCheck(readOnly, userCached, fetchOk, url).allow != SignInGuard(None, userCached, signOffOk, fetchOk).allow
  {
  }

  // ---- MemberGuard ----

  /** A project member entry as the membership check returns it. */
  datatype Member = Member(entityName: string, roleId: int)

  /** The session cache the member guard reads and writes. */
  class SessionService {
    var userCached: bool
    var projectMembers: seq<Member>

    constructor(userCached: bool)
      ensures this.userCached == userCached && projectMembers == []
    {
      this.userCached := userCached;
      projectMembers := [];
    }
  }

  datatype MemberDecision = MemberDecision(members: seq<Member>, allow: bool, navigate: bool)

  /**
   * The member guard's decision. `membership` is the project member check
   * (an error when the user is not a member) and `projectPublic` the
   * project's `public` field, or an error when the project lookup fails.
   */
  function MemberCheck(userCached: bool, fetchOk: bool, membership: Result<seq<Member>, ()>,
                       projectPublic: Result<int, ()>): (d: MemberDecision)
    ensures d.navigate <==> !d.allow
    ensures d.allow <==> (userCached || fetchOk) && (membership.Ok? || projectPublic == Ok(1))
    ensures d.members != [] ==> (userCached || fetchOk) && membership == Ok(d.members)
    ensures (userCached || fetchOk) && membership.Ok? ==> d.members == membership.value
  {
    if !userCached && !fetchOk then MemberDecision([], false, true)
    else if membership.Ok? then MemberDecision(membership.value, true, false)
    else if projectPublic.Ok? && projectPublic.value == 1 then MemberDecision([], true, false)
    else MemberDecision([], false, true)
  }

  /** A public project is open to any signed-in user, member or not, and leaves the member list empty for a non-member. */
  lemma PublicProjectOpen(userCached: bool, fetchOk: bool, membership: Result<seq<Member>, ()>)
    requires userCached || fetchOk
    ensures MemberCheck(userCached, fetchOk, membership, Ok(1)).allow
    ensures membership.Err? ==> MemberCheck(userCached, fetchOk, membership, Ok(1)).members == []
  {
  }

  /**
   * MemberGuard.canActivate with checkMemberStatus: the session's member
   * list is emptied first, a successful user fetch fills the user cache, and
   * the membership answer, when there is one, becomes the member list.
   */
  method MemberGuard(session: SessionService, fetchOk: bool, membership: Result<seq<Member>, ()>,
                     projectPublic: Result<int, ()>)
    returns (allow: bool, navigation: Option<string>)
    modifies session
    ensures var d := MemberCheck(old(session.userCached), fetchOk, membership, projectPublic);
      session.projectMembers == d.members && allow == d.allow
      && navigation == (if d.navigate then Some(HarborDefault) else None)
    ensures session.userCached == (old(session.userCached) || fetchOk)
  {
    session.projectMembers := [];
    if !session.userCached {
      if !fetchOk {
        return false, Some(HarborDefault);
      }
      session.userCached := true;
    }
    if membership.Ok? {
      session.projectMembers := membership.value;
      return true, None;
    }
    if projectPublic.Ok? && projectPublic.value == 1 {
      return true, None;
    }
    return false, Some(HarborDefault);
  }
}
