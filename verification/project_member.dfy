/**
 * The project-member API of the core service: how a member request is
 * resolved to a user or group entity and checked before it is stored, the
 * role range check of an update, the checks Prepare runs before every
 * member request, and the status a failed addition answers.
 */
module ProjectMember {
  import opened Wrappers
  import opened GoStrings
  import opened Http

  /** common.UserMember and common.GroupMember. */
  datatype EntityType = UserMember | GroupMember

  datatype MemberUser = MemberUser(userID: int, username: string)

  datatype MemberGroup = MemberGroup(id: int, ldapGroupDN: string, groupName: string)

  /** models.MemberReq. */
  datatype MemberReq = MemberReq(role: int, memberUser: MemberUser, memberGroup: MemberGroup)

  /** models.Member as AddProjectMember fills it; an entity type never set is None. */
  datatype Member = Member(projectID: int, entityID: int, entityType: Option<EntityType>, role: int)

  /** The errors of the auth package the member API tells apart. */
  datatype AuthError = UserNotExist | GroupNotExist | DuplicateLdapGroup | InvalidLdapGroupDN | OtherAuthError

  /** auth.SearchAndOnBoardUser and auth.SearchAndOnBoardGroup: the ID of the onboarded entity or an error. */
  datatype Onboarding = Onboarding(
    user: string -> Result<int, AuthError>,
    group: (string, string) -> Result<int, AuthError>)

  datatype AddError =
    | OnboardFailed(cause: AuthError)
    | InvalidEntity
    | LookupFailed
    | DuplicateProjectMember
    | InvalidRole
    | InsertFailed

  /** The entity a request names, or why onboarding it failed. */
  datatype Resolution = Resolved(entityID: int, entityType: Option<EntityType>) | Unresolved(cause: AuthError)

  /**
   * The entity chosen in priority order: a user ID, then a group ID, then a
   * username to onboard, then an LDAP group DN to onboard; none of them
   * leaves the entity ID at 0 with no type.
   */
  function ResolveEntity(req: MemberReq, onboard: Onboarding): (r: Resolution)
    ensures req.memberUser.userID > 0 ==> r == Resolved(req.memberUser.userID, Some(UserMember))
    ensures req.memberUser.userID <= 0 && req.memberGroup.id > 0 ==> r == Resolved(req.memberGroup.id, Some(GroupMember))
    ensures req.memberUser.userID <= 0 && req.memberGroup.id <= 0 && req.memberUser.username != [] ==>
      match onboard.user(req.memberUser.username)
        case Ok(id) => r == Resolved(id, Some(UserMember))
        case Err(e) => r == Unresolved(e)
    ensures (req.memberUser.userID <= 0 && req.memberGroup.id <= 0 && req.memberUser.username == []
             && req.memberGroup.ldapGroupDN != []) ==>
      match onboard.group(req.memberGroup.ldapGroupDN, req.memberGroup.groupName)
        case Ok(id) => r == Resolved(id, Some(GroupMember))
        case Err(e) => r == Unresolved(e)
    ensures (req.memberUser.userID <= 0 && req.memberGroup.id <= 0 && req.memberUser.username == []
             && req.memberGroup.ldapGroupDN == []) ==> r == Resolved(0, None)
  {
    if req.memberUser.userID > 0 then Resolved(req.memberUser.userID, Some(UserMember))
    else if req.memberGroup.id > 0 then Resolved(req.memberGroup.id, Some(GroupMember))
    else if |req.memberUser.username| > 0 then
      match onboard.user(req.memberUser.username)
        case Ok(id) => Resolved(id, Some(UserMember))
        case Err(e) => Unresolved(e)
    else if |req.memberGroup.ldapGroupDN| > 0 then
      match onboard.group(req.memberGroup.ldapGroupDN, req.memberGroup.groupName)
        case Ok(id) => Resolved(id, Some(GroupMember))
        case Err(e) => Unresolved(e)
    else Resolved(0, None)
  }

  /** A stored member has the given project, entity and type. */
  predicate SameEntity(m: Member, projectID: int, entityID: int, entityType: Option<EntityType>) {
    m.projectID == projectID && m.entityID == entityID && m.entityType == entityType
  }

  predicate IsMemberOf(members: seq<Member>, projectID: int, entityID: int, entityType: Option<EntityType>) {
    exists k :: 0 <= k < |members| && SameEntity(members[k], projectID, entityID, entityType)
  }

  predicate ValidRole(role: int) {
    1 <= role <= 3
  }

  /** What AddProjectMember returns and the member it asks the database to insert, if it gets that far. */
  datatype AddOutcome = AddOutcome(result: Result<int, AddError>, inserted: Option<Member>)

  /**
   * AddProjectMember. `members` is the member table as the duplicate
   * lookup sees it (None: the lookup failed); `insert` is the database's
   * answer to the insertion: the new member ID, or None on failure.
   */
  function AddProjectMember(projectID: int, req: MemberReq, onboard: Onboarding,
                            members: Option<seq<Member>>, insert: Option<int>): (o: AddOutcome)
    ensures o.inserted.Some? <==>
      && ResolveEntity(req, onboard).Resolved?
      && ResolveEntity(req, onboard).entityID > 0
      && members.Some?
      && !IsMemberOf(members.value, projectID, ResolveEntity(req, onboard).entityID, ResolveEntity(req, onboard).entityType)
      && ValidRole(req.role)
    ensures o.inserted.Some? ==>
      o.inserted.value == Member(projectID, ResolveEntity(req, onboard).entityID, ResolveEntity(req, onboard).entityType, req.role)
    ensures o.result.Ok? <==> o.inserted.Some? && insert.Some?
    ensures o.result.Ok? ==> o.result.value == insert.value
    ensures ResolveEntity(req, onboard).Unresolved? ==> o.result == Err(OnboardFailed(ResolveEntity(req, onboard).cause))
    ensures o.result == Err(InvalidEntity) <==>
      ResolveEntity(req, onboard).Resolved? && ResolveEntity(req, onboard).entityID <= 0
    ensures o.result == Err(DuplicateProjectMember) <==>
      && ResolveEntity(req, onboard).Resolved? && ResolveEntity(req, onboard).entityID > 0
      && members.Some?
      && IsMemberOf(members.value, projectID, ResolveEntity(req, onboard).entityID, ResolveEntity(req, onboard).entityType)
    ensures o.result == Err(InvalidRole) ==> !ValidRole(req.role)
  {
    match ResolveEntity(req, onboard)
      case Unresolved(e) => AddOutcome(Err(OnboardFailed(e)), None)
      case Resolved(entityID, entityType) =>
        if entityID <= 0 then AddOutcome(Err(InvalidEntity), None)
        else match members
          case None => AddOutcome(Err(LookupFailed), None)
          case Some(table) =>
            if IsMemberOf(table, projectID, entityID, entityType) then AddOutcome(Err(DuplicateProjectMember), None)
            else if !ValidRole(req.role) then AddOutcome(Err(InvalidRole), None)
            else
              var m := Member(projectID, entityID, entityType, req.role);
              match insert
                case None => AddOutcome(Err(InsertFailed), Some(m))
                case Some(pmid) => AddOutcome(Ok(pmid), Some(m))
  }

  /** An existing member is reported as a duplicate whatever role the request asks for. */
  lemma DuplicateBeforeRole(projectID: int, req: MemberReq, onboard: Onboarding, members: seq<Member>,
                            insert: Option<int>, k: nat)
    requires ResolveEntity(req, onboard).Resolved? && ResolveEntity(req, onboard).entityID > 0
    requires k < |members|
    requires SameEntity(members[k], projectID, ResolveEntity(req, onboard).entityID, ResolveEntity(req, onboard).entityType)
    ensures AddProjectMember(projectID, req, onboard, Some(members), insert).result == Err(DuplicateProjectMember)
  {
  }

  /** After a successful addition, the member is one of the table with a valid role. */
  lemma AddedMemberIsNew(projectID: int, req: MemberReq, onboard: Onboarding, members: seq<Member>, insert: Option<int>)
    requires AddProjectMember(projectID, req, onboard, Some(members), insert).result.Ok?
    ensures var m := AddProjectMember(projectID, req, onboard, Some(members), insert).inserted.value;
      IsMemberOf(members + [m], m.projectID, m.entityID, m.entityType)
      && !IsMemberOf(members, m.projectID, m.entityID, m.entityType)
      && ValidRole(m.role) && m.entityID > 0
  {
    var m := AddProjectMember(projectID, req, onboard, Some(members), insert).inserted.value;
    assert (members + [m])[|members|] == m;
  }

  // ---- Post ----

  /** Post trims the LDAP group DN before adding the member. */
  function PostRequest(req: MemberReq): (r: MemberReq)
    ensures r.memberGroup.ldapGroupDN == TrimSpace(req.memberGroup.ldapGroupDN)
    ensures r.role == req.role && r.memberUser == req.memberUser
    ensures r.memberGroup.id == req.memberGroup.id && r.memberGroup.groupName == req.memberGroup.groupName
  {
    req.(memberGroup := req.memberGroup.(ldapGroupDN := TrimSpace(req.memberGroup.ldapGroupDN)))
  }

  /** The status Post answers for AddProjectMember's result. */
  function PostStatus(result: Result<int, AddError>): (code: int)
    ensures result.Ok? <==> code == StatusCreated
    ensures code == StatusNotFound <==>
      result == Err(OnboardFailed(UserNotExist)) || result == Err(OnboardFailed(GroupNotExist))
    ensures code == StatusConflict <==>
      result == Err(OnboardFailed(DuplicateLdapGroup)) || result == Err(DuplicateProjectMember)
    ensures code == StatusBadRequest <==>
      result == Err(InvalidRole) || result == Err(OnboardFailed(InvalidLdapGroupDN))
    ensures code in {StatusCreated, StatusNotFound, StatusConflict, StatusBadRequest, StatusInternalServerError}
  {
    match result
      case Ok(_) => StatusCreated
      case Err(e) =>
        if e == OnboardFailed(GroupNotExist) || e == OnboardFailed(UserNotExist) then StatusNotFound
        else if e == OnboardFailed(DuplicateLdapGroup) then StatusConflict
        else if e == DuplicateProjectMember then StatusConflict
        else if e == InvalidRole then StatusBadRequest
        else if e == OnboardFailed(InvalidLdapGroupDN) then StatusBadRequest
        else StatusInternalServerError
  }

  /** A request with a role outside 1..3 that reaches the role check answers 400 and stores nothing. */
  lemma InvalidRoleIsBadRequest(projectID: int, req: MemberReq, onboard: Onboarding, members: seq<Member>, insert: Option<int>)
    requires !ValidRole(req.role)
    requires ResolveEntity(PostRequest(req), onboard).Resolved? && ResolveEntity(PostRequest(req), onboard).entityID > 0
    requires !IsMemberOf(members, projectID, ResolveEntity(PostRequest(req), onboard).entityID,
                         ResolveEntity(PostRequest(req), onboard).entityType)
    ensures var o := AddProjectMember(projectID, PostRequest(req), onboard, Some(members), insert);
      PostStatus(o.result) == StatusBadRequest && o.inserted.None?
  {
  }

  // ---- Put ----

  /** Put: the status it answers and the role update it asks for (None: no update). */
  datatype PutOutcome = PutOutcome(code: int, update: Option<(int, int)>)

  /**
   * Put. `pmID` is the member ID Prepare stored; `updateOk` is the
   * database's answer to the role update.
   */
  function Put(pmID: int, role: int, updateOk: bool): (o: PutOutcome)
    ensures !ValidRole(role) ==> o == PutOutcome(StatusBadRequest, None)
    ensures ValidRole(role) ==> o.update == Some((pmID, role))
    ensures o.code == StatusOK <==> ValidRole(role) && updateOk
    ensures o.code in {StatusOK, StatusBadRequest, StatusInternalServerError}
  {
    if role < 1 || role > 3 then PutOutcome(StatusBadRequest, None)
    else if !updateOk then PutOutcome(StatusInternalServerError, Some((pmID, role)))
    else PutOutcome(StatusOK, Some((pmID, role)))
  }

  // ---- Prepare ----

  datatype Project = Project(projectID: int, name: string)

  /**
   * The state Prepare leaves in ProjectMemberAPI for the handler that
   * follows: the project the path names and the member ID.
   */
  class ProjectMemberApi {
    var project: Option<Project>
    var id: int

    constructor()
      ensures project.None? && id == 0
    {
      project := None;
      id := 0;
    }

    /**
     * Prepare. `pid` and `pmid` are the path parameters (None: not an
     * integer); `lookup` is the project manager's answer (Err carries the
     * status its error maps to); `hasRead` and `hasAll` are the security
     * context's answers for the project. Answers None when the request may
     * go on, or the status it was refused with.
     */
    method Prepare(authenticated: bool, pid: Option<int>, lookup: Result<Option<Project>, int>,
                   m: Method, hasRead: bool, hasAll: bool, pmid: Option<int>)
      returns (refused: Option<int>)
      modifies this
      ensures !authenticated ==> refused == Some(StatusUnauthorized)
      ensures authenticated && (pid.None? || pid.value <= 0) ==> refused == Some(StatusBadRequest)
      ensures authenticated && pid.Some? && pid.value > 0 && lookup.Err? ==> refused == Some(lookup.error)
      ensures authenticated && pid.Some? && pid.value > 0 && lookup == Ok(None) ==> refused == Some(StatusNotFound)
      ensures authenticated && pid.Some? && pid.value > 0 && lookup.Ok? && lookup.value.Some? ==>
        project == lookup.value
        && (!((m == GET && hasRead) || hasAll) ==> refused == Some(StatusForbidden))
      ensures refused.None? <==>
        && authenticated && pid.Some? && pid.value > 0 && lookup.Ok? && lookup.value.Some?
        && ((m == GET && hasRead) || hasAll)
        && ((pmid.Some? && pmid.value > 0) || (m != PUT && m != DELETE))
      ensures refused.None? && pmid.Some? ==> id == pmid.value
      ensures refused.None? && pmid.None? ==> id == 0
      ensures refused.Some? ==> id == old(id)
      ensures project != old(project) ==> lookup.Ok? && project == lookup.value
    {
      if !authenticated {
        return Some(StatusUnauthorized);
      }
      if pid.None? || pid.value <= 0 {
        return Some(StatusBadRequest);
      }
      if lookup.Err? {
        return Some(lookup.error);
      }
      if lookup.value.None? {
        return Some(StatusNotFound);
      }
      project := lookup.value;
      if !((m == GET && hasRead) || hasAll) {
        return Some(StatusForbidden);
      }
      // a member ID that does not parse reads as 0
      var memberID := if pmid.Some? then pmid.value else 0;
      if memberID <= 0 && (m == PUT || m == DELETE) {
        return Some(StatusBadRequest);
      }
      id := memberID;
      return None;
    }
  }
}
