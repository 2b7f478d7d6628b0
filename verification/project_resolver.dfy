/**
 * The project route resolver: it picks the project ID from the route,
 * fetches the project, and annotates it in place with the signed-in
 * user's role on it.
 */
module ProjectResolver {
  import opened Wrappers

  /** Roles.PROJECT_ADMIN, the role ID of a project administrator. */
  const ProjectAdmin: int := 1
  const SysAdminRoleName: string := "MEMBER.SYS_ADMIN"

  /** The signed-in user as the session cache holds it. */
  datatype SessionUser = SessionUser(hasAdminRole: bool)

  /** The fetched project; the resolver writes its three role fields. */
  class Project {
    var currentUserRoleId: int
    var hasProjectAdminRole: bool
    var isMember: bool
    var roleName: Option<string>

    constructor(roleId: int)
      ensures currentUserRoleId == roleId && !hasProjectAdminRole && !isMember && roleName.None?
    {
      currentUserRoleId := roleId;
      hasProjectAdminRole := false;
      isMember := false;
      roleName := None;
    }
  }

  /** A route or query parameter counts as given when it is present and not empty. */
  predicate Given(param: Option<string>) {
    param.Some? && param.value != ""
  }

  /** The project ID: the `id` route parameter, falling back to the `project_id` query parameter. */
  function ProjectIdOf(paramId: Option<string>, queryId: Option<string>): (id: Option<string>)
    ensures Given(paramId) ==> id == paramId
    ensures !Given(paramId) ==> id == queryId
    ensures Given(id) <==> Given(paramId) || Given(queryId)
  {
    if Given(paramId) then paramId else queryId
  }

  /** The three role fields the resolver sets. */
  datatype RoleAnnotation = RoleAnnotation(hasProjectAdminRole: bool, isMember: bool, roleName: Option<string>)

  /**
   * The role fields for a user on a project: a system administrator is an
   * administrator and member of every project; anyone else has the role the
   * project reports, named by `roleInfo` (no name for an unknown role).
   */
  function Annotate(sysAdmin: bool, roleId: int, roleInfo: map<int, string>): (a: RoleAnnotation)
    ensures a.hasProjectAdminRole ==> a.isMember
    ensures sysAdmin ==> a == RoleAnnotation(true, true, Some(SysAdminRoleName))
    ensures !sysAdmin ==> (a.hasProjectAdminRole <==> roleId == ProjectAdmin) && (a.isMember <==> roleId > 0)
    ensures !sysAdmin ==> (a.roleName.Some? <==> roleId in roleInfo)
    ensures !sysAdmin && roleId in roleInfo ==> a.roleName == Some(roleInfo[roleId])
  {
    if sysAdmin then RoleAnnotation(true, true, Some(SysAdminRoleName))
    else RoleAnnotation(roleId == ProjectAdmin, roleId > 0,
                        if roleId in roleInfo then Some(roleInfo[roleId]) else None)
  }

  /** Being a system administrator never takes a right away: each flag is at least what the project role gives. */
  lemma SysAdminDominates(roleId: int, roleInfo: map<int, string>)
    ensures Annotate(false, roleId, roleInfo).hasProjectAdminRole ==> Annotate(true, roleId, roleInfo).hasProjectAdminRole
    ensures Annotate(false, roleId, roleInfo).isMember ==> Annotate(true, roleId, roleInfo).isMember
    ensures Annotate(true, roleId, roleInfo).roleName.Some?
  {
  }

  function Fetched(r: Result<Option<Project>, ()>): set<Project> {
    if r.Ok? && r.value.Some? then {r.value.value} else {}
  }

  /**
   * ProjectRoutingResolver.resolve. `getProject` is the project lookup: an
   * error, no project, or the project object. A missing project or a failed
   * lookup sends the router to the project list and resolves to nothing.
   */
  method Resolve(paramId: Option<string>, queryId: Option<string>,
                 getProject: Option<string> -> Result<Option<Project>, ()>,
                 user: Option<SessionUser>, roleInfo: map<int, string>)
    returns (resolved: Option<Project>, navigation: Option<seq<string>>)
    modifies Fetched(getProject(ProjectIdOf(paramId, queryId)))
    ensures var r := getProject(ProjectIdOf(paramId, queryId));
      if r.Ok? && r.value.Some? then
        resolved == r.value && navigation.None?
      else
        resolved.None? && navigation == Some(["/harbor", "projects"])
    ensures resolved.Some? && user.Some? ==>
      var p := resolved.value;
      var a := Annotate(user.value.hasAdminRole, old(p.currentUserRoleId), roleInfo);
      p.currentUserRoleId == old(p.currentUserRoleId)
      && p.hasProjectAdminRole == a.hasProjectAdminRole && p.isMember == a.isMember && p.roleName == a.roleName
    ensures resolved.Some? && user.None? ==> unchanged(resolved.value)
  {
    var id := ProjectIdOf(paramId, queryId);
    var r := getProject(id);
    if r.Err? || r.value.None? {
      return None, Some(["/harbor", "projects"]);
    }
    var project := r.value.value;
    if user.Some? {
      if user.value.hasAdminRole {
        project.hasProjectAdminRole := true;
        project.isMember := true;
        project.roleName := Some(SysAdminRoleName);
      } else {
        var role := project.currentUserRoleId;
        project.hasProjectAdminRole := role == ProjectAdmin;
        project.isMember := role > 0;
        project.roleName := if role in roleInfo then Some(roleInfo[role]) else None;
      }
    }
    return Some(project), None;
  }
}
