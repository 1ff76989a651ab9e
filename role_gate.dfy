/**
  * web/decorators.py: `role_required(roles)`, the access check wrapped
  * around the web views. Anonymous users are sent to the login page, users
  * with none of the listed roles are refused, and superusers always pass.
  */
module RoleGate {

  /** accounts/models.py `User.Role`. */
  datatype Role = Admin | Parts | Service | Sales | Accounting

  /** `request.user`: the anonymous user, or a signed-in user with a role. */
  datatype User =
    | Anonymous
    | SignedIn(role: Role, isSuperuser: bool)

  /** What `_wrapped_view` does with a request. */
  datatype Decision =
    | RedirectToLogin(next: string)  // `redirect_to_login(request.get_full_path())`
    | PermissionDenied               // `raise PermissionDenied("Insufficient role")`
    | CallView                       // `view_func(request, ...)`

  /** `set(roles)`. */
  function RoleSet(roles: seq<Role>): set<Role> {
    set r | r in roles
  }

  /** The check `role_required(roles)` makes for a request from `user` to `fullPath`. */
  function Check(roles: seq<Role>, user: User, fullPath: string): Decision {
    var rolesSet := RoleSet(roles);
    if user.Anonymous? then RedirectToLogin(fullPath)
    else if user.role !in rolesSet && !user.isSuperuser then PermissionDenied
    else CallView
  }

  /** The roles the due-bill views accept. */
  const DueBillRoles: seq<Role> := [Admin, Sales, Parts]

  /** An anonymous request goes to the login page, back to where it was headed, whatever the roles. */
  lemma AnonymousRedirected(roles: seq<Role>, fullPath: string)
    ensures Check(roles, Anonymous, fullPath).RedirectToLogin?
    ensures Check(roles, Anonymous, fullPath).next == fullPath
  {
  }

  /**
    * The view runs exactly for a signed-in user who is a superuser or has
    * one of the roles; it is refused exactly to the other signed-in users.
    */
  lemma CallViewExactly(roles: seq<Role>, user: User, fullPath: string)
    ensures Check(roles, user, fullPath) == CallView <==> user.SignedIn? && (user.isSuperuser || user.role in roles)
    ensures Check(roles, user, fullPath) == PermissionDenied <==> user.SignedIn? && !user.isSuperuser && user.role !in roles
  {
  }

  /** Only the set of roles matters: their order and repetitions do not. */
  lemma OnlyRoleSetMatters(roles: seq<Role>, roles': seq<Role>, user: User, fullPath: string)
    requires forall r :: r in roles <==> r in roles'
    ensures Check(roles, user, fullPath) == Check(roles', user, fullPath)
  {
    assert RoleSet(roles) == RoleSet(roles');
  }

  /** Service and accounting staff who are not superusers cannot use the due-bill views. */
  lemma DueBillsRefuse(isSuperuser: bool, fullPath: string)
    ensures Check(DueBillRoles, SignedIn(Service, isSuperuser), fullPath) == (if isSuperuser then CallView else PermissionDenied)
    ensures Check(DueBillRoles, SignedIn(Accounting, isSuperuser), fullPath) == (if isSuperuser then CallView else PermissionDenied)
  {
  }
}
