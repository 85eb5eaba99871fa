/** Building a user's ability from the role table, after validating the user record. */
module UserPermissions {
  import opened Outcomes
  import opened Catalogue
  import opened Roles
  import opened Abilities
  import opened PermissionTable

  datatype PermissionsError =
    | RoleNotDefined(role: Role)   // the table has no generator for the role
    | InvalidUser(roleName: string)   // the role is not a member role name

  /** Runs the generator registered for the user's role, applied to that user. */
  function DefineUserPermissions(table: map<Role, AuthUser -> seq<Rule>>, user: AuthUser): (r: Result<AppAbility, PermissionsError>)
    ensures r.Err? <==> user.role !in table
    ensures r.Err? ==> r.error == RoleNotDefined(user.role)
    ensures r.Ok? ==> r.value.rules == table[user.role](user)
  {
    if user.role !in table then Err(RoleNotDefined(user.role))
    else Ok(AppAbility(table[user.role](user)))
  }

  /** With the application's table no role is missing, so building never fails. */
  lemma DefineUserPermissionsNeverFails(user: AuthUser)
    ensures DefineUserPermissions(Permissions, user).Ok?
  {
    PermissionsTotal(user.role);
  }

  /**
   * The ability of the caller `userId` holding `role`: the role name must be a
   * member role, and the ownership condition then compares against `userId`.
   */
  function GetUserPermissions(userId: string, role: string): (r: Result<AppAbility, PermissionsError>)
    ensures r.Err? <==> role != "ADMIN" && role != "MEMBER"
    ensures r.Err? ==> r.error == InvalidUser(role)
    ensures r.Ok? ==> forall a, t :: Can(r.value, a, t) <==> Policy(AuthUser(userId, ParseRole(role).value), a, t)
  {
    match ParseAuthUser(userId, role)
    case None => Err(InvalidUser(role))
    case Some(user) =>
      DefineUserPermissionsNeverFails(user);
      assert forall a, t :: Can(AppAbility(Permissions[user.role](user)), a, t) <==> Policy(user, a, t) by {
        forall a, t ensures Can(AppAbility(Permissions[user.role](user)), a, t) <==> Policy(user, a, t) {
          PermissionsImplementPolicy(user, a, t);
        }
      }
      DefineUserPermissions(Permissions, user)
  }

  /** The ability a route builds for its caller from the caller's membership role; it never fails. */
  function MembershipAbility(userId: string, role: Role): (r: AppAbility)
    ensures GetUserPermissions(userId, RoleName(role)) == Ok(r)
    ensures forall a, t :: Can(r, a, t) <==> Policy(AuthUser(userId, role), a, t)
  {
    RoleNameRoundTrip(role);
    GetUserPermissions(userId, RoleName(role)).value
  }
}
