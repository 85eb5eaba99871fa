/** Member roles and the authenticated-user record validated before abilities are built. */
module Roles {
  import opened Outcomes

  /** The roles a member can hold in an organization. */
  datatype Role = Admin | Member

  function RoleName(r: Role): string {
    match r
    case Admin => "ADMIN"
    case Member => "MEMBER"
  }

  /** The enum validation of the user schema: only the role names are accepted. */
  function ParseRole(name: string): (r: Option<Role>)
    ensures r.Some? ==> RoleName(r.value) == name
    ensures r.None? ==> forall role :: RoleName(role) != name
  {
    if name == "ADMIN" then Some(Admin)
    else if name == "MEMBER" then Some(Member)
    else None
  }

  /** The acting user as the rule generators see it. */
  datatype AuthUser = AuthUser(id: string, role: Role)

  /** Parses `{id, role}`: any string id, a role from the enum. */
  function ParseAuthUser(id: string, role: string): (r: Option<AuthUser>)
    ensures r.Some? <==> role == "ADMIN" || role == "MEMBER"
    ensures r.Some? ==> r.value.id == id && RoleName(r.value.role) == role
  {
    match ParseRole(role)
    case Some(parsed) => Some(AuthUser(id, parsed))
    case None => None
  }

  /** Role names round-trip through the parser. */
  lemma RoleNameRoundTrip(r: Role)
    ensures ParseRole(RoleName(r)) == Some(r)
  {
  }
}
