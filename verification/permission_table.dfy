/**
 * The role table: for each member role, the ordered rules it grants to the
 * acting user. Admins manage everything, except that transferring, updating
 * or deleting an organization is reserved to its owner; members may only
 * read users.
 */
module PermissionTable {
  import opened Outcomes
  import opened Catalogue
  import opened Roles
  import opened Abilities

  /** The organization actions an admin may perform only as the owner. */
  const OwnerOnlyActions: set<Action> := {TransferOwnership, Update, Delete}

  function AdminRules(user: AuthUser): seq<Rule> {
    [ Rule(Allow, {Manage}, All, Unconditional),
      Rule(Deny, OwnerOnlyActions, Organization, Unconditional),
      Rule(Allow, OwnerOnlyActions, Organization, OwnerIdEquals(user.id)) ]
  }

  function MemberRules(user: AuthUser): seq<Rule> {
    [ Rule(Allow, {Get}, User, Unconditional) ]
  }

  const Permissions: map<Role, AuthUser -> seq<Rule>> := map[Admin := AdminRules, Member := MemberRules]

  /** Every role has a rule generator. */
  lemma PermissionsTotal(r: Role)
    ensures r in Permissions
  {
  }

  /** Outside the owner-only organization actions, an admin may do anything, with or without a record. */
  lemma AdminManagesAllElse(user: AuthUser, a: Action, t: Target)
    requires !(a in OwnerOnlyActions && SubjectType(t) == SubjectName(Organization))
    ensures Can(AppAbility(AdminRules(user)), a, t)
  {
    var rules := AdminRules(user);
    assert !Applies(rules[1], a, t) && !Applies(rules[2], a, t);
    assert DecidingGrant(rules, 0, a, t);
  }

  /** On an organization record, the owner-only actions are granted exactly when the admin owns it. */
  lemma AdminOwnerOnlyOnRecord(user: AuthUser, a: Action, org: Instance)
    requires a in OwnerOnlyActions
    requires org.typename == SubjectName(Organization)
    ensures Can(AppAbility(AdminRules(user)), a, OfInstance(org)) <==> org.ownerId == Some(user.id)
  {
    var rules := AdminRules(user);
    var t := OfInstance(org);
    assert Applies(rules[0], a, t) && Applies(rules[1], a, t);
    if org.ownerId == Some(user.id) {
      assert DecidingGrant(rules, 2, a, t);
    } else {
      assert !Applies(rules[2], a, t);
      assert forall i :: !DecidingGrant(rules, i, a, t);
    }
  }

  /** Asked about the organization kind without a record, an admin's owner-only actions are granted. */
  lemma AdminOwnerOnlyOnKind(user: AuthUser, a: Action)
    requires a in OwnerOnlyActions
    ensures Can(AppAbility(AdminRules(user)), a, OfType(Organization))
  {
  }

  /** A member may read users and nothing else. */
  lemma MemberOnlyReadsUsers(user: AuthUser, a: Action, t: Target)
    ensures Can(AppAbility(MemberRules(user)), a, t) <==> a == Get && SubjectType(t) == SubjectName(User)
  {
  }

  /** The admin rules with the conditional grant moved before the blanket denial. */
  function SwappedAdminRules(user: AuthUser): seq<Rule> {
    var rules := AdminRules(user);
    [rules[0], rules[2], rules[1]]
  }

  /** Rule order decides the owner's case: the swapped list denies what the real one grants. */
  lemma RuleOrderDecidesOwnerCase(user: AuthUser, a: Action, org: Instance)
    requires a in OwnerOnlyActions
    requires org.typename == SubjectName(Organization) && org.ownerId == Some(user.id)
    ensures Can(AppAbility(AdminRules(user)), a, OfInstance(org))
    ensures !Can(AppAbility(SwappedAdminRules(user)), a, OfInstance(org))
  {
  }

  /**
   * The access policy the table is meant to express, stated without rules:
   * a member reads users; an admin does anything, except that the
   * owner-only organization actions on a record need the admin to own it.
   */
  predicate Policy(user: AuthUser, a: Action, t: Target) {
    match user.role
    case Member => a == Get && SubjectType(t) == SubjectName(User)
    case Admin =>
      if a in OwnerOnlyActions && SubjectType(t) == SubjectName(Organization) then
        match t
        case OfType(_) => true
        case OfInstance(i) => i.ownerId == Some(user.id)
      else true
  }

  /** The rules each role's generator emits answer every query as the policy says. */
  lemma PermissionsImplementPolicy(user: AuthUser, a: Action, t: Target)
    ensures user.role in Permissions
    ensures Can(AppAbility(Permissions[user.role](user)), a, t) <==> Policy(user, a, t)
  {
    match user.role
    case Member =>
      MemberOnlyReadsUsers(user, a, t);
    case Admin =>
      if a in OwnerOnlyActions && SubjectType(t) == SubjectName(Organization) {
        match t
        case OfType(s) =>
          assert s == Organization;
          AdminOwnerOnlyOnKind(user, a);
        case OfInstance(i) =>
          AdminOwnerOnlyOnRecord(user, a, i);
      } else {
        AdminManagesAllElse(user, a, t);
      }
  }
}
