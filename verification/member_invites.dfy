/**
 * The member-invite lifecycle: an admin invites an e-mail address into an
 * organization; the addressee accepts (becoming a member) or rejects; an
 * admin may revoke. Each operation maps a store to a new store or to the
 * failure the request ends with; a failure leaves the store as it was.
 */
module MemberInvites {
  import opened Outcomes
  import opened Catalogue
  import opened Roles
  import opened Abilities
  import opened UserPermissions
  import opened Schema
  import opened Seqs
  import opened HttpErrors

  /** The second piece of splitting the address on '@': the text after the first '@' up to the next one. */
  function EmailDomain(email: string): (r: Option<string>)
    ensures r.None? <==> '@' !in email
    ensures r.Some? ==> '@' !in r.value
  {
    match IndexOf(email, '@')
    case None => None
    case Some(k) =>
      var rest := email[k + 1..];
      match IndexOf(rest, '@')
      case None => Some(rest)
      case Some(j) => Some(rest[..j])
  }

  /** The domain of `local@domain` is `domain`. */
  lemma EmailDomainOfAddress(local: string, domain: string)
    requires '@' !in local && '@' !in domain
    ensures EmailDomain(local + "@" + domain) == Some(domain)
  {
  }

  /** Users of the organization's domain join by themselves, so they are not invited. */
  predicate AutoJoins(organization: Organization, domain: Option<string>) {
    && organization.shouldAttachUsersByDomain
    && organization.domain.Some?
    && domain.Some?
    && organization.domain.value == domain.value
  }

  predicate HasInviteFor(db: Db, email: string, organizationId: string) {
    exists i :: i in db.invites && i.email == email && i.organizationId == organizationId
  }

  /** Some member of the organization is the user registered with `email`. */
  predicate HasMemberWithEmail(db: Db, organizationId: string, email: string) {
    exists m, u :: m in db.members && u in db.users && m.organizationId == organizationId && m.userId == u.id && u.email == email
  }

  predicate IsMember(db: Db, organizationId: string, userId: string) {
    exists m :: m in db.members && m.organizationId == organizationId && m.userId == userId
  }

  function OtherThan(inviteId: string): MemberInvite -> bool {
    (i: MemberInvite) => i.id != inviteId
  }

  /**
   * An invite to `email` with `role`, written by the caller `userId` whose
   * membership in `organization` is `membership`. `inviteId` and `now` are
   * the key and timestamp the store assigns to the new row.
   */
  function CreateMemberInvite(
    db: Db, userId: string, organization: Organization, membership: Membership,
    email: string, role: Role, inviteId: string, now: int): (r: Result<(Db, string), Failure>)
    requires forall i :: i in db.invites ==> i.id != inviteId
    ensures membership.role == Member ==> r == Err(Unauthorized(CannotCreateInvites))
    ensures r == Err(BadRequest(AutoJoinDomain)) <==>
              membership.role == Admin && AutoJoins(organization, EmailDomain(email))
    ensures r == Err(BadRequest(DuplicateInvite)) <==>
              && membership.role == Admin && !AutoJoins(organization, EmailDomain(email))
              && HasInviteFor(db, email, organization.id)
    ensures r == Err(BadRequest(AlreadyMember)) <==>
              && membership.role == Admin && !AutoJoins(organization, EmailDomain(email))
              && !HasInviteFor(db, email, organization.id) && HasMemberWithEmail(db, organization.id, email)
    ensures r.Ok? <==>
              && membership.role == Admin && !AutoJoins(organization, EmailDomain(email))
              && !HasInviteFor(db, email, organization.id) && !HasMemberWithEmail(db, organization.id, email)
    ensures r.Ok? ==> r.value.1 == inviteId
    ensures r.Ok? ==> r.value.0 == db.(invites := db.invites + [MemberInvite(inviteId, email, role, organization.id, Some(userId), now)])
  {
    var ability := MembershipAbility(userId, membership.role);
    if Cannot(ability, Create, OfType(Subject.Invite)) then Err(Unauthorized(CannotCreateInvites))
    else if AutoJoins(organization, EmailDomain(email)) then Err(BadRequest(AutoJoinDomain))
    else if HasInviteFor(db, email, organization.id) then Err(BadRequest(DuplicateInvite))
    else if HasMemberWithEmail(db, organization.id, email) then Err(BadRequest(AlreadyMember))
    else
      var invite := MemberInvite(inviteId, email, role, organization.id, Some(userId), now);
      Ok((db.(invites := db.invites + [invite]), inviteId))
  }

  /** The caller `userId` accepts invite `inviteId`: one atomic step adds the membership and drops the invite. */
  function AcceptMemberInvite(db: Db, userId: string, inviteId: string): (r: Result<Db, Failure>)
    requires Valid(db)
    ensures (forall i :: i in db.invites ==> i.id != inviteId) ==> r == Err(BadRequest(InviteNotFound))
    ensures forall i :: i in db.invites && i.id == inviteId && (forall u :: u in db.users ==> u.id != userId) ==>
              r == Err(BadRequest(UserNotFound))
    ensures forall i, u :: i in db.invites && i.id == inviteId && u in db.users && u.id == userId && u.email != i.email ==>
              r == Err(BadRequest(InviteOfAnotherUser))
    ensures forall i, u :: i in db.invites && i.id == inviteId && u in db.users && u.id == userId && u.email == i.email ==>
              if IsMember(db, i.organizationId, userId) then r == Err(ServerError(UniqueConstraint))
              else r.Ok? && r.value.members == db.members + [Membership(userId, i.organizationId, i.role)]
    ensures r.Ok? ==> forall i :: i in r.value.invites <==> i in db.invites && i.id != inviteId
    ensures r.Ok? ==> r.value == db.(members := r.value.members, invites := r.value.invites)
  {
    match InviteById(db, inviteId)
    case None => Err(BadRequest(InviteNotFound))
    case Some(invite) =>
      match UserById(db, userId)
      case None => Err(BadRequest(UserNotFound))
      case Some(user) =>
        if user.email != invite.email then Err(BadRequest(InviteOfAnotherUser))
        else if MemberOf(db, invite.organizationId, userId).Some? then Err(ServerError(UniqueConstraint))
        else
          Ok(db.(members := db.members + [Membership(userId, invite.organizationId, invite.role)],
                 invites := Filter(db.invites, OtherThan(inviteId))))
  }

  /** The caller `userId` rejects invite `inviteId`: the invite is dropped and no membership is made. */
  function RejectMemberInvite(db: Db, userId: string, inviteId: string): (r: Result<Db, Failure>)
    requires Valid(db)
    ensures (forall i :: i in db.invites ==> i.id != inviteId) ==> r == Err(BadRequest(InviteNotFound))
    ensures forall i :: i in db.invites && i.id == inviteId && (forall u :: u in db.users ==> u.id != userId) ==>
              r == Err(BadRequest(UserNotFound))
    ensures forall i, u :: i in db.invites && i.id == inviteId && u in db.users && u.id == userId ==>
              if u.email != i.email then r == Err(BadRequest(InviteOfAnotherUser)) else r.Ok?
    ensures r.Ok? ==> forall i :: i in r.value.invites <==> i in db.invites && i.id != inviteId
    ensures r.Ok? ==> r.value == db.(invites := r.value.invites)
  {
    match InviteById(db, inviteId)
    case None => Err(BadRequest(InviteNotFound))
    case Some(invite) =>
      match UserById(db, userId)
      case None => Err(BadRequest(UserNotFound))
      case Some(user) =>
        if user.email != invite.email then Err(BadRequest(InviteOfAnotherUser))
        else Ok(db.(invites := Filter(db.invites, OtherThan(inviteId))))
  }

  /** Rows the scoped deletion of a revocation removes: the invite's id within the caller's organization. */
  function OutsideRevocation(inviteId: string, organizationId: string): MemberInvite -> bool {
    (i: MemberInvite) => !(i.id == inviteId && i.organizationId == organizationId)
  }

  predicate HasInviteIn(db: Db, inviteId: string, organizationId: string) {
    exists i :: i in db.invites && i.id == inviteId && i.organizationId == organizationId
  }

  /**
   * Revocation as the handler is written: the existence check looks the id
   * up in every organization, while the deletion is scoped to the caller's
   * organization and fails when it matches no row.
   */
  function RevokeMemberInviteAsWritten(
    db: Db, userId: string, organization: Organization, membership: Membership, inviteId: string): (r: Result<Db, Failure>)
    requires Valid(db)
    ensures membership.role == Member ==> r == Err(Unauthorized(CannotDeleteInvites))
    ensures membership.role == Admin && (forall i :: i in db.invites ==> i.id != inviteId) ==>
              r == Err(BadRequest(InviteNotFound))
    ensures forall i :: membership.role == Admin && i in db.invites && i.id == inviteId && i.organizationId != organization.id ==>
              r == Err(ServerError(RecordNotFound))
    ensures r.Ok? <==> membership.role == Admin && HasInviteIn(db, inviteId, organization.id)
    ensures r.Ok? ==> forall i :: i in r.value.invites <==> i in db.invites && i.id != inviteId
    ensures r.Ok? ==> r.value == db.(invites := r.value.invites)
  {
    var ability := MembershipAbility(userId, membership.role);
    if Cannot(ability, Delete, OfType(Subject.Invite)) then Err(Unauthorized(CannotDeleteInvites))
    else if InviteById(db, inviteId).None? then Err(BadRequest(InviteNotFound))
    else if !HasInviteIn(db, inviteId, organization.id) then Err(ServerError(RecordNotFound))
    else Ok(db.(invites := Filter(db.invites, OutsideRevocation(inviteId, organization.id))))
  }

  /**
   * Revocation with the lookup scoped like the deletion: an invite of
   * another organization is reported as not found, before storage is touched.
   */
  function RevokeMemberInvite(
    db: Db, userId: string, organization: Organization, membership: Membership, inviteId: string): (r: Result<Db, Failure>)
    requires Valid(db)
    ensures membership.role == Member ==> r == Err(Unauthorized(CannotDeleteInvites))
    ensures membership.role == Admin && !HasInviteIn(db, inviteId, organization.id) ==> r == Err(BadRequest(InviteNotFound))
    ensures r.Ok? <==> membership.role == Admin && HasInviteIn(db, inviteId, organization.id)
    ensures r.Ok? ==> forall i :: i in r.value.invites <==> i in db.invites && i.id != inviteId
    ensures r.Ok? ==> r.value == db.(invites := r.value.invites)
  {
    var ability := MembershipAbility(userId, membership.role);
    if Cannot(ability, Delete, OfType(Subject.Invite)) then Err(Unauthorized(CannotDeleteInvites))
    else if !HasInviteIn(db, inviteId, organization.id) then Err(BadRequest(InviteNotFound))
    else Ok(db.(invites := Filter(db.invites, OutsideRevocation(inviteId, organization.id))))
  }

  /** An admin revoking another organization's invite: the handler fails with a server error instead of "not found". */
  lemma RevokeForeignInvite(db: Db, userId: string, organization: Organization, membership: Membership, invite: MemberInvite)
    requires Valid(db)
    requires membership.role == Admin
    requires invite in db.invites && invite.organizationId != organization.id
    ensures RevokeMemberInviteAsWritten(db, userId, organization, membership, invite.id) == Err(ServerError(RecordNotFound))
    ensures RevokeMemberInvite(db, userId, organization, membership, invite.id) == Err(BadRequest(InviteNotFound))
  {
  }

  /** A second acceptance of the same invite finds nothing. */
  lemma AcceptTwiceFails(db: Db, userId: string, inviteId: string)
    requires Valid(db)
    requires AcceptMemberInvite(db, userId, inviteId).Ok?
    ensures Valid(AcceptMemberInvite(db, userId, inviteId).value)
    ensures AcceptMemberInvite(AcceptMemberInvite(db, userId, inviteId).value, userId, inviteId) == Err(BadRequest(InviteNotFound))
  {
    AcceptPreservesValid(db, userId, inviteId);
  }

  /** Creating an invite keeps every table's unique keys unique. */
  lemma CreatePreservesValid(
    db: Db, userId: string, organization: Organization, membership: Membership,
    email: string, role: Role, inviteId: string, now: int)
    requires Valid(db)
    requires forall i :: i in db.invites ==> i.id != inviteId
    requires CreateMemberInvite(db, userId, organization, membership, email, role, inviteId, now).Ok?
    ensures Valid(CreateMemberInvite(db, userId, organization, membership, email, role, inviteId, now).value.0)
  {
    var invite := MemberInvite(inviteId, email, role, organization.id, Some(userId), now);
    AppendKeepsKeysDistinct(db.invites, [invite], InviteId);
    AppendKeepsKeysDistinct(db.invites, [invite], InviteAddress);
  }

  /** Dropping invites keeps both invite keys unique. */
  lemma DropInvitesPreservesValid(db: Db, p: MemberInvite -> bool)
    requires Valid(db)
    ensures Valid(db.(invites := Filter(db.invites, p)))
  {
    FilterKeepsKeysDistinct(db.invites, p, InviteId);
    FilterKeepsKeysDistinct(db.invites, p, InviteAddress);
  }

  /** Accepting keeps unique keys unique; the new membership cannot collide. */
  lemma AcceptPreservesValid(db: Db, userId: string, inviteId: string)
    requires Valid(db)
    requires AcceptMemberInvite(db, userId, inviteId).Ok?
    ensures Valid(AcceptMemberInvite(db, userId, inviteId).value)
  {
    var invite := InviteById(db, inviteId).value;
    var member := Membership(userId, invite.organizationId, invite.role);
    DropInvitesPreservesValid(db, OtherThan(inviteId));
    AppendKeepsKeysDistinct(db.members, [member], MemberKey);
  }

  /** Rejecting and revoking, as written or corrected, only drop invites, so unique keys stay unique. */
  lemma RemovalPreservesValid(db: Db, userId: string, organization: Organization, membership: Membership, inviteId: string)
    requires Valid(db)
    ensures RejectMemberInvite(db, userId, inviteId).Ok? ==> Valid(RejectMemberInvite(db, userId, inviteId).value)
    ensures RevokeMemberInviteAsWritten(db, userId, organization, membership, inviteId).Ok? ==>
              Valid(RevokeMemberInviteAsWritten(db, userId, organization, membership, inviteId).value)
    ensures RevokeMemberInvite(db, userId, organization, membership, inviteId).Ok? ==>
              Valid(RevokeMemberInvite(db, userId, organization, membership, inviteId).value)
  {
    var dropOne := db.(invites := Filter(db.invites, OtherThan(inviteId)));
    DropInvitesPreservesValid(db, OtherThan(inviteId));
    DropInvitesPreservesValid(db, OutsideRevocation(inviteId, organization.id));
    assert RejectMemberInvite(db, userId, inviteId).Ok? ==> RejectMemberInvite(db, userId, inviteId).value == dropOne;
  }
}
