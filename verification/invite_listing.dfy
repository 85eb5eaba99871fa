/** The two invite listings: an organization's invites for its admins, and the caller's own pending invites. */
module InviteListing {
  import opened Outcomes
  import opened Catalogue
  import opened Roles
  import opened Abilities
  import opened UserPermissions
  import opened Schema
  import opened Seqs
  import opened HttpErrors

  predicate NewestFirst(s: seq<MemberInvite>) {
    forall i, j :: 0 <= i < j < |s| ==> s[i].createdAt >= s[j].createdAt
  }

  /** Places `x` into a newest-first sequence. */
  function InsertByCreatedAt(x: MemberInvite, s: seq<MemberInvite>): (r: seq<MemberInvite>)
    requires NewestFirst(s)
    ensures NewestFirst(r)
    ensures multiset(r) == multiset(s) + multiset{x}
    ensures |r| == |s| + 1 && (r[0] == x || (|s| > 0 && r[0] == s[0]))
    decreases |s|
  {
    if |s| == 0 || x.createdAt >= s[0].createdAt then [x] + s
    else
      var tail := InsertByCreatedAt(x, s[1..]);
      assert s == [s[0]] + s[1..];
      [s[0]] + tail
  }

  /** Orders invites newest first; invites created at the same instant may come in any order. */
  function SortNewestFirst(s: seq<MemberInvite>): (r: seq<MemberInvite>)
    ensures NewestFirst(r)
    ensures multiset(r) == multiset(s)
    decreases |s|
  {
    if |s| == 0 then []
    else
      assert s == [s[0]] + s[1..];
      InsertByCreatedAt(s[0], SortNewestFirst(s[1..]))
  }

  function InOrganization(organizationId: string): MemberInvite -> bool {
    (i: MemberInvite) => i.organizationId == organizationId
  }

  function AddressedTo(email: string): MemberInvite -> bool {
    (i: MemberInvite) => i.email == email
  }

  /** The invites of one organization, newest first. */
  function OrganizationInvites(db: Db, organizationId: string): (r: seq<MemberInvite>)
    ensures multiset(r) == multiset(Filter(db.invites, InOrganization(organizationId)))
    ensures forall i :: i in r <==> i in db.invites && i.organizationId == organizationId
    ensures NewestFirst(r)
  {
    var own := Filter(db.invites, InOrganization(organizationId));
    var sorted := SortNewestFirst(own);
    SameMembers(sorted, own);
    sorted
  }

  /** The organization's invites, for a caller allowed to create invites. */
  function GetMemberInvites(db: Db, userId: string, organization: Organization, membership: Membership): (r: Result<seq<MemberInvite>, Failure>)
    ensures r.Err? <==> membership.role == Member
    ensures r.Err? ==> r.error == Unauthorized(CannotListInvites)
    ensures r.Ok? ==> multiset(r.value) == multiset(Filter(db.invites, InOrganization(organization.id)))
    ensures r.Ok? ==> forall i: MemberInvite :: i.organizationId == organization.id ==> multiset(r.value)[i] == multiset(db.invites)[i]
    ensures r.Ok? ==> forall i :: i in r.value <==> i in db.invites && i.organizationId == organization.id
    ensures r.Ok? ==> NewestFirst(r.value)
  {
    var ability := MembershipAbility(userId, membership.role);
    if Cannot(ability, Create, OfType(Subject.Invite)) then Err(Unauthorized(CannotListInvites))
    else
      FilterCounts(db.invites, InOrganization(organization.id));
      Ok(OrganizationInvites(db, organization.id))
  }

  /** Every invite addressed to the caller's e-mail, whatever its organization, each once, in storage order. */
  function GetPendingMemberInvites(db: Db, userId: string): (r: Result<seq<MemberInvite>, Failure>)
    requires Valid(db)
    ensures r.Err? <==> forall u :: u in db.users ==> u.id != userId
    ensures r.Err? ==> r.error == BadRequest(UserNotFound)
    ensures forall u :: u in db.users && u.id == userId ==>
              r.Ok? && forall i :: i in r.value <==> i in db.invites && i.email == u.email
    ensures r.Ok? ==> KeysDistinct(r.value, InviteId)
  {
    match UserById(db, userId)
    case None => Err(BadRequest(UserNotFound))
    case Some(user) =>
      FilterKeepsKeysDistinct(db.invites, AddressedTo(user.email), InviteId);
      Ok(Filter(db.invites, AddressedTo(user.email)))
  }
}
