/**
 * The stored entities the routes read and write, and the uniqueness
 * constraints of their tables. A table is a sequence of rows in storage
 * order; a unique key means no two rows share it.
 */
module Schema {
  import opened Outcomes
  import opened Roles
  import opened Seqs

  datatype User = User(id: string, email: string)

  /** `domain` is optional; `shouldAttachUsersByDomain` makes users of that domain join on login. */
  datatype Organization = Organization(id: string, domain: Option<string>, shouldAttachUsersByDomain: bool, ownerId: string)

  datatype Membership = Membership(userId: string, organizationId: string, role: Role)

  /** `createdAt` is a timestamp in milliseconds; `authorId` is nullable. */
  datatype MemberInvite = MemberInvite(id: string, email: string, role: Role, organizationId: string, authorId: Option<string>, createdAt: int)

  datatype Event = Event(
    id: string,
    name: string,
    description: Option<string>,
    startDate: int,
    endDate: Option<int>,
    slug: string,
    ownerId: string,
    organizationId: Option<string>,
    sportId: Option<string>)

  datatype TokenType = PasswordRecover | OtherTokenType(name: string)

  datatype Token = Token(id: string, tokenType: TokenType, userId: string, expiresAt: int)

  /** A sport an event may be linked to. */
  datatype Sport = Sport(id: string, name: string)

  datatype Db = Db(users: seq<User>, members: seq<Membership>, invites: seq<MemberInvite>, events: seq<Event>, tokens: seq<Token>, sports: seq<Sport>)

  /** The keys of the tables. */
  function UserId(u: User): string { u.id }
  function UserEmail(u: User): string { u.email }
  /** One membership per (organization, user). */
  function MemberKey(m: Membership): (string, string) { (m.organizationId, m.userId) }
  function InviteId(i: MemberInvite): string { i.id }
  /** At most one invite per (email, organization). */
  function InviteAddress(i: MemberInvite): (string, string) { (i.email, i.organizationId) }
  function EventId(e: Event): string { e.id }
  function TokenId(t: Token): string { t.id }
  function SportId(s: Sport): string { s.id }

  /** Every key of every table is held by at most one row. */
  predicate Valid(db: Db) {
    && KeysDistinct(db.users, UserId)
    && KeysDistinct(db.users, UserEmail)
    && KeysDistinct(db.members, MemberKey)
    && KeysDistinct(db.invites, InviteId)
    && KeysDistinct(db.invites, InviteAddress)
    && KeysDistinct(db.events, EventId)
    && KeysDistinct(db.tokens, TokenId)
    && KeysDistinct(db.sports, SportId)
  }

  /** In a valid store a key value names one row. */
  lemma ValidRowsIdentified(db: Db)
    requires Valid(db)
    ensures forall x, y :: x in db.users && y in db.users && x.id == y.id ==> x == y
    ensures forall x, y :: x in db.users && y in db.users && x.email == y.email ==> x == y
    ensures forall m, n :: m in db.members && n in db.members && m.organizationId == n.organizationId && m.userId == n.userId ==> m == n
    ensures forall x, y :: x in db.invites && y in db.invites && x.id == y.id ==> x == y
    ensures forall x, y :: x in db.invites && y in db.invites && x.email == y.email && x.organizationId == y.organizationId ==> x == y
  {
    DistinctKeysIdentify(db.users, UserId);
    DistinctKeysIdentify(db.users, UserEmail);
    DistinctKeysIdentify(db.members, MemberKey);
    DistinctKeysIdentify(db.invites, InviteId);
    DistinctKeysIdentify(db.invites, InviteAddress);
  }

  /** Lookup by primary key. */
  function InviteById(db: Db, id: string): (r: Option<MemberInvite>)
    requires Valid(db)
    ensures r.Some? <==> exists i :: i in db.invites && i.id == id
    ensures forall i :: i in db.invites && i.id == id ==> r == Some(i)
  {
    ValidRowsIdentified(db);
    Find(db.invites, (i: MemberInvite) => i.id == id)
  }

  function UserById(db: Db, id: string): (r: Option<User>)
    requires Valid(db)
    ensures r.Some? <==> exists u :: u in db.users && u.id == id
    ensures forall u :: u in db.users && u.id == id ==> r == Some(u)
  {
    ValidRowsIdentified(db);
    Find(db.users, (u: User) => u.id == id)
  }

  function UserByEmail(db: Db, email: string): (r: Option<User>)
    requires Valid(db)
    ensures r.Some? <==> exists u :: u in db.users && u.email == email
    ensures forall u :: u in db.users && u.email == email ==> r == Some(u)
  {
    ValidRowsIdentified(db);
    Find(db.users, (u: User) => u.email == email)
  }

  function MemberOf(db: Db, organizationId: string, userId: string): (r: Option<Membership>)
    requires Valid(db)
    ensures r.Some? <==> exists m :: m in db.members && m.organizationId == organizationId && m.userId == userId
    ensures forall m :: m in db.members && m.organizationId == organizationId && m.userId == userId ==> r == Some(m)
  {
    ValidRowsIdentified(db);
    Find(db.members, (m: Membership) => m.organizationId == organizationId && m.userId == userId)
  }
}
