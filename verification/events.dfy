/** Creating an event: standalone for any caller, or on behalf of an organization the caller administers. */
module Events {
  import opened Outcomes
  import opened Roles
  import opened Schema
  import opened HttpErrors
  import opened Seqs

  datatype CreateEventBody = CreateEventBody(
    name: string,
    description: Option<string>,
    startDate: int,
    endDate: Option<int>,
    sportId: Option<string>,
    organizationId: Option<string>)

  /** Truthiness of an optional string: present and not empty. */
  predicate Truthy(s: Option<string>) {
    s.Some? && s.value != ""
  }

  /** The caller may create the event: no organization is named, or the caller administers it. */
  predicate MayCreateFor(db: Db, userId: string, organizationId: Option<string>) {
    !Truthy(organizationId) || Membership(userId, organizationId.value, Admin) in db.members
  }

  /** The sport the event links to, if one is named, is a stored sport. */
  predicate SportKnown(db: Db, sportId: Option<string>) {
    sportId.None? || exists s :: s in db.sports && s.id == sportId.value
  }

  function SportWithId(id: string): Sport -> bool {
    (s: Sport) => s.id == id
  }

  /**
   * The caller `userId` creates an event from `body`; `eventId` is the key the
   * store assigns and `createSlug` derives the slug from the name. The insert
   * fails in storage when `sportId` names no stored sport.
   */
  function CreateEvent(db: Db, userId: string, body: CreateEventBody, eventId: string, createSlug: string -> string): (r: Result<(Db, string), Failure>)
    requires Valid(db)
    requires forall e :: e in db.events ==> e.id != eventId
    ensures r.Ok? <==> MayCreateFor(db, userId, body.organizationId) && SportKnown(db, body.sportId)
    ensures !MayCreateFor(db, userId, body.organizationId) ==> r == Err(Unauthorized(CannotCreateEvents))
    ensures MayCreateFor(db, userId, body.organizationId) && !SportKnown(db, body.sportId) ==> r == Err(ServerError(ForeignKeyViolation))
    ensures r.Ok? ==> r.value.1 == eventId
    ensures r.Ok? ==> |r.value.0.events| == |db.events| + 1
    ensures r.Ok? ==> r.value.0 == db.(events := db.events + [r.value.0.events[|db.events|]])
    ensures r.Ok? ==>
              var e := r.value.0.events[|db.events|];
              && e.id == eventId && e.ownerId == userId
              && e.organizationId == body.organizationId && e.sportId == body.sportId
              && e.name == body.name && e.description == body.description
              && e.startDate == body.startDate && e.endDate == body.endDate
              && e.slug == createSlug(body.name)
  {
    if Truthy(body.organizationId) && !(match MemberOf(db, body.organizationId.value, userId)
                                        case Some(member) => member.role == Admin
                                        case None => false)
    then Err(Unauthorized(CannotCreateEvents))
    else if body.sportId.Some? && Find(db.sports, SportWithId(body.sportId.value)).None?
    then Err(ServerError(ForeignKeyViolation))
    else
      var event := Event(eventId, body.name, body.description, body.startDate, body.endDate,
                         createSlug(body.name), userId, body.organizationId, body.sportId);
      Ok((db.(events := db.events + [event]), eventId))
  }

  /** Event creation keeps every table's unique keys unique. */
  lemma CreateEventPreservesValid(db: Db, userId: string, body: CreateEventBody, eventId: string, createSlug: string -> string)
    requires Valid(db)
    requires forall e :: e in db.events ==> e.id != eventId
    requires CreateEvent(db, userId, body, eventId, createSlug).Ok?
    ensures Valid(CreateEvent(db, userId, body, eventId, createSlug).value.0)
  {
    var db' := CreateEvent(db, userId, body, eventId, createSlug).value.0;
    AppendKeepsKeysDistinct(db.events, [db'.events[|db.events|]], EventId);
  }
}
