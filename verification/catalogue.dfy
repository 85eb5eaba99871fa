/**
 * The permission vocabulary: the actions and subjects an ability is asked
 * about, the per-subject action catalogues, and the union of query tuples
 * that the application's ability type admits.
 */
module Catalogue {
  import opened Outcomes

  /** Verbs; `Manage` is the wildcard that stands for every action. */
  datatype Action = Manage | Get | Create | Update | Delete | TransferOwnership

  /** Resource kinds; `All` is the wildcard that stands for every subject. */
  datatype Subject = User | Organization | Invite | All

  function ActionName(a: Action): string {
    match a
    case Manage => "manage"
    case Get => "get"
    case Create => "create"
    case Update => "update"
    case Delete => "delete"
    case TransferOwnership => "transfer_ownership"
  }

  function SubjectName(s: Subject): string {
    match s
    case User => "User"
    case Organization => "Organization"
    case Invite => "Invite"
    case All => "all"
  }

  function ParseAction(name: string): (r: Option<Action>)
    ensures r.Some? ==> ActionName(r.value) == name
    ensures r.None? ==> forall a :: ActionName(a) != name
  {
    if name == "manage" then Some(Manage)
    else if name == "get" then Some(Get)
    else if name == "create" then Some(Create)
    else if name == "update" then Some(Update)
    else if name == "delete" then Some(Delete)
    else if name == "transfer_ownership" then Some(TransferOwnership)
    else None
  }

  function ParseSubject(name: string): (r: Option<Subject>)
    ensures r.Some? ==> SubjectName(r.value) == name
    ensures r.None? ==> forall s :: SubjectName(s) != name
  {
    if name == "User" then Some(User)
    else if name == "Organization" then Some(Organization)
    else if name == "Invite" then Some(Invite)
    else if name == "all" then Some(All)
    else None
  }

  /** One arm of the union schema: a pair of one of the literal `actions` and the literal `subject`. */
  datatype TupleSchema = TupleSchema(actions: seq<string>, subject: string)

  predicate Accepts(schema: TupleSchema, action: string, subject: string) {
    action in schema.actions && subject == schema.subject
  }

  const UserPermission: TupleSchema := TupleSchema(["manage", "get", "update", "delete"], "User")

  const InvitePermission: TupleSchema := TupleSchema(["manage", "get", "create", "delete"], "Invite")

  /** The organization catalogue is not part of this model's sources; this list is an assumption. */
  const OrganizationPermission: TupleSchema :=
    TupleSchema(["manage", "get", "update", "delete", "transfer_ownership"], "Organization")

  const ManageAll: TupleSchema := TupleSchema(["manage"], "all")

  const AppAbilitiesSchema: seq<TupleSchema> :=
    [UserPermission, OrganizationPermission, InvitePermission, ManageAll]

  predicate AnyAccepts(schemas: seq<TupleSchema>, action: string, subject: string) {
    exists i :: 0 <= i < |schemas| && Accepts(schemas[i], action, subject)
  }

  /**
   * Typed reference for the admitted queries, stated by exclusion: each
   * subject rules out the verbs that make no sense for it.
   */
  predicate IsAppAbility(a: Action, s: Subject) {
    match s
    case User => a != Create && a != TransferOwnership
    case Invite => a != Update && a != TransferOwnership
    case Organization => a != Create
    case All => a == Manage
  }

  /** Validates an (action, subject) query against the union schema. */
  function ParseAppAbility(action: string, subject: string): (r: Option<(Action, Subject)>)
    ensures r.Some? ==> ActionName(r.value.0) == action && SubjectName(r.value.1) == subject
    ensures r.Some? ==> IsAppAbility(r.value.0, r.value.1)
  {
    match (ParseAction(action), ParseSubject(subject))
    case (Some(a), Some(s)) =>
      if AnyAccepts(AppAbilitiesSchema, action, subject) then Some((a, s)) else None
    case _ => None
  }

  /** The union schema admits exactly the typed catalogue: both directions. */
  lemma AppAbilitiesExact(a: Action, s: Subject)
    ensures ParseAppAbility(ActionName(a), SubjectName(s)) == if IsAppAbility(a, s) then Some((a, s)) else None
  {
    var schemas := AppAbilitiesSchema;
    if IsAppAbility(a, s) {
      match s
      case User => assert Accepts(schemas[0], ActionName(a), SubjectName(s));
      case Organization => assert Accepts(schemas[1], ActionName(a), SubjectName(s));
      case Invite => assert Accepts(schemas[2], ActionName(a), SubjectName(s));
      case All => assert Accepts(schemas[3], ActionName(a), SubjectName(s));
    }
  }

  /** The invite catalogue: exactly manage, get, create and delete, on the subject `Invite` only. */
  lemma InviteCatalogue(a: Action)
    ensures Accepts(InvitePermission, ActionName(a), "Invite") <==> a in {Manage, Get, Create, Delete}
    ensures forall action, subject :: Accepts(InvitePermission, action, subject) ==> subject == SubjectName(Invite)
  {
  }

  /** The user catalogue: exactly manage, get, update and delete, on the subject `User` only. */
  lemma UserCatalogue(a: Action)
    ensures Accepts(UserPermission, ActionName(a), "User") <==> a in {Manage, Get, Update, Delete}
    ensures forall action, subject :: Accepts(UserPermission, action, subject) ==> subject == SubjectName(User)
  {
  }
}
