# Lync authorization kernel and member-invite lifecycle, in Dafny

This project models the decision logic of the Lync backend, a multi-tenant
service where users belong to organizations with a role (`ADMIN` or
`MEMBER`). It covers three parts.

- **Permission kernel.** Each role's generator emits an ordered list of
  grant (`can`) and deny (`cannot`) rules. The ability built from that list
  answers `can`/`cannot` queries. The last rule that applies decides, and no
  applicable rule means deny. An admin manages everything except
  transferring, updating or deleting an organization. A later conditional
  grant gives those back when `ownerId` equals the admin's id. A member may
  only read users.
- **Member invites.** Creating, accepting, rejecting and revoking an invite,
  and the two invite listings. Each is a pure function over an in-memory
  store (`Schema.Db`). It returns the new store or the failure the request
  ends with (`HttpErrors.Failure`: 401, 400 or an uncaught storage error).
  A failure carries no store, so the store is unchanged.
- **Two smaller handlers.** The organization-admin guard of event creation,
  and password-recovery token rotation.

Modules: `Catalogue` (actions, subjects, the query schema), `Roles`,
`Abilities` (the rule interpreter), `PermissionTable`, `UserPermissions`,
`Schema` (entities, tables, unique keys), `HttpErrors`, `MemberInvites`,
`InviteListing`, `Events`, `PasswordRecovery`, and the helpers `Outcomes`
and `Seqs`.

How the interpreter reads a rule list:
- A rule applies to a query when all three hold:
  - its actions include the queried action or `manage`;
  - its subject is the queried kind or `all`;
  - its condition holds.
- A record's kind is its `__typename` field.
- The one condition, `ownerId == user.id`, is tested against a record.
- Against a bare kind, a conditional grant counts as holding and a
  conditional denial does not. This is how the CASL library answers type-only
  queries. Every route in the model queries a bare kind.

Every state-changing operation has a lemma showing it keeps the store's
unique keys unique (`Schema.Valid`: no two rows of a table share a key, so
a row is also never stored twice). `PermissionTable.Policy` states the
access policy without rules. `PermissionsImplementPolicy` proves the rule
lists implement it for every query.

## Model

| member | source | states |
|---|---|---|
| Catalogue.ParseAppAbility | src/utils/define-user-permissions.ts:14-19 | a query tuple the union schema admits names a real action and subject, and the pair is in the typed catalogue |
| Catalogue.AppAbilitiesExact | src/utils/define-user-permissions.ts:14-19 | the admitted queries are exactly the User, Organization and Invite catalogue pairs plus (manage, all), in both directions |
| Catalogue.InviteCatalogue | src/utils/permissions/invite-permissions.ts:3-11 | the Invite actions are exactly manage, get, create and delete (so not update or transfer_ownership), and the tag is exactly `Invite` |
| Catalogue.UserCatalogue | src/utils/permissions/user-permissions.ts:3-11 | the User actions are exactly manage, get, update and delete (so not create), and the tag is exactly `User` |
| Roles.ParseRole | src/models/user.ts:6 | only the names ADMIN and MEMBER parse, each to the role it names |
| Roles.ParseAuthUser | src/models/user.ts:4-7 | a user record parses exactly when its role is a member role name; the id is kept as given |
| Roles.RoleNameRoundTrip | src/models/user.ts:6 | every role's name parses back to that role |
| Abilities.LastApplicable | src/utils/define-user-permissions.ts:35-45 | finds the last rule that applies to the query (no later rule applies), or reports that none applies |
| Abilities.Can | src/utils/define-user-permissions.ts:35-45 | allowed exactly when some rule that applies grants and no later rule applies; with no applicable rule the answer is deny |
| Abilities.Cannot | src/utils/define-user-permissions.ts:42-43 | denied exactly when every applicable grant is overridden by a later applicable rule, the complement of `Can` |
| Abilities.UnconditionalSeesOnlyTypename | src/utils/define-user-permissions.ts:35-39 | for rules without conditions, querying a record answers as querying the kind named by its `__typename` |
| PermissionTable.PermissionsTotal | src/utils/permissions.ts:10-22 | every member role has a rule generator in `PermissionTable.Permissions` (`AdminRules` for ADMIN, `MemberRules` for MEMBER) |
| PermissionTable.AdminManagesAllElse | src/utils/permissions.ts:12-14 | an admin may perform every action on every subject other than the three owner-only organization actions (e.g. create Invite, delete User) |
| PermissionTable.AdminOwnerOnlyOnRecord | src/utils/permissions.ts:14-17 | on an organization record, an admin may transfer, update or delete exactly when the record's `ownerId` is the admin's id |
| PermissionTable.AdminOwnerOnlyOnKind | src/utils/permissions.ts:15-17 | asked about the Organization kind without a record, the conditional grant answers and the admin is allowed |
| PermissionTable.MemberOnlyReadsUsers | src/utils/permissions.ts:19-21 | a member is allowed exactly `get` on `User` and denied everything else (create or delete Invite, any Organization action) |
| PermissionTable.RuleOrderDecidesOwnerCase | src/utils/permissions.ts:14-17 | the real order grants the owner's update/delete/transfer; with the conditional grant moved before the denial the same query is denied |
| PermissionTable.PermissionsImplementPolicy | src/utils/permissions.ts:10-22 | for every role, action and target, the rules `Permissions` generates (`AdminRules`, `MemberRules`) allow exactly what the rule-free policy allows |
| UserPermissions.DefineUserPermissions | src/utils/define-user-permissions.ts:26-34 | fails with a configuration error exactly when the table has no generator for the role, otherwise the ability holds that generator's rules for that user |
| UserPermissions.DefineUserPermissionsNeverFails | src/utils/define-user-permissions.ts:29-33 | with the application's table, building an ability never fails |
| UserPermissions.GetUserPermissions | src/utils/get-user-permissions.ts:5-11 | rejects a role outside the member roles; otherwise its answers are the policy for the user `{id: userId, role}`, so ownership compares with `userId` |
| UserPermissions.MembershipAbility | src/utils/get-user-permissions.ts:5-11 | for a membership role, building the ability succeeds and answers as the policy for that caller |
| MemberInvites.EmailDomain | src/http/routes/member-invites/create-member-invite.ts:48 | the domain is absent exactly when the address has no '@', and never contains '@' |
| MemberInvites.EmailDomainOfAddress | src/http/routes/member-invites/create-member-invite.ts:48 | the domain of `local@domain` is `domain` |
| MemberInvites.CreateMemberInvite | src/http/routes/member-invites/create-member-invite.ts:32-100 | guards in order: a member gets 401; then auto-join domain, existing invite for (email, org), existing member with that email each give their 400; otherwise exactly one invite {email, role, org, author = caller} is appended and nothing else changes |
| MemberInvites.CreatePreservesValid | src/http/routes/member-invites/create-member-invite.ts:59-96 | creating keeps invite ids and (email, organization) pairs unique |
| MemberInvites.AcceptMemberInvite | src/http/routes/member-invites/accept-member-invite.ts:26-68 | missing invite, missing user and an e-mail mismatch each give their 400; an existing membership aborts the transaction; otherwise the membership {caller, invite's org, invite's role} is added and that invite removed together, and no other table changes; no role is checked |
| MemberInvites.AcceptTwiceFails | src/http/routes/member-invites/accept-member-invite.ts:30-68 | after a successful accept, accepting the same invite again is "invite not found" |
| MemberInvites.AcceptPreservesValid | src/http/routes/member-invites/accept-member-invite.ts:54-68 | accepting keeps memberships unique per (organization, user) and invites unique |
| MemberInvites.RejectMemberInvite | src/http/routes/member-invites/reject-member-invite.ts:26-60 | missing invite, missing user and e-mail mismatch each give their 400; otherwise only that invite is removed and no membership is made |
| MemberInvites.RemovalPreservesValid | src/http/routes/member-invites/reject-member-invite.ts:54-58 | rejecting, revoking as written and the corrected revocation keep every unique key unique |
| MemberInvites.RevokeMemberInviteAsWritten | src/http/routes/member-invites/revoke-member-invite.ts:28-57 | a member gets 401 before any lookup; an unknown id gives 400; an invite of another organization makes the scoped deletion fail; otherwise only that invite is removed |
| MemberInvites.RevokeMemberInvite | src/http/routes/member-invites/revoke-member-invite.ts:34-55 | corrected revocation: a member gets 401; an id not among the caller organization's invites gives 400; otherwise only that invite is removed |
| MemberInvites.RevokeForeignInvite | src/http/routes/member-invites/revoke-member-invite.ts:40-55 | for an admin naming another organization's invite, the handler as written ends in a storage error while the corrected one answers "not found" |
| InviteListing.InsertByCreatedAt | src/http/routes/member-invites/get-member-invites.ts:74-76 | inserting into a newest-first list keeps it newest first and adds exactly that invite |
| InviteListing.SortNewestFirst | src/http/routes/member-invites/get-member-invites.ts:74-76 | the result is ordered by `createdAt` descending and is a permutation of the input |
| InviteListing.OrganizationInvites | src/http/routes/member-invites/get-member-invites.ts:58-77 | exactly the invites of the organization, with multiplicity, newest first |
| InviteListing.GetMemberInvites | src/http/routes/member-invites/get-member-invites.ts:44-79 | gated by "cannot create Invite": a member gets 401, an admin gets exactly the organization's invites, each as often as stored, newest first |
| InviteListing.GetPendingMemberInvites | src/http/routes/member-invites/get-pending-member-invites.ts:43-84 | an unknown caller gets 400; otherwise exactly the invites addressed to the caller's e-mail, from every organization, each once, with no permission check |
| Events.CreateEvent | src/http/routes/events/create-event.ts:31-63 | with an organization, a caller who is not an ADMIN member of it gets 401; then a `sportId` naming no stored sport makes the insert fail in storage; success exactly when neither applies; the event is owned by the caller and copies organization, sport, name, dates and slug of the name |
| Events.CreateEventPreservesValid | src/http/routes/events/create-event.ts:50-61 | creating an event keeps event ids unique |
| PasswordRecovery.RequestPasswordRecover | src/http/routes/auth/request-password-recover.ts:24-50 | the answer is 201 on every path; an unknown e-mail, a failing lookup or a failing deletion changes nothing; if the insert fails after the deletion, the user is left with no recovery token; whenever no link is produced, no token is added; the only token ever added is the new one, for the user with that e-mail; other users' and other types' tokens stay; on success the user holds exactly one recovery token, expiring at now + 3600000, and the link is FRONTEND_URL + "/auth/reset-password?code=" + its id |
| PasswordRecovery.RotationLeavesOneToken | src/http/routes/auth/request-password-recover.ts:35-48 | removing a user's recovery tokens and adding one leaves that one as the user's only recovery token |
| PasswordRecovery.RecoverPreservesValid | src/http/routes/auth/request-password-recover.ts:35-48 | token rotation keeps token ids unique |

## Left out

- The CASL condition engine. The only condition used is `ownerId == user.id`. It is a direct predicate (`Abilities.OwnerIdEquals`).
- The organization action catalogue. Its file is not part of this model. `Catalogue.OrganizationPermission` assumes manage, get, update, delete and transfer_ownership.
- Invalid queries. Queries outside the catalogue are ruled out only by the static types; at run time CASL just answers. So `Abilities.Can` is total, and `Catalogue.ParseAppAbility` is the separate validity check.
- Determinism of the ability in `(id, role)`. A Dafny function has no other inputs, so this holds by construction and needs no lemma.
- Request validation (e-mail and uuid formats, date coercion). Inputs are taken as already valid.
- Authentication and the membership middleware. The caller's id, organization and membership are inputs. The model does not check that the membership belongs to that organization.
- Storage. Tables are sequences of rows. Generated ids and the `now` default are parameters. The id must be fresh, which is the `requires` on the creating operations. A transaction is one step, and concurrent requests are not modelled. The storage schema is not part of this model: the unique keys are the ones the handlers rely on, and the only foreign key checked is the event's sport; the caller's user row and the organization are taken to exist.
- Listing projections. The listings return whole invite rows. The author's name, avatar and the organization name they select are left out.
- GetMemberInvites: invites created at the same instant may come in any order, because the query leaves ties unordered.
- GetPendingMemberInvites: the query sets no order. The model keeps storage order (`Seqs.FilterAppend`), and the contract states membership and that each invite appears once, not the order. The handler's "no pending invites" branch can never run, because the query returns a list, so an empty result is answered with an empty list.
- PasswordRecovery.RequestPasswordRecover: states the token store and the link only. E-mail delivery and the message body are left out. A failing step is named by the `RecoverFault` parameter, and the answer stays 201.
- Events.CreateEvent: `createSlug` is a function parameter and is not interpreted. The organization check follows the handler's truthiness test, so an empty organization id skips it; request validation would already reject that value.
- Environment configuration: `FRONTEND_URL` is a string parameter.
- Routes and helpers outside this core: organization CRUD and transfer, member role updates and removal, the membership projection route, seeding and test fixtures.

## Findings

| source | as written | input that shows it | evidently intended | confidence | as-written member | corrected member |
|---|---|---|---|---|---|---|
| src/http/routes/member-invites/revoke-member-invite.ts:40-55 | the existence check looks the id up in all organizations; the deletion is scoped to the caller's organization and throws when nothing matches, which gives a 500 | an admin of organization A revokes the id of an invite that belongs to organization B | answer 400 "Invite not found", as for an unknown id, before touching storage | medium; not executed | MemberInvites.RevokeMemberInviteAsWritten (shown by MemberInvites.RevokeForeignInvite) | MemberInvites.RevokeMemberInvite |
