# plataforma-eventos in Dafny

A Dafny model of the core of *plataforma-eventos*, a Next.js application in
which the collaborators of an organisation register, wait for an
administrator's approval, and then create and follow events (contacts,
authorities, invitees, a report with images and videos, public questions).
Every action leaves an audit log, and administrators see a metrics
dashboard, the log table and the list of accounts awaiting approval.

The model follows the program's files, one module per file:

- `Store` (`lib/database.ts`): the four JSON collections (users, events,
  questions, logs) as `seq` fields of a `Database` class whose methods read
  a whole collection, change it and write it back. Ids and clock readings
  come in as a `Stamp` parameter.
- `Auth` (`lib/auth.ts`): the session projection and the session cookie
  (a `CookieJar` class), the `requireAuth`/`requireAdmin` guards with their
  redirects as values, the `login` check chain and `register`. Password
  hashing is a function parameter `hash`.
- `Audit` (`lib/audit.ts`): the eight helpers, their action tags and meta
  keys, and the append that swallows store failures.
- `Seed` (`lib/seed.ts`): the three initial accounts, created only on an
  empty user collection.
- `RouteGuard`, `ApiEventos`, `ApiLogin`, `ApiRegister`, `ApiAdminUsuarios`
  (the `app/api` routes): input checks, status codes and the writes they
  make.
- `EventosPage`, `NuevoEventoPage`, `LogsTable`, `LogsPage`, `Dashboard`,
  `AdminUsuariosPage`, `LoginPage`, `RegisterPage`, `InformeForm` (the
  pages and the report form): permission predicates, form handlers as
  state-to-state functions, validators, and the aggregations behind the
  administrator pages. The in-place timestamp sort of the log page works on
  an `array`, and the `reduce` tallies are loops.
- `Common`, `Sorting`, `Tally`: the JavaScript built-ins the code relies on
  (`filter`, `find`, `trim`, `toLowerCase`, `includes`, `parseInt`,
  `Array.prototype.sort`, object accumulators), each with the properties
  the rest of the model needs.

All source paths below are relative to the repository root.

## Model

| member | source | states |
|---|---|---|
| Store.NewUser | plataforma-eventos/src/lib/database.ts:115-126 | a created user keeps every input field; the generated id and both timestamps override any field of the same name |
| Store.MergeUser | plataforma-eventos/src/lib/database.ts:128-140 | the shallow merge of a patch over a user always ends with `updatedAt` at the new time |
| Store.MergeUserEmptyPatch | plataforma-eventos/src/lib/database.ts:133-137 | an empty patch changes nothing but `updatedAt` |
| Store.MergeUserIgnoresPatchedUpdatedAt | plataforma-eventos/src/lib/database.ts:133-137 | an `updatedAt` inside the patch never wins over the new time |
| Store.MergeUserIdempotent | plataforma-eventos/src/lib/database.ts:133-137 | applying the same patch twice at the same time equals applying it once |
| Store.ApprovalPatch | plataforma-eventos/src/lib/database.ts:133-137 | the patch `{aprobado: true}` sets exactly the flag and the update time |
| Store.NewEvent | plataforma-eventos/src/lib/database.ts:154-165 | a created event keeps every input field; id and both timestamps are the generated ones |
| Store.MergeEvent | plataforma-eventos/src/lib/database.ts:167-179 | the merged event always carries the new `updatedAt` |
| Store.MergeEventEmptyPatch | plataforma-eventos/src/lib/database.ts:172-176 | an empty event patch changes only `updatedAt` |
| Store.MergeEventIgnoresPatchedUpdatedAt | plataforma-eventos/src/lib/database.ts:172-176 | a patched `updatedAt` is overridden by the new time |
| Store.MergeEventDescription | plataforma-eventos/src/lib/database.ts:172-176 | a one-field patch changes that field and `updatedAt`, nothing else |
| Store.NewPregunta | plataforma-eventos/src/lib/database.ts:203-213 | a question gets the generated id and `createdAt`, keeps its three input fields, and has no `updatedAt` |
| Store.NewLog | plataforma-eventos/src/lib/database.ts:232-242 | a log id is `log_` followed by the generated id; timestamp is the clock reading; the other fields are the input's |
| Store.PreguntasOfEventExact | plataforma-eventos/src/lib/database.ts:215-218 | a question is in the result exactly when it is stored and belongs to that event |
| Store.Stored | plataforma-eventos/src/lib/database.ts:104-108 | an absent collection file reads as the empty sequence |
| Store.Database.constructor | plataforma-eventos/src/lib/database.ts:88-101 | the store starts from whatever files exist |
| Store.Database.InitializeFiles | plataforma-eventos/src/lib/database.ts:88-101 | afterwards all four files exist and no collection's contents change |
| Store.Database.GetUsers | plataforma-eventos/src/lib/database.ts:104-108 | returns the stored users and changes no collection |
| Store.Database.SaveUsers | plataforma-eventos/src/lib/database.ts:110-113 | replaces the users collection and nothing else |
| Store.Database.CreateUser | plataforma-eventos/src/lib/database.ts:115-126 | appends exactly one user at the end; earlier users and the other collections are unchanged |
| Store.Database.UpdateUser | plataforma-eventos/src/lib/database.ts:128-140 | unknown id: null and nothing written; known id: only the first match becomes the merged record, every other position and the length stay |
| Store.Database.GetEvents | plataforma-eventos/src/lib/database.ts:143-147 | returns the stored events and changes no collection |
| Store.Database.SaveEvents | plataforma-eventos/src/lib/database.ts:149-152 | replaces the events collection and nothing else |
| Store.Database.CreateEvent | plataforma-eventos/src/lib/database.ts:154-165 | appends exactly one event at the end and changes nothing else |
| Store.Database.UpdateEvent | plataforma-eventos/src/lib/database.ts:167-179 | unknown id: null and nothing written; known id: only the first match changes |
| Store.Database.DeleteEvent | plataforma-eventos/src/lib/database.ts:181-189 | false and nothing written for an unknown id; otherwise the first match is spliced out and the rest keep their order |
| Store.Database.GetPreguntas | plataforma-eventos/src/lib/database.ts:192-196 | returns the stored questions and changes no collection |
| Store.Database.SavePreguntas | plataforma-eventos/src/lib/database.ts:198-201 | replaces the questions collection and nothing else |
| Store.Database.CreatePregunta | plataforma-eventos/src/lib/database.ts:203-213 | appends exactly one question at the end |
| Store.Database.GetPreguntasByEventId | plataforma-eventos/src/lib/database.ts:215-218 | the order-preserving subsequence of that event's questions; nothing changes |
| Store.Database.GetLogs | plataforma-eventos/src/lib/database.ts:221-225 | returns the stored logs and changes no collection |
| Store.Database.SaveLogs | plataforma-eventos/src/lib/database.ts:227-230 | replaces the logs collection and nothing else |
| Store.Database.CreateLog | plataforma-eventos/src/lib/database.ts:232-242 | appends exactly one log at the end |
| Store.Database.GetLogsByAction | plataforma-eventos/src/lib/database.ts:244-247 | the order-preserving subsequence of logs with that action; nothing changes |
| Store.Database.GetLogsByActor | plataforma-eventos/src/lib/database.ts:249-252 | the order-preserving subsequence of logs with that actor; nothing changes |
| Auth.ToSessionUser | plataforma-eventos/src/lib/auth.ts:23-31 | the projection keeps id, nombre, apellido, email, role and approval of the user |
| Auth.SessionIgnoresPassword | plataforma-eventos/src/lib/auth.ts:23-31 | the projection does not depend on the password or the timestamps, so none of them reaches the session |
| Auth.PasswordMatches | plataforma-eventos/src/lib/auth.ts:19-21 | a candidate matches when hashing it gives the stored hash; LoginSucceedsIff and RegisterThenLogin rest on it |
| Auth.SessionCookie | plataforma-eventos/src/lib/auth.ts:33-42 | the cookie is http-only, path `/`, and lives seven days (604800 seconds) |
| Auth.ReadSession | plataforma-eventos/src/lib/auth.ts:45-73 | no cookie or an unparseable one reads as no session; a session read is exactly what the cookie holds |
| Auth.SessionRoundTrip | plataforma-eventos/src/lib/auth.ts:23-73 | reading the cookie `createSession` writes gives back the user's projection |
| Auth.CookieJar.constructor | plataforma-eventos/src/lib/auth.ts:33-36 | the jar starts with the request's cookie |
| Auth.CookieJar.CreateSession | plataforma-eventos/src/lib/auth.ts:23-43 | afterwards the jar holds the session cookie of that user |
| Auth.CookieJar.DestroySession | plataforma-eventos/src/lib/auth.ts:75-78 | afterwards the jar holds no session cookie |
| Auth.CookieJar.GetSession | plataforma-eventos/src/lib/auth.ts:45-73 | returns the session the current cookie reads as, never failing |
| Auth.DestroyedSessionReadsNone | plataforma-eventos/src/lib/auth.ts:61-64 | after logout no session is read |
| Auth.RequireAuth | plataforma-eventos/src/lib/auth.ts:80-92 | no session redirects to `/login`, an unapproved one to the pending-message page; granted exactly for approved sessions, which are returned unchanged |
| Auth.RequireAdmin | plataforma-eventos/src/lib/auth.ts:94-102 | applies `requireAuth` first; an approved non-admin is sent to `/eventos`; granted exactly for approved administrators |
| Auth.AdminImpliesAuth | plataforma-eventos/src/lib/auth.ts:94-102 | whatever passes the admin guard passes the plain guard with the same session |
| Auth.UserByEmail | plataforma-eventos/src/lib/auth.ts:107 | finds a stored user with that email, and none exactly when no user has it |
| Auth.LoginOutcome | plataforma-eventos/src/lib/auth.ts:104-138 | success exactly when a user is returned; success implies a known email, a matching password, approval, and the first such user's projection; failures carry one of the two messages |
| Auth.LoginSameFailureMessage | plataforma-eventos/src/lib/auth.ts:109-116 | an unknown email and a wrong password give the identical "Credenciales incorrectas" result |
| Auth.LoginPendingOnlyAfterPassword | plataforma-eventos/src/lib/auth.ts:113-122 | the pending message appears exactly when the email is known, the password matches and the account is unapproved |
| Auth.LoginSucceedsIff | plataforma-eventos/src/lib/auth.ts:104-133 | login succeeds exactly when the first user with that email has a matching password and is approved |
| Auth.Login | plataforma-eventos/src/lib/auth.ts:104-138 | returns the outcome above, writes no collection, and sets the session cookie only on success |
| Auth.RegistrationDraft | plataforma-eventos/src/lib/auth.ts:157-166 | the record to create is a collaborator, unapproved, with the hashed password and the five other fields as given |
| Auth.Register | plataforma-eventos/src/lib/auth.ts:140-173 | fails with "El email ya está registrado" and writes nothing exactly when the email is taken; otherwise appends exactly the new record and reports the pending message |
| Auth.RegisterKeepsEmailsDistinct | plataforma-eventos/src/lib/auth.ts:149-166 | registration preserves the invariant that stored emails are pairwise distinct |
| Auth.RegisterThenLogin | plataforma-eventos/src/lib/auth.ts:104-173 | a fresh account logging in gets the pending message with the right password and the credentials error otherwise |
| Auth.ApprovedUserLogsIn | plataforma-eventos/src/lib/auth.ts:104-133 | once approval is patched in, the same password logs in |
| Audit.MetaKey | plataforma-eventos/src/lib/audit.ts:20-90 | user helpers use `emailUsuario`, every other helper `nombreEvento` |
| Audit.HelperOfTag | plataforma-eventos/src/lib/audit.ts:20-90 | a recognised tag is the tag of the helper returned |
| Audit.TagRoundTrip | plataforma-eventos/src/lib/audit.ts:20-90 | each helper's tag is recognised as that helper |
| Audit.TagsDistinct | plataforma-eventos/src/lib/audit.ts:20-90 | the eight action tags are pairwise distinct |
| Audit.ActionTag | plataforma-eventos/src/lib/audit.ts:20-90 | the action string each helper writes (lines 23, 32, 41, 50, 59, 68, 77, 86); TagRoundTrip and TagsDistinct show the eight are distinct and read back |
| Audit.AuditEntry | plataforma-eventos/src/lib/audit.ts:20-90 | each helper passes the actor through, targets the given id, uses its own tag, and puts the detail under its one meta key |
| Audit.CreateAuditLog | plataforma-eventos/src/lib/audit.ts:10-17 | a store failure changes nothing and is not propagated; otherwise exactly one log is appended |
| Audit.LogAction | plataforma-eventos/src/lib/audit.ts:20-90 | a helper call appends exactly the helper's entry, or nothing when the store fails |
| Seed.SeedDrafts | plataforma-eventos/src/lib/seed.ts:13-49 | three accounts are described |
| Seed.SeedRecords | plataforma-eventos/src/lib/seed.ts:13-49 | the three created users carry the three descriptions in the order admin, Juan, María |
| Seed.Seeded | plataforma-eventos/src/lib/seed.ts:4-56 | a non-empty collection is left alone; an empty one gets the three users, or a prefix of them if a creation fails |
| Seed.SeedDatabase | plataforma-eventos/src/lib/seed.ts:4-56 | the store's users become the seeded collection and nothing else changes |
| Seed.SeedIdempotent | plataforma-eventos/src/lib/seed.ts:6-9 | seeding again after a seeding that created anything changes nothing |
| Seed.SeedPartialIsFinal | plataforma-eventos/src/lib/seed.ts:9-55 | a seeding that stops after the first account is never completed by a later run |
| Seed.SeedOneAdmin | plataforma-eventos/src/lib/seed.ts:21-48 | exactly one seeded account, the first, is an administrator |
| Seed.SeedApprovals | plataforma-eventos/src/lib/seed.ts:22-48 | admin and Juan are approved, María is not |
| Seed.SeedEmailsDistinct | plataforma-eventos/src/lib/seed.ts:17-43 | the seeded emails are pairwise distinct |
| RouteGuard.GateAsWritten | plataforma-eventos/src/app/api/eventos/route.ts:6-17 | the guard inside the try block passes exactly the approved sessions and turns every redirect into a 500 |
| RouteGuard.GateIntended | plataforma-eventos/src/app/api/eventos/route.ts:6-17 | the corrected guard passes the same sessions and lets the redirect reach the client |
| RouteGuard.UnauthenticatedGets500 | plataforma-eventos/src/app/api/eventos/route.ts:7 | a request without a session gets a 500 instead of the redirect to `/login` |
| RouteGuard.IntendedGateRedirects | plataforma-eventos/src/app/api/eventos/route.ts:7 | the corrected guard never answers 500, redirects as `requireAuth` does, and lets through the same sessions |
| ApiEventos.FirstMissing | plataforma-eventos/src/app/api/eventos/route.ts:35-43 | names a required field the body lacks, and none exactly when all are present |
| ApiEventos.DraftFromBody | plataforma-eventos/src/app/api/eventos/route.ts:54-58 | the event to create has the session user as creator, is not finished, and has invitees and at least one contact |
| ApiEventos.PostDecision | plataforma-eventos/src/app/api/eventos/route.ts:20-68 | accepted exactly for a permitted role with all fields and a contact; a role other than admin or collaborator gets 403; statuses are 400, 403 or 500 |
| ApiEventos.ForgedFieldsIgnored | plataforma-eventos/src/app/api/eventos/route.ts:54-58 | `creadoPor` and `finalizado` sent in the body have no effect |
| ApiEventos.ZeroConvocadosRejected | plataforma-eventos/src/app/api/eventos/route.ts:35-43 | zero invitees is a falsy field and is rejected as missing |
| ApiEventos.FirstMissingReported | plataforma-eventos/src/app/api/eventos/route.ts:35-43 | the 400 names the first missing field in the fixed list order |
| ApiEventos.Post | plataforma-eventos/src/app/api/eventos/route.ts:20-68 | every refusal leaves the store unchanged; an accepted body appends exactly one event and returns it |
| ApiEventos.Get | plataforma-eventos/src/app/api/eventos/route.ts:5-18 | past the guard, the whole events collection unfiltered; no write |
| ApiLogin.LoginReplyFor | plataforma-eventos/src/app/api/auth/login/route.ts:5-29 | a missing credential gets 400; otherwise the `login` result with 200 exactly on success and 401 exactly on failure; a body that fails to parse gets 500 |
| ApiLogin.MissingCredentialsIgnoreUsers | plataforma-eventos/src/app/api/auth/login/route.ts:8-13 | a missing credential gives 400 whatever the users are, so `login` is not consulted |
| ApiLogin.UnknownEmailIs401 | plataforma-eventos/src/app/api/auth/login/route.ts:15-21 | an unknown email gets 401 with the credentials message |
| ApiLogin.Post | plataforma-eventos/src/app/api/auth/login/route.ts:5-29 | returns that reply, writes nothing, and sets a session cookie only with a 200 |
| ApiRegister.Whitelist | plataforma-eventos/src/app/api/auth/register/route.ts:6-22 | the data is forwarded exactly when all six fields are non-empty, and each of nombre, apellido, email, celular, sector and password is the body's own value |
| ApiRegister.ExtraKeysIgnored | plataforma-eventos/src/app/api/auth/register/route.ts:6-22 | `rol` and `aprobado` in the body never reach `register` |
| ApiRegister.SelfRegistrationNeverAdmin | plataforma-eventos/src/app/api/auth/register/route.ts:15-22 | a self-registered account is always an unapproved collaborator |
| ApiRegister.Post | plataforma-eventos/src/app/api/auth/register/route.ts:5-32 | 400 without calling `register` when a field is missing; otherwise the register outcome with the default status, duplicate emails included; 500 when the body does not parse |
| ApiAdminUsuarios.ApprovedUsers | plataforma-eventos/src/app/api/admin/usuarios/route.ts:20 | only approved stored users, and every approved user |
| ApiAdminUsuarios.ApprovedUsersInOrder | plataforma-eventos/src/app/api/admin/usuarios/route.ts:20 | the filter keeps stored order |
| ApiAdminUsuarios.ApprovedUsersExact | plataforma-eventos/src/app/api/admin/usuarios/route.ts:20 | a user is listed exactly when stored and approved |
| ApiAdminUsuarios.Get | plataforma-eventos/src/app/api/admin/usuarios/route.ts:5-33 | a non-administrator gets 403 and no data; an administrator gets the stored approved records unprojected; nothing is written |
| EventosPage.CreateButtonMatchesApi | plataforma-eventos/src/app/eventos/page.tsx:14 | the create button shows exactly for the roles the creation endpoint accepts |
| EventosPage.CanCreateEvent | plataforma-eventos/src/app/eventos/page.tsx:14 | admin or colaborador; CreateButtonMatchesApi ties it to the POST role check |
| EventosPage.CreatorName | plataforma-eventos/src/app/eventos/page.tsx:17-20 | an id no user has reads "Usuario desconocido" |
| EventosPage.CreatorNameFirstMatch | plataforma-eventos/src/app/eventos/page.tsx:17-20 | otherwise the name and surname of the first user with that id |
| EventosPage.ControlRules | plataforma-eventos/src/app/eventos/page.tsx:140-156 | delete uses the edit rule; administrators may edit even finished events but never finalize; a collaborator acts only on an open event of their own |
| EventosPage.CanEdit | plataforma-eventos/src/app/eventos/page.tsx:140-146 | an admin, or the colaborador who created a still open event; ControlRules relates it to the other controls |
| EventosPage.CanDelete | plataforma-eventos/src/app/eventos/page.tsx:148-154 | the same condition as edit, which ControlRules proves |
| EventosPage.CanFinalize | plataforma-eventos/src/app/eventos/page.tsx:156 | only the colaborador who created a still open event; ControlRules shows an admin never gets it |
| EventosPage.ShowAssignee | plataforma-eventos/src/app/eventos/page.tsx:124 | a non-empty assignee that differs from the creator; CardOf shows it exactly then |
| EventosPage.CardOf | plataforma-eventos/src/app/eventos/page.tsx:121-127 | the card names the creator, and shows the assignee exactly when one is set and differs from the creator |
| EventosPage.Cards | plataforma-eventos/src/app/eventos/page.tsx:116-160 | one card per stored event, in order |
| EventosPage.Page | plataforma-eventos/src/app/eventos/page.tsx:9-20 | a failed guard redirects and reads nothing; otherwise the create flag and the cards of all events |
| NuevoEventoPage.AddRow | plataforma-eventos/src/app/eventos/nuevo/page.tsx:95-101 | appends one blank row whose id is the list length plus one |
| NuevoEventoPage.RemoveRow | plataforma-eventos/src/app/eventos/nuevo/page.tsx:103-110 | a one-row list is kept; otherwise every row with that id goes and every other stays |
| NuevoEventoPage.RemoveRowExact | plataforma-eventos/src/app/eventos/nuevo/page.tsx:103-110 | with distinct ids, removal drops exactly that row and keeps the order |
| NuevoEventoPage.UpdateRows | plataforma-eventos/src/app/eventos/nuevo/page.tsx:112-119 | rows with the id get the change; all others stay; the length stays |
| NuevoEventoPage.UpdateRowsKeepsIds | plataforma-eventos/src/app/eventos/nuevo/page.tsx:112-119 | an update never changes an id |
| NuevoEventoPage.SetContactoField | plataforma-eventos/src/app/eventos/nuevo/page.tsx:112-119 | only the named field of a contact changes |
| NuevoEventoPage.SetAutoridadField | plataforma-eventos/src/app/eventos/nuevo/page.tsx:138-145 | only the named field of an authority changes |
| NuevoEventoPage.AddContacto | plataforma-eventos/src/app/eventos/nuevo/page.tsx:95-101 | the contact list grows by one; nothing else in the form changes |
| NuevoEventoPage.RemoveContacto | plataforma-eventos/src/app/eventos/nuevo/page.tsx:103-110 | only the contact list changes, and a single contact is never removed |
| NuevoEventoPage.UpdateContacto | plataforma-eventos/src/app/eventos/nuevo/page.tsx:112-119 | only the contact list changes, at the same length |
| NuevoEventoPage.AddAutoridad | plataforma-eventos/src/app/eventos/nuevo/page.tsx:121-127 | the authority list grows by one; nothing else changes |
| NuevoEventoPage.RemoveAutoridad | plataforma-eventos/src/app/eventos/nuevo/page.tsx:129-136 | only the authority list changes, and a single authority is never removed |
| NuevoEventoPage.UpdateAutoridad | plataforma-eventos/src/app/eventos/nuevo/page.tsx:138-145 | only the authority list changes, at the same length |
| NuevoEventoPage.RemoveRowKeepsOne | plataforma-eventos/src/app/eventos/nuevo/page.tsx:103-110 | with distinct ids a removal never empties the list |
| NuevoEventoPage.ContactListEmptied | plataforma-eventos/src/app/eventos/nuevo/page.tsx:96-110 | as written: add after remove can duplicate an id, and then one remove empties the list |
| NuevoEventoPage.DuplicateIdAfterRemove | plataforma-eventos/src/app/eventos/nuevo/page.tsx:96 | as written: ids 1,2,3, remove 2, add gives a second 3, and removing 3 drops both |
| NuevoEventoPage.MaxIdNumber | plataforma-eventos/src/app/eventos/nuevo/page.tsx:96 | bounds the numeric value of every id in the list |
| NuevoEventoPage.AddRowFresh | plataforma-eventos/src/app/eventos/nuevo/page.tsx:95-101 | corrected add: the new id is one more than the largest in use |
| NuevoEventoPage.AddRowFreshKeepsIdsDistinct | plataforma-eventos/src/app/eventos/nuevo/page.tsx:95-101 | the corrected add keeps ids canonical and distinct |
| NuevoEventoPage.FilterKeepsIdsDistinct | plataforma-eventos/src/app/eventos/nuevo/page.tsx:107 | filtering rows keeps ids distinct |
| NuevoEventoPage.RemoveRowKeepsWellFormed | plataforma-eventos/src/app/eventos/nuevo/page.tsx:103-110 | removal keeps a non-empty list of distinct canonical ids |
| NuevoEventoPage.UpdateRowsKeepsWellFormed | plataforma-eventos/src/app/eventos/nuevo/page.tsx:112-119 | updates keep that invariant |
| NuevoEventoPage.RowOperationsKeepIdsUnique | plataforma-eventos/src/app/eventos/nuevo/page.tsx:95-119 | corrected add, remove and update all keep the invariant |
| NuevoEventoPage.AddContactoFresh | plataforma-eventos/src/app/eventos/nuevo/page.tsx:95-101 | corrected handler: grows the contact list by one and changes nothing else |
| NuevoEventoPage.AddAutoridadFresh | plataforma-eventos/src/app/eventos/nuevo/page.tsx:121-127 | corrected handler: grows the authority list by one and changes nothing else |
| NuevoEventoPage.InitialFormWellFormed | plataforma-eventos/src/app/eventos/nuevo/page.tsx:37-50 | the initial form, one contact and one authority with id "1", meets the invariant |
| NuevoEventoPage.FreshHandlersKeepIdsUnique | plataforma-eventos/src/app/eventos/nuevo/page.tsx:95-145 | with the corrected adds, all six handlers keep ids unique and both lists non-empty |
| NuevoEventoPage.FreshIdAfterRemove | plataforma-eventos/src/app/eventos/nuevo/page.tsx:96 | corrected: ids 1,2,3, remove 2, add gives id 4 |
| NuevoEventoPage.ContactosOf | plataforma-eventos/src/app/eventos/nuevo/page.tsx:161 | each form contact becomes one stored contact, in order |
| NuevoEventoPage.AutoridadesOf | plataforma-eventos/src/app/eventos/nuevo/page.tsx:162 | each form authority becomes one stored authority, in order |
| NuevoEventoPage.UnparsableInviteesMissing | plataforma-eventos/src/app/eventos/nuevo/page.tsx:160 | an invitee count `parseInt` cannot read arrives as a missing field |
| NuevoEventoPage.SubmitBody | plataforma-eventos/src/app/eventos/nuevo/page.tsx:158-163 | the body carries the parsed invitee count, only named contacts and authorities, and no creator or finished flag |
| NuevoEventoPage.SubmitKeepsNamedContacts | plataforma-eventos/src/app/eventos/nuevo/page.tsx:161 | every contact with a non-blank name is sent |
| NuevoEventoPage.BlankContactsRefused | plataforma-eventos/src/app/eventos/nuevo/page.tsx:161 | a form whose contacts are all unnamed is refused by the endpoint with "Debe haber al menos un contacto" |
| LogsTable.FilterLogs | plataforma-eventos/src/app/admin/logs/LogsTable.tsx:45-55 | a log is kept exactly when it matches the search (case-insensitive, in actor, action or either meta field) and the action filter |
| LogsTable.MatchesSearch | plataforma-eventos/src/app/admin/logs/LogsTable.tsx:46-50 | the lower-cased term occurs in the actor, the action, or the event-name or user-email meta value; FilterLogs states its membership in both directions |
| LogsTable.KeepLog | plataforma-eventos/src/app/admin/logs/LogsTable.tsx:45-55 | the filter callback: search match and action filter together, used by FilterLogs |
| LogsTable.EmptyCriteriaKeepAll | plataforma-eventos/src/app/admin/logs/LogsTable.tsx:45-55 | no search and no filter keep every log |
| LogsTable.OrderIsTotalPreorder | plataforma-eventos/src/app/admin/logs/LogsTable.tsx:58-85 | each field and direction gives a total preorder |
| LogsTable.SortedLogsSpec | plataforma-eventos/src/app/admin/logs/LogsTable.tsx:58-85 | the sorted list is a permutation of the filtered logs, ordered by the chosen field and direction |
| LogsTable.TotalPages | plataforma-eventos/src/app/admin/logs/LogsTable.tsx:88 | the ceiling of n/20 |
| LogsTable.Slice | plataforma-eventos/src/app/admin/logs/LogsTable.tsx:89-90 | `slice` never grows the list |
| LogsTable.PageOf | plataforma-eventos/src/app/admin/logs/LogsTable.tsx:89-90 | a page holds at most 20 rows, and a page past the end is empty |
| LogsTable.EveryRowOnItsPage | plataforma-eventos/src/app/admin/logs/LogsTable.tsx:88-90 | row i appears on page i/20+1 at position i%20, within the page count |
| LogsTable.PageInRangeNotEmpty | plataforma-eventos/src/app/admin/logs/LogsTable.tsx:88-90 | every page from 1 to the page count shows at least one row |
| LogsTable.Visible | plataforma-eventos/src/app/admin/logs/LogsTable.tsx:89-90 | the table shows at most 20 rows |
| LogsTable.HandleSort | plataforma-eventos/src/app/admin/logs/LogsTable.tsx:92-99 | the same field toggles the direction; a new field is selected descending; nothing else changes |
| LogsTable.HandleSortTwice | plataforma-eventos/src/app/admin/logs/LogsTable.tsx:92-99 | clicking the current column twice restores the state |
| LogsTable.PrevPage | plataforma-eventos/src/app/admin/logs/LogsTable.tsx:234 | only the page changes |
| LogsTable.NextPage | plataforma-eventos/src/app/admin/logs/LogsTable.tsx:245 | only the page changes |
| LogsTable.PrevNextStayInRange | plataforma-eventos/src/app/admin/logs/LogsTable.tsx:225-246 | while the controls show, both buttons keep the page within 1 and the page count |
| LogsTable.SetSearchTerm | plataforma-eventos/src/app/admin/logs/LogsTable.tsx:129 | as written: a new search term leaves the page where it was |
| LogsTable.SetFilterAction | plataforma-eventos/src/app/admin/logs/LogsTable.tsx:137 | as written: a new action filter leaves the page where it was |
| LogsTable.StalePageAfterSearch | plataforma-eventos/src/app/admin/logs/LogsTable.tsx:129 | as written: on page 3, a search matching 1 to 20 logs shows no rows and no page controls |
| LogsTable.SetSearchTermIntended | plataforma-eventos/src/app/admin/logs/LogsTable.tsx:129 | corrected: a new search term returns to page 1 |
| LogsTable.SetFilterActionIntended | plataforma-eventos/src/app/admin/logs/LogsTable.tsx:137 | corrected: a new filter returns to page 1 |
| LogsTable.IntendedControlsKeepPageValid | plataforma-eventos/src/app/admin/logs/LogsTable.tsx:88-246 | with the corrected setters every control keeps the page valid, and a non-empty result always shows rows |
| LogsTable.ActionColor | plataforma-eventos/src/app/admin/logs/LogsTable.tsx:101-103 | an unknown action gets the grey badge |
| LogsTable.ActionLabel | plataforma-eventos/src/app/admin/logs/LogsTable.tsx:105-107 | an unknown action is labelled with its raw string |
| LogsTable.AuditActionsStyled | plataforma-eventos/src/app/admin/logs/LogsTable.tsx:14-34 | every action the audit helpers write gets a colour other than the grey default and a label other than its raw tag |
| LogsTable.AuditColorsDistinct | plataforma-eventos/src/app/admin/logs/LogsTable.tsx:14-23 | no two audit actions share a badge colour |
| LogsPage.NewestFirstIsTotalPreorder | plataforma-eventos/src/app/admin/logs/page.tsx:32 | newest-first by timestamp is a total preorder |
| LogsPage.SortNewestFirst | plataforma-eventos/src/app/admin/logs/page.tsx:32 | sorts the array in place into the newest-first order |
| LogsPage.SortedNewestFirst | plataforma-eventos/src/app/admin/logs/page.tsx:32 | that order is a permutation of the logs with non-increasing timestamps |
| LogsPage.TopActionsSpec | plataforma-eventos/src/app/admin/logs/page.tsx:96-98 | at most 10 entries from the tally, non-increasing counts, none left out that outranks one shown, and all shown when there are at most 10 |
| LogsPage.TopActions | plataforma-eventos/src/app/admin/logs/page.tsx:96-98 | the tally sorted by decreasing count and cut to ten; TopActionsSpec states what that guarantees |
| LogsPage.Page | plataforma-eventos/src/app/admin/logs/page.tsx:10-98 | a non-administrator is denied before any log is read; otherwise the sorted logs, per-action counts summing to the total, and distinct actor and action counts bounded by the total |
| LogsPage.SameImage | plataforma-eventos/src/app/admin/logs/page.tsx:32-41 | sorting does not change the set of actors or actions |
| Dashboard.ComputeMetrics | plataforma-eventos/src/app/admin/dashboard/page.tsx:39-94 | approved and pending add up to the users, finished and active to the events; the per-sector and per-category counts sum to the events; attendees per sector sum to the total attendees over the same sectors |
| Dashboard.MetricsOf | plataforma-eventos/src/app/admin/dashboard/page.tsx:39-65 | every figure the page shows, as one value; ComputeMetrics proves the page's loops give it and that its counts and tallies agree |
| Dashboard.Page | plataforma-eventos/src/app/admin/dashboard/page.tsx:13-36 | a non-administrator is denied and no collection is read; an administrator gets the metrics of the stored collections |
| AdminUsuariosPage.ListsPartitionUsers | plataforma-eventos/src/app/admin/usuarios/page.tsx:13-14 | every user is in exactly the list its flag names, and the lengths add up to the user count |
| AdminUsuariosPage.ListsKeepOrder | plataforma-eventos/src/app/admin/usuarios/page.tsx:13-14 | both lists keep stored order |
| AdminUsuariosPage.ApprovePath | plataforma-eventos/src/app/admin/usuarios/page.tsx:69 | the approval form posts under `/api/admin/usuarios/` |
| AdminUsuariosPage.PendingCards | plataforma-eventos/src/app/admin/usuarios/page.tsx:37-79 | one card per pending user, each with its approval form |
| AdminUsuariosPage.ApprovedCards | plataforma-eventos/src/app/admin/usuarios/page.tsx:84-104 | one card per approved user, without a form |
| AdminUsuariosPage.ApproveOnlyPending | plataforma-eventos/src/app/admin/usuarios/page.tsx:37-104 | the approval form appears exactly on pending users' cards and targets that user |
| AdminUsuariosPage.PendingSectionShown | plataforma-eventos/src/app/admin/usuarios/page.tsx:30 | the pending section shows exactly when some user is unapproved |
| AdminUsuariosPage.Page | plataforma-eventos/src/app/admin/usuarios/page.tsx:9-14 | reachable only through `requireAdmin`; no write |
| LoginPage.EmailPatternIffShape | plataforma-eventos/src/app/login/page.tsx:30 | the regular expression accepts exactly the strings without whitespace, with one '@' not first, and a '.' after it with text on both sides |
| LoginPage.PatternImpliesShape | plataforma-eventos/src/app/login/page.tsx:30 | a string the expression matches has that shape |
| LoginPage.ShapeImpliesPattern | plataforma-eventos/src/app/login/page.tsx:30 | a string of that shape matches the expression |
| LoginPage.ValidateEmail | plataforma-eventos/src/app/login/page.tsx:29-41 | valid exactly when non-empty and matching; empty gives the required message, otherwise the invalid message; a valid email clears the error |
| LoginPage.ValidatePassword | plataforma-eventos/src/app/login/page.tsx:43-54 | valid exactly with six characters; empty and short give their messages; valid clears the error |
| LoginPage.HandleSubmit | plataforma-eventos/src/app/login/page.tsx:56-74 | both errors are set, and a request is sent exactly when both validators pass |
| LoginPage.BothValidatorsRun | plataforma-eventos/src/app/login/page.tsx:59-64 | one field's failure never hides the other's message, and a request goes out exactly when both errors are empty |
| LoginPage.SubmittedRequestPassesPresenceCheck | plataforma-eventos/src/app/login/page.tsx:59-74 | a request the form sends is never answered 400 by the login endpoint |
| LoginPage.React | plataforma-eventos/src/app/login/page.tsx:79-99 | navigates exactly on success; otherwise toasts the server's message, or the connection notice when the fetch fails |
| RegisterPage.HandleChange | plataforma-eventos/src/app/register/page.tsx:41-46 | each of the seven input names replaces its own field and leaves the other six as they were |
| RegisterPage.RequestBody | plataforma-eventos/src/app/register/page.tsx:72-79 | nombre, apellido, email, celular, sector and password are the form's values, and no role or approval flag is sent |
| RegisterPage.HandleSubmit | plataforma-eventos/src/app/register/page.tsx:50-80 | sent exactly when the passwords match and have six characters; mismatch is reported first; the short-password message only for matching passwords |
| RegisterPage.RequestReachesRegister | plataforma-eventos/src/app/register/page.tsx:72-79 | the endpoint forwards exactly the form's six fields when all are filled in, without the confirmation |
| RegisterPage.React | plataforma-eventos/src/app/register/page.tsx:84-93 | the server message is shown as success or error according to its flag; a failed fetch shows the connection notice |
| InformeForm.AddImages | plataforma-eventos/src/components/InformeForm.tsx:25-33 | a batch that would pass five images is refused whole; otherwise appended in order |
| InformeForm.AddVideos | plataforma-eventos/src/components/InformeForm.tsx:35-39 | every video batch is appended, without bound |
| InformeForm.RemoveAt | plataforma-eventos/src/components/InformeForm.tsx:41-47 | exactly index i goes and the rest keep their order |
| InformeForm.RemoveImagen | plataforma-eventos/src/components/InformeForm.tsx:41-43 | only the image list changes, never growing |
| InformeForm.RemoveVideo | plataforma-eventos/src/components/InformeForm.tsx:45-47 | only the video list changes, never growing |
| InformeForm.SetResumen | plataforma-eventos/src/components/InformeForm.tsx:49-99 | typing changes only the summary |
| InformeForm.SubmitCheck | plataforma-eventos/src/components/InformeForm.tsx:54-64 | a blank summary is refused before images are checked; a post happens exactly with a non-blank summary and an image |
| InformeForm.AfterAnswer | plataforma-eventos/src/components/InformeForm.tsx:85-95 | success clears summary, images and videos; a failure keeps them and shows the message |
| InformeForm.HandleSubmit | plataforma-eventos/src/components/InformeForm.tsx:49-99 | a refused submit only sets its message; otherwise the error is cleared and the answer applied |
| InformeForm.InitialValid | plataforma-eventos/src/components/InformeForm.tsx:21-23 | the empty form holds at most five images |
| InformeForm.HandlersKeepValid | plataforma-eventos/src/components/InformeForm.tsx:25-99 | every handler keeps the image list at five or fewer |
| InformeForm.SuccessClears | plataforma-eventos/src/components/InformeForm.tsx:85-90 | after a successful upload the form holds nothing, and submitting again is refused for want of a summary |
| Tally.Reduce | plataforma-eventos/src/app/admin/dashboard/page.tsx:50-65 | the accumulator loop builds the tally, whose values sum to the weights and whose keys are the distinct keys |
| Tally.Sum | plataforma-eventos/src/app/admin/dashboard/page.tsx:47 | the loop computes the sum of the weights |
| Tally.TallyTotal | plataforma-eventos/src/app/admin/logs/page.tsx:36-39 | a tally's values sum to the sum of the weights |
| Tally.TallyKeys | plataforma-eventos/src/app/admin/logs/page.tsx:36-41 | a tally's keys are distinct and are exactly the keys of the input |
| Tally.ImageBound | plataforma-eventos/src/app/admin/logs/page.tsx:41 | there are never more distinct keys than records |
| Tally.Bump | plataforma-eventos/src/app/admin/dashboard/page.tsx:51 | `acc[k] = (acc[k] \|\| 0) + w`; BumpTotal and BumpKeys show it adds w to the total and keeps keys distinct |
| Tally.TallyOf | plataforma-eventos/src/app/admin/dashboard/page.tsx:50-53 | the accumulator after the whole fold; TallyTotal and TallyKeys characterise it |
| Tally.BumpTotal | plataforma-eventos/src/app/admin/dashboard/page.tsx:51 | one step of the fold adds its weight to the sum of the values |
| Tally.BumpKeys | plataforma-eventos/src/app/admin/dashboard/page.tsx:51 | one step keeps the keys distinct and adds exactly its key to the key set |
| Sorting.SortBySorted | plataforma-eventos/src/app/admin/logs/LogsTable.tsx:58-85 | the sort orders its output under any total preorder |
| Sorting.SortBy | plataforma-eventos/src/app/admin/logs/page.tsx:32 | `Array.prototype.sort` as a stable insertion sort: a permutation of its input with the same length; SortBySorted adds that the output is sorted |
| Common.FindFirst | plataforma-eventos/src/lib/auth.ts:107 | `find` returns the first element satisfying the test, none exactly when no element does |
| Common.TrimEmptyIffBlank | plataforma-eventos/src/components/InformeForm.tsx:54 | a string trims to empty exactly when it is all whitespace |
| Common.IncludesIffOccurs | plataforma-eventos/src/app/admin/logs/LogsTable.tsx:45-55 | `includes` holds exactly when the part occurs at some position |
| Common.ParseInt | plataforma-eventos/src/app/eventos/nuevo/page.tsx:160 | `parseInt` reads a number exactly when a digit follows the leading whitespace and optional sign |
| Common.ParseIntRoundTrip | plataforma-eventos/src/app/eventos/nuevo/page.tsx:160 | `parseInt` reads back the decimal form of every n, and of -n after a minus sign, whatever non-digit text follows |
| Common.DigitsValueIsDecimal | plataforma-eventos/src/app/eventos/nuevo/page.tsx:160 | reading a digit run left to right with an accumulator agrees with its decimal value read right to left |

## Left out

- Files and JSON: reading, parsing and writing the JSON files, partial writes and parse failures are not modelled; each collection is an `Option<seq<...>>` where `None` is a missing file.
- Ids and clocks: `Date.now()` and `new Date().toISOString()` are the `Stamp` parameter. The source reads the clock twice for `createdAt` and `updatedAt`; the model uses one reading for both. Nothing proves ids unique, because the source does not make them so.
- Password hashing: bcrypt is the function parameter `hash`, and a password matches when its hash equals the stored one.
- Cookies and redirects: the cookie store is the `CookieJar` class holding one optional cookie; `redirect()` is a result variant.
- Console logging is left out everywhere.
- React rendering, `fetch`, the router and toasts: only the handlers' state changes and decisions are modelled; a failed fetch is the `None` answer.
- A server `message` that is absent is read as the empty string.
- Store failures: a failure inside the audit append or the seeding is the `storeFails` or `created` parameter; other thrown errors are left out.
- Dates and locales: `localeCompare` and date comparisons are the code-point order on ISO strings, and `toLowerCase` covers ASCII and Latin-1 letters only. The month buckets of the dashboard (`app/admin/dashboard/page.tsx`, lines 68-92) and the formatting of timestamps in the log table are left out.
- String lengths count code points rather than UTF-16 units.
- Log meta values are strings.
- ApiEventos.DraftFromBody: the request body is typed (`EventBody`), so three things the JSON allows are not modelled. First, keys other than the sixteen named ones are dropped, where `app/api/eventos/route.ts` lines 54-58 spread every key into the stored event. Second, a truthy value of the wrong type cannot be written, such as `numeroConvocados: "0"`; the source accepts and stores it, and the dashboard then adds it to the attendee total as text (`app/admin/dashboard/page.tsx` line 47). Third, an absent `autoridades` is stored as `[]` where the source stores no key.
- Store.MergeEvent: a patch can set a field but not clear one, so an update that sends `null` for `asignadoA`, `informe` or `qrCode` is not modelled; the same holds for `Store.MergeUser`.
- Auth.ReadSession: a cookie holds either a session or text that does not parse. JSON that parses to something other than a session, such as `{}`, is not modelled. In the source `requireAuth` sends such a cookie to the pending-approval redirect (`lib/auth.ts` lines 65 and 86-88), while the model reads it as no session and redirects to `/login`.
- JavaScript object accumulators are insertion-ordered association lists; the reordering of integer-like keys is not modelled.
- LogsPage.SortNewestFirst: `Array.prototype.sort` is modelled by a stable insertion sort computed on the array's contents and copied back into the array, not by the engine's algorithm.
- Concurrent requests and the lost updates between read-modify-write cycles are left out; the model is sequential.
- The wholly visual components, layout, the session, logout and init routes, and the routes for finalize, report upload, approval, deletion, QR codes and downloads are not part of this model.

## Findings

| source | as written | input that shows it | evidently intended | confidence | as-written member | corrected member |
|---|---|---|---|---|---|---|
| plataforma-eventos/src/app/api/eventos/route.ts:7 | `requireAuth()` runs inside `try`, so the redirect it throws is caught and answered with 500; `app/api/admin/usuarios/route.ts` line 7 does the same | a request with no session cookie | the redirect to `/login` (or to the pending page) reaches the client | not executed | RouteGuard.UnauthenticatedGets500 | RouteGuard.IntendedGateRedirects |
| plataforma-eventos/src/app/eventos/nuevo/page.tsx:96 | a new row's id is the list length plus one, which can repeat an id still in use after a removal; `removeContacto` then drops both rows | contacts 1,2,3: remove 2, add (a second 3), remove 3 leaves only contact 1; from one contact, add, remove 1, add, remove 2 empties the list | ids stay unique, so a remove drops one row and a list never becomes empty | not executed | NuevoEventoPage.DuplicateIdAfterRemove | NuevoEventoPage.FreshHandlersKeepIdsUnique |
| plataforma-eventos/src/app/admin/logs/LogsTable.tsx:129 | changing the search term (and, line 137, the action filter) keeps `currentPage` | more than 40 logs, go to page 3, then search for a term 1 to 20 logs match | the table returns to page 1 and shows the matches | not executed | LogsTable.StalePageAfterSearch | LogsTable.IntendedControlsKeepPageValid |
