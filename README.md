# rbac-backend, modelled in Dafny

A model of the three parts of the rbac-backend NestJS service that make decisions, with proofs about them.

- **`PermissionsGuard.canActivate`** (`guard.dfy`, module `PermissionsGuard`) is the authorization decision.
  - Inputs: the permission names an endpoint declares, the identity the JWT strategy put on the request, and each user's roles loaded with their permission names.
  - `CanActivate` computes an `Outcome`: `Allow`, or one of three `ForbiddenException` denials.
  - `Response` turns that outcome into `true` or a 403 with its message.
  - The proofs:
    - against an independent access rule (`Authorized`): the effective set is exactly the union over the roles, and a request is allowed iff every required name is granted;
    - the denial order;
    - irrelevance of order and duplicates in the requirement;
    - monotonicity in roles, in role permissions and in the requirement;
    - the guard never answers `false`.
- **`AuthService.register` / `login`** (`auth.dfy`, module `Auth`).
  - Pure functions: `Registration` (normalise the body, validate it, hash, create) and `LoginOutcome` (look up, verify, sign) describe the service on a user table.
  - The class `AuthService` holds the table. `Register` modifies it and is proved equal to `Registration`. `Login` only reads it and is proved equal to `LoginOutcome`.
  - A JavaScript body is a `Value` (undefined, null, boolean, number, string, array, object), with JavaScript truthiness and `typeof === 'object'`.
  - argon2, `JSON.parse` and the JWT signer are function values in `Collaborators`.
  - The one property assumed of them is `Sound`: a digest made from a password verifies against that password.
- **`prisma/seed.ts` `main`** (`seed.dfy`, module `Seed`).
  - The permission, role and user tables are fields of the class `Database`.
  - Each `upsert` with an empty `update` is `Upsert`: the first row with the key is returned untouched, or the created row is appended.
  - `Database.Seed` runs the four permission upserts, the `admin` and `user` role upserts and the conditional admin grant, in source order. It is proved to leave the state `Seeded(old(State()), ids)`.
  - The lemmas about `Seeded` cover:
    - each catalogue permission exists exactly once;
    - the shape of created roles;
    - the admin grant, in both directions;
    - nothing is removed and no other user is touched;
    - table validity is preserved;
    - idempotence.
- `schema.dfy` (module `Schema`) holds the rows of the three tables and `Find`, a lookup by a unique column (`findUnique`). `wrappers.dfy` holds `Option` and `Result`.

Inputs the source takes from outside are parameters:
- the `@RequiredPermissions` metadata (the guard's `required`);
- `request.user`;
- the user's roles as loaded from the database (`Store`);
- argon2's salt;
- the ids and timestamps the database assigns to created rows (`id`, `now`, `FreshIds`).

Two behaviours of the code that are easy to misread:
- A request lacks an identity when `userId ?? sub` is missing or empty. `??` falls back to `sub` only when `userId` is absent. So an empty-string `userId` is refused with "User not found in request" even when `sub` is set. `Subject` and `CanActivate` model this.
- A body whose `email`/`password` are truthy but not strings passes the service's own checks. What argon2 and Prisma then do with it is outside the service; as a modelling choice, the model refuses it with `ForeignError`.

Ids the database generates are treated in two ways:
- `Seed.Upsert` appends a created row with the id it is given. The seed lemmas assume the ids are unused and distinct (`Fresh`).
- `Auth.Create` models Prisma's unique constraints on the user table: a clash of email or id is refused as `ForeignError`. This keeps `AuthService.Register` free of a precondition on the id.

## Model

| member | source | states |
|---|---|---|
| Schema.Find | src/auth/auth.service.ts:51-53 | `findUnique` on a unique column: a returned index holds the key and no earlier row does; None exactly when no row holds the key |
| PermissionsGuard.Subject | src/auth/permissions.guard.ts:33 | `userId ?? sub`; its contract is stated by DenialReasons and AllowIffAuthorized through `Identified` |
| PermissionsGuard.Effective | src/auth/permissions.guard.ts:55-57 | the effective permission set; its contract is stated by EffectiveIsUnion |
| PermissionsGuard.Every | src/auth/permissions.guard.ts:59-61 | `every`; its contract is stated by EveryIffAll and EveryIffSubset |
| PermissionsGuard.CanActivate | src/auth/permissions.guard.ts:18-68 | the decision; its contract is stated by AllowIffAuthorized, DenialReasons, EmptyRequirementAllows and the monotonicity lemmas |
| PermissionsGuard.Message | src/auth/permissions.guard.ts:35-64 | every denial carries one of the three messages "User not found in request", "User not found", "Insufficient permissions" |
| PermissionsGuard.Response | src/auth/permissions.guard.ts:18-68 | the result is `Ok(true)` exactly for `Allow`; every other outcome is an error carrying its denial message |
| PermissionsGuard.EffectiveIsUnion | src/auth/permissions.guard.ts:55-57 | a name is in the effective set iff some role of the user lists it; nothing is granted implicitly |
| PermissionsGuard.EveryIffAll | src/auth/permissions.guard.ts:59-61 | `every` holds iff each required name, by exact match, is in the effective set |
| PermissionsGuard.EveryIffSubset | src/auth/permissions.guard.ts:59-61 | `every` holds iff the set of required names is a subset of the effective set |
| PermissionsGuard.AllowIffAuthorized | src/auth/permissions.guard.ts:26-67 | the guard allows iff nothing is required, or the identified, known caller's roles grant every required name |
| PermissionsGuard.EmptyRequirementAllows | src/auth/permissions.guard.ts:26-28 | an absent or empty requirement allows for any caller and any store |
| PermissionsGuard.DenialReasons | src/auth/permissions.guard.ts:33-65 | with a non-empty requirement: "no identity" iff there is no usable `userId ?? sub`; "user not found" iff the subject is not in the store; "insufficient" iff the subject is known but not authorized |
| PermissionsGuard.NoRolesDenied | src/auth/permissions.guard.ts:55-65 | a known user with no roles is denied "Insufficient permissions" for any non-empty requirement |
| PermissionsGuard.OrderAndDuplicatesIrrelevant | src/auth/permissions.guard.ts:59-61 | two requirements with the same names give the same outcome, whatever their order or repetitions |
| PermissionsGuard.FewerRequiredKeepsAllow | src/auth/permissions.guard.ts:59-61 | removing required names never turns an allow into a deny |
| PermissionsGuard.AddingRoleKeepsAllow | src/auth/permissions.guard.ts:55-61 | inserting a role anywhere in a user's role list never turns an allow into a deny |
| PermissionsGuard.AddingPermissionKeepsAllow | src/auth/permissions.guard.ts:55-61 | adding a permission to one of a user's roles never turns an allow into a deny |
| PermissionsGuard.NeverFalse | src/auth/permissions.guard.ts:18-68 | the response is `true` or one of the three exception messages, never `false` |
| PermissionsGuard.UserRoleScenario | src/roles/roles.controller.ts:13 | a caller with only the `user` role is refused `role:read`, the requirement of the roles endpoints, and `role:write`, and is allowed `user:read` |
| Auth.Normalize | src/auth/auth.service.ts:14-19 | parsing a string body; its contract is stated by InvalidJsonRejected and AcceptedBodies |
| Auth.ReadCredentials | src/auth/auth.service.ts:14-30 | validation; its contract is stated by MissingFieldsRejected and AcceptedBodies |
| Auth.Create | src/auth/auth.service.ts:33-38 | `user.create`; its contract is stated by RegistrationConflict and RegistrationKeepsUnique |
| Auth.Registration | src/auth/auth.service.ts:10-47 | `register` on a table; its contract is stated by RegistrationEffect, RegistrationConflict and RegisterThenLogin |
| Auth.LoginOutcome | src/auth/auth.service.ts:49-72 | `login` on a table; its contract is stated by LoginSucceedsIff and LoginFailuresIndistinguishable |
| Auth.InvalidJsonRejected | src/auth/auth.service.ts:14-19 | a string body that does not parse gives BadRequest "Invalid JSON body" and an unchanged table |
| Auth.MissingFieldsRejected | src/auth/auth.service.ts:22-30 | a body that is falsy, or not an object after parsing, or has a falsy email or password gives BadRequest "Email and password are required" and an unchanged table |
| Auth.AcceptedBodies | src/auth/auth.service.ts:14-30 | validation accepts exactly an object, given directly or parsed from a string, whose `email` and `password` are non-empty strings, and yields those two strings |
| Auth.RegistrationEffect | src/auth/auth.service.ts:32-46 | success appends exactly one row with the input email and `hash(password)` and returns that row's id, timestamps, email and password; failure leaves the table unchanged |
| Auth.RegistrationConflict | src/auth/auth.service.ts:33-38 | once validation passes, `user.create` fails iff the email or the database's id is already taken |
| Auth.RegistrationKeepsUnique | src/auth/auth.service.ts:33-38 | registration keeps emails and ids unique |
| Auth.LoginFailuresIndistinguishable | src/auth/auth.service.ts:55-62 | every login failure is Unauthorized "Invalid credentials", and an unknown email always fails |
| Auth.LoginSucceedsIff | src/auth/auth.service.ts:51-70 | login succeeds iff the stored digest of that email's user verifies the password; the token is signed over `{sub: id, email}` |
| Auth.RegisterThenLogin | src/auth/auth.service.ts:32-70 | after a successful registration of `{email, password}`, logging in with them succeeds with a token for the new id |
| Auth.AuthService.constructor | src/auth/auth.service.ts:8 | the service starts on a given user table with sound collaborators |
| Auth.AuthService.Register | src/auth/auth.service.ts:10-47 | the new table and the result are those of `Registration`; emails and ids stay unique |
| Auth.AuthService.Login | src/auth/auth.service.ts:49-72 | the result is `LoginOutcome` on the unchanged table; every error is "Invalid credentials" |
| Auth.AuthService.RegisterAndLogin | src/auth/auth.service.ts:10-72 | registration succeeds iff email and password are non-empty and email and id are unused, and then login yields a token for `{sub: id, email}` |
| Seed.Upsert | prisma/seed.ts:8-12 | an upsert with an empty `update`; its contract is stated by UpsertStep and UpsertKeepsUnique |
| Seed.UpsertPermission | prisma/seed.ts:8-12 | a permission upsert by name; its contract is stated by UpsertStep |
| Seed.UpsertRole | prisma/seed.ts:31-39 | a role upsert by name; its contract is stated by UpsertStep |
| Seed.UpsertCatalogue | prisma/seed.ts:7-28 | the four permission upserts; its contract is stated by PermissionPhase, PermissionsStayUnique and CatalogueOnce |
| Seed.AdminRow | prisma/seed.ts:34-38 | the created `admin` row, connected to every upserted permission; its contract is stated by AdminRowCreated |
| Seed.UserRow | prisma/seed.ts:44-50 | the created `user` row; its contract is stated by UserRowCreated |
| Seed.UpsertRoles | prisma/seed.ts:31-51 | the two role upserts; its contract is stated by RolePhase and RolesStayUnique |
| Seed.HoldsRoleNamed | prisma/seed.ts:58 | `roles.some(r => r.name === 'admin')`; its contract is stated by GrantAdminHolds and HoldsRoleNamedGrows |
| Seed.GrantAdmin | prisma/seed.ts:54-64 | the conditional grant; its contract is stated by GrantAdminEffect, GrantAdminHolds and GrantAdminIdempotent |
| Seed.Seeded | prisma/seed.ts:5-67 | the state after `main`; its contract is stated by SeedIdempotent, SeedKeepsValid, SeedKeepsExisting and AdminGrantIff |
| Seed.HoldsRoleNamedGrows | prisma/seed.ts:58 | holding a role named `admin` is kept when the role table grows |
| Seed.UpsertStep | prisma/seed.ts:8-12 | an upsert only appends; it appends the created row iff the key was absent, and the returned row is the one the key finds afterwards |
| Seed.UpsertKeepsUnique | prisma/seed.ts:8-12 | an upsert whose created row has an unused id keeps the key and the id unique |
| Seed.PermissionPhase | prisma/seed.ts:7-28 | the permission table only grows, and each catalogue name finds the row its upsert returned |
| Seed.PermissionsStayUnique | prisma/seed.ts:7-28 | with fresh distinct ids, permission names and ids stay unique |
| Seed.CatalogueOnce | prisma/seed.ts:7-28 | after the four upserts, each catalogue name is held by exactly one row |
| Seed.CatalogueSettled | prisma/seed.ts:7-28 | when every catalogue name is present, the four upserts change nothing |
| Seed.PermissionsSettle | prisma/seed.ts:7-28 | a second run of the four upserts leaves the table the first run left |
| Seed.RolePhase | prisma/seed.ts:31-51 | the role table only grows; `admin` and `user` find the rows their upserts returned; new rows are the two created rows |
| Seed.RoleIds | prisma/seed.ts:31-51 | the role upserts introduce no ids but the two fresh ones |
| Seed.RolesStayUnique | prisma/seed.ts:31-51 | role names and ids stay unique |
| Seed.RolesSettle | prisma/seed.ts:31-51 | a second run of the role upserts leaves the table unchanged and returns the same `admin` row |
| Seed.AdminRowCreated | prisma/seed.ts:31-39 | a missing `admin` role is appended, connected to the ids of exactly the four catalogue permissions |
| Seed.UserRowCreated | prisma/seed.ts:41-51 | a missing `user` role is created, connected to the ids of exactly `user:read` and `user:write` |
| Seed.GrantAdminEffect | prisma/seed.ts:54-64 | the grant only adds the `admin` id to the `admin@test.com` row; emails and ids stay; a change implies the account exists and held no `admin` role |
| Seed.GrantAdminHolds | prisma/seed.ts:58-62 | once granted with `admin` in the table, the account holds a role named `admin` |
| Seed.GrantAdminIdempotent | prisma/seed.ts:58 | granting twice is granting once |
| Seed.RoleReferencesKept | prisma/seed.ts:31-51 | every permission a role is connected to is still a row of the permission table |
| Seed.UserReferencesKept | prisma/seed.ts:59-62 | every role a user is connected to is still a row of the role table |
| Seed.SeedCatalogueOnce | prisma/seed.ts:7-28 | after `main`, each of the four permissions exists exactly once |
| Seed.AdminRoleCreated | prisma/seed.ts:31-39 | after `main`, a previously missing `admin` role exists, connected to exactly the four catalogue permissions |
| Seed.UserRoleCreated | prisma/seed.ts:41-51 | after `main`, a previously missing `user` role exists, connected to exactly `user:read` and `user:write` |
| Seed.AdminAccountHoldsAdmin | prisma/seed.ts:54-62 | after `main`, an existing `admin@test.com` holds a role named `admin` |
| Seed.AdminGrantIff | prisma/seed.ts:54-64 | the user table changes iff `admin@test.com` exists and held no role named `admin` |
| Seed.SeedKeepsExisting | prisma/seed.ts:8-64 | no row is removed or changed, no user loses a role, only roles of `admin@test.com` change |
| Seed.SeedKeepsValid | prisma/seed.ts:8-64 | unique names, emails and ids and all connections stay valid |
| Seed.SeedIdempotent | prisma/seed.ts:8-64 | running `main` twice gives the state of running it once, whatever ids the second run would use |
| Seed.Database.constructor | prisma/seed.ts:3 | the client starts on given tables |
| Seed.Database.UpsertPermissionRow | prisma/seed.ts:8-12 | the new permission table and the returned row are those of `Upsert` by name |
| Seed.Database.UpsertRoleRow | prisma/seed.ts:31-39 | the new role table and the returned row are those of `Upsert` by name |
| Seed.Database.ConnectRole | prisma/seed.ts:59-62 | `connect` adds the role id to exactly that user's roles |
| Seed.Database.UpsertPermissions | prisma/seed.ts:7-28 | the permission table after the four upserts, and their rows in order |
| Seed.Database.UpsertRolesRows | prisma/seed.ts:31-51 | the role table after the two upserts, and the `admin` row |
| Seed.Database.GrantAdminRole | prisma/seed.ts:54-64 | the user table after the conditional grant |
| Seed.Database.Seed | prisma/seed.ts:5-67 | the state after `main` is `Seeded` of the state before |
| Seed.Database.SeedTwice | prisma/seed.ts:5-67 | two runs leave the state of one |

## Left out

- argon2 hashing and verification, JWT signing and `JSON.parse` are foreign code. They are function values; the only assumption is that a digest verifies its own password.
- Auth.RegistrationEffect: it states that the stored password is the digest. It does not state that the digest differs from the plaintext, because nothing is assumed of argon2 beyond verification.
- Auth.ReadCredentials: a truthy `email` or `password` that is not a string is modelled as `ForeignError`. What argon2 and Prisma really do with such a value is not modelled; argon2 may accept some of them.
- Auth.LoginOutcome: the exception `argon.verify` throws on a malformed stored digest is not modelled. `verify` always answers a boolean, so every modelled login failure is "Invalid credentials".
- Seed.Upsert: a generated id that clashes with an existing row is not modelled as an error. The seed lemmas assume fresh ids (`Fresh`) instead.
- `login`'s body is taken as two strings. A body missing `email` reaches Prisma with `undefined`; that behaviour is not modelled.
- JWT verification, token expiry and the population of `request.user` (the JWT guard and strategy) are not part of this model. `request.user` is an input.
- `src/auth/auth.module.ts` (the `JWT_SECRET` check, the `expiresIn` default) is configuration, not logic.
- The `Reflector` metadata lookup is not modelled; the required list is a parameter.
- The Prisma query that loads a user with roles and permissions is not modelled. The guard receives the result as `Store`.
- The `Promise.all` around the four permission upserts is sequenced in listed order. They touch distinct names, so the resulting table is the same up to the order in which rows are appended.
- `console.log` output, the script's `catch`/`process.exit`, and `$disconnect` are not modelled.
- JavaScript numbers are integers here: `NaN` and `-0`, which are falsy, are not modelled.
- Seed.Database.ConnectRole: it does not model a refresh of the row's `updatedAt`; the Prisma schema is not part of this model.
- The users controller, the roles service and the module wiring are single Prisma calls or configuration and are not modelled. This includes `addRoleToUser`.
- A unique-constraint violation on `user.create` is `ForeignError`, with the table unchanged; the source does not shape that error.
