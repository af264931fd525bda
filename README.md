# Mutation handlers of the users / departments / environments REST service

This project models in Dafny the mutation handlers of a small Express/knex
REST service. The service manages users, departments, environments, the
department–environment role pivot, tasks and idempotency records. Each
handler becomes a method of a class whose fields are the tables the handler
touches. The method inspects the tables and picks a status code. It then
either applies its writes or leaves every table unchanged. Transactions are
all-or-nothing because the model is sequential.

The model has one module per source file:

- `EnvRoutes` (`routes/envs.js`) covers environment creation and deletion,
  and adding, re-roling and removing departments in the `env_departments`
  pivot. It is guarded by the requester's `owner` row. The orphan-owner
  invariant (every environment keeps at least one owner) is `EnvStore.Valid()`.
  Every handler preserves it, and the lemmas `*KeepsOwners` prove each step.
- `ActionRoutes` (`routes/actions.js`) is the `transfer-user` transaction.
  Its chain of named errors is SameDepartment, UserNotFound, BadSource and
  BadTarget.
- `UserRoutes` (`routes/users.js`) has the idempotent create, the conditional
  PUT with `If-Match`, and the delete guarded by task authorship.
- `DepartmentRoutes` (`routes/departments.js`) has the conditional PUT,
  DELETE, and assigning or unassigning a user. It also has a model of Express
  path matching that shows the literal `/id` route defect (see Findings).
- `KnexServer` (`index2.js`) covers users and departments (create,
  conditional PUT, delete), nested assignment, `transfer-user`, and the
  `department_envs` insert-or-ignore association.
- `FileServer` (`index.js`) is the array-backed server. Its JSON files are
  sequence fields and its `processedKeys` cache is a map field. Both `load`
  and `save` act in memory.

Shared modules:

- `Http` holds absent values, JavaScript truthiness, `??` and status codes.
- `Tables` holds the rows and the conditional-update writes.
- `Idempotency` holds the ledger's lookup and record.
- `Pagination` holds the page window arithmetic.

`genEtag` is an uninterpreted deterministic function that each store receives
as `tag`. So every property about entity tags holds whatever the digest is.
`genId()` and `Date.now()` become the parameters `freshId` and `now`.

The model follows what the handlers do:

- `transfer-user` does not refuse users who author tasks. The only such check
  is commented out at routes/users.js:79-108.
- No handler blocks demoting a department while its users author tasks.
- No handler merges departments or moves tasks between environments.
- The idempotency record is written after the insert, outside any
  transaction.
- The knex connection never enables SQLite's `PRAGMA foreign_keys`. Only the
  raw connection of `makeDb` does. So no foreign-key cascade or check takes
  part, and only the handlers' own checks and deletes do.

The guards the handlers test are named predicates:

- `EnvRoutes.IsOwner` is the requester's `owner` row (routes/envs.js:90).
- `EnvRoutes.EveryEnvOwned` is the invariant that every environment has an
  owner row.
- `Tables.IsAuthor` is "some task has this author" (routes/users.js:113).
- `FileServer.HasName` is `!newUser.name` negated (index.js:104).
- `FileServer.InDepartment` is `departmentId === sourceDepId`
  (index.js:349).

## Model

| member | source | states |
|---|---|---|
| `Http.Coalesce` | routes/users.js:72 | `v ?? d` keeps every present value, the empty string included, and falls back only for null/undefined |
| `Idempotency.Lookup` | routes/users.js:27-30 | a recorded response is found exactly when the key is truthy and recorded, and it is the recorded one |
| `Idempotency.Record` | routes/users.js:36 | a truthy key records the response under that key; without one the ledger is unchanged |
| `Idempotency.RecordThenLookup` | routes/users.js:27-36 | after recording, the key replays that response and every other key replays what it did before |
| `Tables.EditUser` | routes/users.js:72 | the update keeps id and department, sets the timestamp, and replaces name and email only when supplied |
| `Tables.EditDept` | routes/departments.js:55 | the update keeps the id, sets the timestamp, and keeps the old name when none is supplied |
| `Tables.EditUserIdempotent` | routes/users.js:72 | repeating the same edit changes nothing more |
| `Tables.EditUserNothingSupplied` | routes/users.js:72 | an edit with no fields only moves `updated_at` |
| `Pagination.OrDefault` | index2.js:32-33 | `n \|\| d` keeps a nonzero parsed number and falls back to the default for NaN and 0 |
| `Pagination.Window` | index2.js:32-34 | the limit is never 0, and the offset is `(page-1)*limit` of the defaulted values |
| `Pagination.DefaultWindow` | index2.js:89-91 | without parameters (or with 0) the window is the first ten rows |
| `Pagination.WindowsAdjacent` | index2.js:34 | for positive page and limit the offset is non-negative and page p+1 starts where page p ends |
| `Pagination.WindowsDisjoint` | index2.js:91 | windows of distinct positive pages never overlap |
| `EnvRoutes.ParseRole` | routes/envs.js:104-107 | a role string is accepted exactly when it is owner, reporter or member, and names the role returned |
| `EnvRoutes.ParseRoleName` | routes/envs.js:104-105 | every role's name passes the role check and parses back to that role |
| `EnvRoutes.OwnerSlugs` | routes/envs.js:193-195 | the owner rows of an environment: d is in it exactly when (env, d) has role owner |
| `EnvRoutes.PivotWithoutEnv` | routes/envs.js:232 | exactly the pivot rows of other environments remain, with their roles |
| `EnvRoutes.TasksWithoutEnv` | routes/envs.js:233 | exactly the tasks of other environments remain, unchanged |
| `EnvRoutes.AnotherOwnerRemains` | routes/envs.js:190-198 | an owner whose environment's owner count is not 1 is not the only owner |
| `EnvRoutes.RemoveKeepsOwners` | routes/envs.js:173-203 | removing a row as an owner, and removing oneself only when not the single owner, keeps every environment owned |
| `EnvRoutes.ReRoleKeepsOwners` | routes/envs.js:129-160 | an owner re-roling another department keeps every environment owned |
| `EnvRoutes.AddKeepsOwners` | routes/envs.js:95-113 | inserting a new pivot row keeps every environment owned |
| `EnvRoutes.CreateKeepsOwners` | routes/envs.js:28-37 | a new environment with its owner row keeps every environment owned |
| `EnvRoutes.DeleteKeepsOwners` | routes/envs.js:231-235 | the cascade delete keeps every remaining environment owned |
| `EnvRoutes.EnvStore.CreateEnv` | routes/envs.js:24-39 | 400 with no write without name or ownerDept; otherwise the env row and exactly one owner row are inserted and 201 `{id, name}` |
| `EnvRoutes.EnvStore.AddDepartment` | routes/envs.js:77-116 | 400 / 403 (requester not owner) / 409 (pair exists) / 400 (invalid role) in that order with no write; otherwise exactly one new row with the role and 204 |
| `EnvRoutes.EnvStore.ChangeRole` | routes/envs.js:120-163 | 400 / 403 / 404 (target not in env) / 409 (own department) / 400 (invalid role) with no write; otherwise only that row's role changes and 204 |
| `EnvRoutes.EnvStore.RemoveDepartment` | routes/envs.js:166-206 | 400 / 403 / 404 with no write; 409 when the requester removes itself as the only owner; otherwise exactly that row is deleted and 204 |
| `EnvRoutes.EnvStore.DeleteEnv` | routes/envs.js:210-238 | 400 / 403 / 404 (missing env) with no write; otherwise the env, all its pivot rows and tasks go and other envs' rows stay |
| `EnvRoutes.SoleOwnerCannotLeave` | routes/envs.js:141-198 | a sole owner can neither remove nor re-role itself: the pivot is unchanged |
| `ActionRoutes.ErrorNamesDistinct` | routes/actions.js:28-32 | distinct transfer errors reach the client as distinct messages |
| `ActionRoutes.ActionStore.TransferUser` | routes/actions.js:24-40 | SameDepartment, UserNotFound, BadSource, BadTarget in that order, each 400 with its name and no write; success exactly when all pass, changing only that user's department, 200 "Transfer success" |
| `ActionRoutes.TransferAndBack` | routes/actions.js:33 | a successful transfer followed by the transfer back restores the users table |
| `UserRoutes.UserStore.Create` | routes/users.js:25-38 | a recorded key replays its response with no insert; no name gives 400 with nothing inserted or recorded; otherwise one user is inserted and 201 `{id, name, email}` recorded under the key |
| `UserRoutes.UserStore.Update` | routes/users.js:61-77 | 428, 404, 412 in that order with no write; 200 exactly when the tag matches, with only supplied fields replaced, id kept, and the new row's tag returned |
| `UserRoutes.UserStore.Delete` | routes/users.js:111-120 | 409 with no delete for an author of any task; 404 for an unknown user; otherwise exactly that row is removed and 204 |
| `UserRoutes.CreateRetried` | routes/users.js:27-37 | a retry with the same key returns the same response and at most one user is added |
| `UserRoutes.LostUpdatePrevented` | routes/users.js:63-72 | of two editors holding the same tag the second is refused and only the first edit is stored |
| `DepartmentRoutes.DepartmentStore.Update` | routes/departments.js:48-59 | 428, 404, 412 with no write; otherwise the name is replaced only when supplied and the updated row's tag returned |
| `DepartmentRoutes.DepartmentStore.Delete` | routes/departments.js:60-64 | 404 exactly when no row is deleted, otherwise 204 |
| `DepartmentRoutes.DepartmentStore.AssignUser` | routes/departments.js:71-75 | 404 exactly for an unknown user; otherwise the user's department becomes the path id |
| `DepartmentRoutes.DepartmentStore.UnassignUser` | routes/departments.js:76-80 | 404 exactly for an unknown user; otherwise the user's department becomes null |
| `DepartmentRoutes.MatchPath` | routes/departments.js:48 | a path matches exactly when it has the pattern's length and agrees on every literal segment; a match binds exactly the pattern's parameter names, and a parameter whose name is not repeated binds its own path segment |
| `DepartmentRoutes.AsWrittenNeverBindsId` | routes/departments.js:48-51 | the registered `/id` patterns never bind `id`, and `/sales` does not reach them |
| `DepartmentRoutes.IntendedRoutesBindId` | routes/departments.js:71-72 | `/:id` and `/:id/users/:userId` bind the department id (and the user id) from the path |
| `KnexServer.Server.CreateUser` | index2.js:50-63 | replay under a recorded key with no insert; 400 without a name; otherwise one user inserted and 201 recorded |
| `KnexServer.Server.UpdateUser` | index2.js:66-78 | 428, 404, 412 in that order with no write; otherwise name and email replaced only when supplied |
| `KnexServer.Server.DeleteUser` | index2.js:81-85 | 404 exactly when no row is deleted, otherwise 204 |
| `KnexServer.Server.CreateDepartment` | index2.js:103-109 | 400 without a name; otherwise one department inserted and 201 `{id, name}` |
| `KnexServer.Server.UpdateDepartment` | index2.js:110-121 | 428, 404, 412 in that order with no write; the name is kept when not supplied |
| `KnexServer.Server.DeleteDepartment` | index2.js:122-126 | 404 exactly when no row is deleted, otherwise 204 |
| `KnexServer.Server.AssignUser` | index2.js:133-137 | 404 exactly for an unknown user; otherwise its department becomes the path id |
| `KnexServer.Server.UnassignUser` | index2.js:138-142 | 404 exactly for an unknown user; otherwise its department becomes null |
| `KnexServer.Server.TransferUser` | index2.js:169-183 | UserNotFound, BadSource with 400 and rollback; otherwise only that user's department becomes toDept |
| `KnexServer.Server.Associate` | index2.js:195-198 | the link is present afterwards and the reply is always 204 |
| `KnexServer.Server.Dissociate` | index2.js:201-206 | the link is absent afterwards and the reply is always 204 |
| `KnexServer.AssociateIdempotent` | index2.js:196 | associating twice leaves the same links as associating once |
| `KnexServer.AssociateThenDissociate` | index2.js:195-206 | dissociating undoes a new association |
| `FileServer.Filter` | index.js:185 | every passing element is kept as often as it occurs and every failing one is dropped; the result has the input's length exactly when all pass |
| `FileServer.FindIndex` | index.js:146 | the first index whose object has the id, or -1 exactly when none has it |
| `FileServer.NewUser` | index.js:98-101 | the new user has every body field, with a body `id` overriding the generated one |
| `FileServer.Overlay` | index.js:163 | body fields win over current ones, other current fields stay, and the id is the path id |
| `FileServer.Store.CreateUser` | index.js:86-130 | a cached key replays with nothing appended; no name gives 400 and caches it; otherwise exactly one user is appended and 201 cached |
| `FileServer.Store.UpdateUser` | index.js:134-178 | 428, 404, 412 with the array unchanged; otherwise only the element at the user's index is replaced by the overlay and its tag returned |
| `FileServer.Store.DeleteUser` | index.js:181-199 | 404 exactly when no user has the id; otherwise every user with the id is removed and 204 |
| `FileServer.Store.AddLink` | index.js:234-277 | 400 without envId; 404 for an unknown department or env; 204 with no duplicate for an existing link; otherwise exactly one link is appended and 201 |
| `FileServer.Store.DeleteLink` | index.js:280-302 | 404 exactly when the link is absent; otherwise all matching links are removed and 204 |
| `FileServer.Store.TransferUser` | index.js:312-390 | 400 for missing ids; 404 for an unknown department or user; 400 when the user is not in the source; otherwise only that user's departmentId becomes the target |
| `FileServer.CreateRetried` | index.js:89-122 | a retry with the same key, the 400 included, returns the same response and appends at most one user |
| `FileServer.LoadModule` | index.js:2-10 | a module loads exactly when its top-level names are pairwise distinct, and its scope is then exactly those names |
| `FileServer.CreateEntry` | index.js:87-96 | a keyed request throws on `processedKeys` exactly when that name is not declared; otherwise it replays exactly the cached reply of its key |
| `FileServer.ModuleFailsToLoadAsWritten` | index.js:3-10 | as written the module never loads, because `db` is both imported and declared with `let` |
| `FileServer.KeyedCreateThrowsAsWritten` | index.js:84-90 | once the duplicate import is removed the module loads, and every keyed create throws on the undeclared `processedKeys`, whatever is cached |
| `FileServer.IntendedCreateReplays` | index.js:84-96 | with `processedKeys` declared the module loads, and a keyed create never throws and replays exactly when its key is cached |

## Left out

- Express routing (apart from the path matching the Findings need), header and body parsing, JSON serialisation and `app.listen` are framework plumbing.
- The GET handlers (single reads, lists, joins) read and never mutate. Only their page window arithmetic is modelled.
- `Pagination.Window`: takes the already-parsed numbers. It does not model `parseInt` versus unary `+`, nor the fractional pages that `+` can produce.
- `genEtag`'s MD5 over `JSON.stringify` is an uninterpreted `tag` function. `genId()` is the `freshId` parameter and is required to be an unused key. A colliding random id would violate a primary key, and that error path is not modelled.
- `Date.now()` is the `now` parameter. The `created_at` of idempotency rows is not modelled.
- The ledger stores the response value itself. The `JSON.stringify`/`JSON.parse` round trip of the stored body is taken as the identity.
- No retention sweep of idempotency keys is modelled, because the handlers have none.
- Concurrency and the races that the source comments name are left out. The model is sequential, so every handler is atomic.
- Foreign keys are not enforced on the knex connection, so there are no cascades. For example, deleting a department leaves its users' `department_id` as it was.
- `KnexServer.Server.TransferUser`, `ActionRoutes.ActionStore.TransferUser`: body ids are strings. Absent (undefined) ids reach knex as undefined bindings, and that error path is not modelled.
- `EnvRoutes.EnvStore.AddDepartment`, `ChangeRole`, `RemoveDepartment`, `DeleteEnv`: return the status code only. The free-text JSON messages of those replies are not modelled.
- `FileServer` keeps its JSON files in memory. A failing `save` (the 500 replies, including the cached 500 of create) cannot happen there.
- `FileServer`: the stored objects have string-valued fields only. Other JSON values, such as numeric or boolean names, are left out.
- `KnexServer.Server.Associate`: `department_envs` is a set. This assumes a unique (department_id, env_id) constraint, which `onConflict().ignore()` relies on and whose schema is not part of this model.
- index2.js `POST /envs` would create an environment with no owner row, which breaks `EveryEnvOwned`, but it writes an `updated_at` column that the `envs` table (migration 20250510224056) does not have, so it always rejects; it and the boards routes are not modelled.
- routes/departments.js `POST /` is likewise a plain insert.
- routes/departments.js and index2.js use the schema from before the migrations 20250510175813 and 20250510190844. Those migrations drop `departments.id` and rename `users.department_id` to `department_slug`, which routes/users.js and routes/actions.js use. The model gives these two files the columns they query, so even the intended `/:id` handlers would still fail against the migrated schema.
- `FileServer`: index.js is an ES module that never imports `crypto`, `fs` or `path` and never declares `DATA_DIR`. So as written `genId` and `genEtag` (index.js:31-33) always throw, a ReferenceError or, where the runtime's Web Crypto global exists, a TypeError. Every `load` and `save` (index.js:19-30) also rejects with a ReferenceError. Once the module loads, every handler of that file therefore fails. Only the idempotency step of the create handler is modelled as written. The `Store` methods deliberately give `load`/`save` (in-memory arrays), `genId` (the `freshId` parameter) and `genEtag` (the uninterpreted `tag`) their intended behaviour.
- Task creation, editing and moving, department merge, blocking demotion while tasks exist, and the task-author check on transfer have no code in these handlers. The last exists only commented out.

## Findings

| source | as written | input that shows it | evidently intended | confidence | as-written member | corrected member |
|---|---|---|---|---|---|---|
| routes/departments.js:48 | the PUT, DELETE and nested user routes are registered at the literal path `/id`, so `req.params.id` is never bound | `PUT /departments/sales` does not match. `PUT /departments/id` and `DELETE /departments/id` reject inside knex, on the undefined `where` binding, before any query runs. `PUT /departments/id/users/u1` rejects inside knex the same way, on the undefined `department_id` value. Only `DELETE /departments/id/users/u1` works, because it never reads the id | the parameter `/:id` (and `/:id/users/:userId`) | high, not executed | `DepartmentRoutes.AsWrittenNeverBindsId` | `DepartmentRoutes.IntendedRoutesBindId` |
| index.js:3 | `db` is imported at line 3 and declared again with `let` at line 10, which is an early SyntaxError, so the module never loads | loading index.js | the `let db` filled by `makeDb()`, without the unused import | high, not executed | `FileServer.ModuleFailsToLoadAsWritten` | `FileServer.KeyedCreateThrowsAsWritten` |
| index.js:84 | the `processedKeys` map is commented out, so once the module loads a keyed create throws a ReferenceError on `processedKeys` | `POST /users` with `Idempotency-Key: k1` | a `Map` of processed keys, replayed and filled as the handler describes | high, not executed | `FileServer.KeyedCreateThrowsAsWritten` | `FileServer.IntendedCreateReplays` |
