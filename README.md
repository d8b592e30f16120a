# Request-time authorization and user use cases of go-base, in Dafny

This project models the authorization core of the go-base service and
the rule logic of its user use cases:

- **Permission registry** (`AuthzService`). It builds a map from operation key
  `"/<service full name>/<method name>"` to the permission option (object,
  action, roles) declared on that RPC method, and publishes it with one store.
  `Get` is a point lookup. The metadata walk is an input sequence of method
  records. The atomic value is one field, `data`, that is only
  ever replaced whole. `None` stands for "never stored", where a load would
  fail its type assertion.
- **Authorization middleware** (`AuthzMiddleware`). The per-request pipeline
  runs: transport, registry lookup (unregistered operations are public), JWT
  check, claims, subject, `Enforce`, then allow or reject. The JWT server
  middleware, the engine's `Enforce` and the wrapped handler are function
  parameters. Every run records the external calls it made, in order, so
  "never called" and "called exactly once" are stated about that trace.
- **Registry-to-policy sync** (`AuthzSync`). It flattens (role, object, action)
  rules out of the registry's current map and deduplicates them by the joined
  key `role|object|action`. It makes no engine call when nothing is produced,
  and otherwise makes one bulk add. The map is walked in an unspecified order,
  so the guarantees are about the set of emitted keys.
- **User use cases** (`BizUser`). `CreateUser` hashes the password before it
  saves. `UpdateUser` merges the request's name and email into the stored
  record. `DeleteByID` checks existence before it deletes. `FindByID` and
  `FindAll` delegate to the repository. `UserRepo` is a class holding a map from
  id to user. Which of its calls fail, and with which error, is configuration
  (`faults`). A ghost log records the write calls it received.

Behaviour the model keeps exactly as the code has it:

- An `Enforce` error is returned as it is. No `Internal` kind is added, and
  there is no cancellation handling.
- Building the registry has no failure path. Methods without a permission are
  skipped.
- Two methods with the same key are not detected. The later one overwrites the
  earlier.
- A role list may contain duplicates. The sync's dedup absorbs them.
- When the JWT check fails, its error is passed through unchanged. Whether
  that error is "Unauthorized" is up to the JWT library.

## Model

| member | source | states |
|---|---|---|
| `AuthzService.BuildMapKeys` | internal/authz/service.go:34-52 | an operation is a key of the built map iff some method record carries a permission and has that key; methods with nil options or no (or a nil) extension are absent |
| `AuthzService.BuildMapLastWins` | internal/authz/service.go:47-52 | the value stored for a key is the permission of the last record declaring it (later methods overwrite earlier ones) |
| `AuthzService.BuildMapValue` | internal/authz/service.go:26-52 | every entry of the built map is the permission of a declaring record that no later record overrides |
| `AuthzService.KeyShape` | internal/authz/service.go:47-50 | every registry key is "/" + service full name + "/" + method name of a permission-carrying method, and starts with '/' |
| `AuthzService.ScanPermissions` | internal/authz/service.go:26-56 | the walk builds a fresh map equal to BuildMap of the records, in walk order |
| `AuthzService.AuthzRegistry.LoadFromProto` | internal/authz/service.go:25-60 | after a load the registry holds exactly the freshly built map, whatever map was published before (one wholesale store) |
| `AuthzService.AuthzRegistry.constructor` | internal/authz/service.go:18-23 | afterwards the registry is valid (a map is always present) and holds exactly the map built from the scanned records (the body first stores an empty map, then loads) |
| `AuthzService.AuthzRegistry.Get` | internal/authz/service.go:62-66 | returns the permission exactly when the operation is a key of the current map, nothing otherwise; reads only |
| `AuthzService.GetAfterLoad` | internal/authz/service.go:62-66 | after a load, Get succeeds exactly for operations some scanned method declares a permission for |
| `AuthzService.EmptyRegistry` | internal/authz/service.go:19-22 | with no declared permission the registry still holds a map, and every lookup misses instead of failing |
| `AuthzMiddleware.Handle` | internal/authz/middleware.go:30-72 | the wrapped handler is called at most once, as the last call, exactly when the decision is CallNext, and its reply is returned unchanged; otherwise the reply is an error with no response |
| `AuthzMiddleware.NoTransport` | internal/authz/middleware.go:32-35 | no server transport gives Unauthorized NO_TRANSPORT and no external call |
| `AuthzMiddleware.PublicPassThrough` | internal/authz/middleware.go:39-43 | an unregistered operation calls next once with the original context and returns its reply, with no JWT check and no Enforce |
| `AuthzMiddleware.JwtFirst` | internal/authz/middleware.go:45-69 | for a registered operation the first external call is the JWT check |
| `AuthzMiddleware.JwtRejected` | internal/authz/middleware.go:46-69 | a failed JWT check returns its error; neither Enforce nor next is called |
| `AuthzMiddleware.NoUser` | internal/authz/middleware.go:48-51 | no claims after verification gives Unauthorized NO_USER |
| `AuthzMiddleware.InvalidToken` | internal/authz/middleware.go:53-56 | an unreadable subject gives Unauthorized INVALID_TOKEN with the error's text, and Enforce is not called |
| `AuthzMiddleware.EnforceError` | internal/authz/middleware.go:58-61 | Enforce is called with exactly (sub, perm.Object, perm.Action); its error is returned as is and next is not called |
| `AuthzMiddleware.AccessDenied` | internal/authz/middleware.go:62-64 | Enforce answering false gives Forbidden ACCESS_DENIED and next is not called |
| `AuthzMiddleware.Allowed` | internal/authz/middleware.go:66 | Enforce answering true calls next exactly once with the verified context and returns its reply unchanged |
| `AuthzMiddleware.NextOnlyOnAllow` | internal/authz/middleware.go:40-66 | next runs only for a public operation or after a verified subject for which Enforce answered true |
| `AuthzMiddleware.RejectionsIdentifyBranch` | internal/authz/middleware.go:32-64 | Forbidden arises only from Enforce answering false, and each Unauthorized reason (NO_TRANSPORT, NO_USER, INVALID_TOKEN) holds exactly in its own branch |
| `AuthzMiddleware.DeleteUserExample` | internal/authz/middleware.go:30-72 | worked example: alice (allowed) reaches DeleteUser's handler, bob (refused) is Forbidden, Login needs no token |
| `AuthzSync.AppendRoles` | internal/authz/sync.go:19-32 | the inner loop appends one rule per role whose key is new, keeps the seen set equal to the emitted keys and the keys distinct |
| `AuthzSync.CollectPolicies` | internal/authz/sync.go:10-33 | the emitted list is a policy batch (each rule [role, object, action] of some entry and role, keys distinct, every entry's role key present) of at most the total role count |
| `AuthzSync.PolicyEngine.AddPolicies` | internal/authz/sync.go:40 | the bulk add is recorded with exactly the rules passed, and reports the engine's outcome |
| `AuthzSync.SyncFromRegistry` | internal/authz/sync.go:9-46 | leaves the registry unchanged; with no role key it returns success with no engine call, otherwise it makes exactly one bulk add of a complete deduplicated batch and returns its error |
| `AuthzSync.BatchKeysDeclared` | internal/authz/sync.go:18-31 | the keys of a batch are exactly the keys of the registry's (entry, role) pairs |
| `AuthzSync.DistinctKeysCount` | internal/authz/sync.go:21-25 | a list with distinct keys has as many rules as keys |
| `AuthzSync.BatchSize` | internal/authz/sync.go:18-33 | a batch has exactly one rule per distinct declared key |
| `AuthzSync.TotalRolesRemove` | internal/authz/sync.go:18-19 | the total role count of the map does not depend on the order entries are taken in |
| `AuthzSync.SyncRepeatable` | internal/authz/sync.go:9-46 | two syncs of the same registry map submit the same key set and the same number of rules, whatever the iteration order |
| `AuthzSync.NothingToSync` | internal/authz/sync.go:35-37 | the engine is skipped exactly when no entry declares a role |
| `AuthzSync.KeyCollision` | internal/authz/sync.go:21 | there are two different rules, ("a" + sep + "b", "c", "d") and ("a", "b" + sep + "c", "d") with sep the separator character, that share one joined key |
| `AuthzSync.CollisionDropsAGrant` | internal/authz/sync.go:18-31 | for a registry holding both colliding grants, a batch with either one alone is valid: which one reaches the engine depends on map order |
| `AuthzSync.DeleteUserExample` | internal/authz/sync.go:18-33 | worked example: (user, delete) granted to admin yields exactly [admin, user, delete] |
| `BizUser.MergeUpdate` | internal/biz/user.go:62-68 | a non-empty name or email replaces the stored one, an empty one keeps it; the id, hash and timestamps are the stored ones |
| `BizUser.MergeIdempotent` | internal/biz/user.go:62-68 | applying the same update twice equals applying it once |
| `BizUser.MergeEmptyRequest` | internal/biz/user.go:62-68 | a request with empty name and email leaves the stored record unchanged |
| `BizUser.MergeReadsOnlyNameAndEmail` | internal/biz/user.go:57-70 | only the request's name and email influence the record sent to Update |
| `BizUser.UserRepo.Save` | internal/biz/user.go:24 | inserts the given user under a fresh id and returns it with that id, or fails leaving the store unchanged |
| `BizUser.UserRepo.Update` | internal/biz/user.go:25 | overwrites the row with the user's id, if any, and returns the user, or fails leaving the store unchanged |
| `BizUser.UserRepo.FindByID` | internal/biz/user.go:26 | the stored user, a missing-row error, or the configured failure |
| `BizUser.UserRepo.ListAll` | internal/biz/user.go:27 | every stored user exactly once, or the configured failure |
| `BizUser.UserRepo.DeleteByID` | internal/biz/user.go:28 | removes that id and nothing else, or fails leaving the store unchanged |
| `BizUser.UserRepo.ExistByID` | internal/biz/user.go:29 | whether the id is stored, or the configured failure |
| `BizUser.UserBiz.CreateUser` | internal/biz/user.go:43-53 | a hashing error is returned and Save is not called; otherwise Save receives the user with PasswordHash replaced by the hash of the given value, all other fields unchanged, and its result is returned |
| `BizUser.UserBiz.UpdateUser` | internal/biz/user.go:56-71 | a failed FindByID is returned and Update is not called; otherwise Update receives the stored record merged with the request's non-empty name and email, and its result is returned |
| `BizUser.UserBiz.FindByID` | internal/biz/user.go:74-76 | returns exactly what the repository's FindByID returns |
| `BizUser.UserBiz.FindAll` | internal/biz/user.go:78-80 | returns exactly what the repository's ListAll returns |
| `BizUser.UserBiz.DeleteByID` | internal/biz/user.go:82-93 | a failed existence check is returned; an unknown id gives "user not found"; in both cases nothing is deleted; otherwise the delete runs, its error is returned, and on success only that id is gone |

## Left out

- Proto reflection over the global file registry. It is replaced by an explicit sequence of method records in walk order. Files and services are flattened into that one sequence.
- The memory-ordering guarantees of `atomic.Value` and concurrent readers. The registry is a single field that is replaced whole, and every call is sequential.
- The JWT server middleware: bearer-token extraction, HS256 signature checks and the claim parsing done by golang-jwt. Together they are one function, `verify`, from context to rejection or verified context.
- Casbin evaluation and its persisted store. `Enforce` is a function parameter. `AddPolicies` records each batch and reports an outcome given at construction time. The store's contents are not modelled, so duplicate-tolerant upserts and partial application on failure are not modelled either.
- `AuthzSync.PolicyEngine.AddPolicies`: the boolean result is taken to be true exactly when no error is reported. Sync ignores that boolean, as the source does.
- argon2 hashing. It is an abstract function `hash` that may fail. Its random salt is not modelled, so the same password always gets the same hash in the model.
- The SQL repositories. `UserRepo` is an abstract map store.
  - Timestamps assigned by the database are not modelled.
  - The row limit of the SQL `ListAll` is not modelled.
  - The SQL `FindByID` leaves `PasswordHash` empty. The abstract store returns the record as stored instead. For `UpdateUser` the stored row is the same, because the SQL update never writes the hash; the record `UpdateUser` returns differs: in the model it carries the stored hash, where the SQL path returns one with an empty hash.
- `BizUser.UserBiz.UpdateUser`: on success it returns the merged record with the stored password hash. The SQL path returns the same record with an empty hash, because its `FindByID` never reads the hash. The row written is the same in both.
- User ids are natural numbers taken from a counter, not UUIDs. Only their freshness matters.
- `BizUser.UserBiz.CreateUser`: the model captures the update in place on values. In Go, the caller's `*User` also receives the hash, and `Save` writes the id and timestamps into that same object. The model returns the saved user instead, so this aliasing is not modelled.
- Error texts. The model keeps the framework errors' kind, reason and message, not their formatted `Error()` strings.
- Login, token signing, the protobuf mapping in `internal/service`, transport servers and dependency wiring are not part of this model.
