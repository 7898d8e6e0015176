# yata-api: sessions, guards and task/tag query logic in Dafny

This project models two parts of the yata-api NestJS back end and proves
properties of them.

1. **Session lifecycle.**
   - `RefreshTokenIdsStorage` keeps one refresh-token id per user in Redis, under the key `user-<id>`.
   - `AuthenticationService` signs users up and in, rotates refresh tokens and logs users out.
   - `AuthenticationGuard` dispatches a request to the guards its route's auth types name.
   - `AccessTokenGuard` checks the bearer token and attaches the verified claims to the request.
2. **Task and tag query logic.**
   - `TaskPriorityUtils` and `TaskStatusUtils` convert enum names and comma-separated lists.
   - The two filter validators check query parameters and build their error messages.
   - `TasksService` builds its paging window and filter, checks references before `create`, and applies the `completedAt` rule in `update`.
   - `TagsService` clamps its paging, builds its search criteria, assembles its responses, and maps database failures to HTTP exceptions.

Objects whose fields the source updates are Dafny classes with `modifies`
clauses: the Redis store, the user table, the services, the request. The
guard loop and the filter construction are methods with loops and
successive assignments. Parsers, validators and paging arithmetic are
functions. Each method is specified against functions: `AfterInsert`,
`AfterInvalidate`, `CheckRefresh`, `BearerOutcome`, `Resolve`,
`ApplyUpdate` and `CreateCheck`. The lemmas about those functions carry
the session properties: rotation, replay rejection, single active session
and logout revocation.

Some parts are given as parameters:

- **JWT library.** It is a pair `encode`/`decode` that round-trips (`Sound`). The expiry rule of `jsonwebtoken` (`now >= exp` gives "jwt expired") is part of the model.
- **Password hash.** It is a pair `hash`/`compare` with `compare(p, hash(p))`.
- **Values from outside the program.**
  - The clock is the parameter `now`.
  - `randomUUID` is the parameter `freshId`, which is required to be an id never issued before. A ghost set `issued` records the issued ids.
  - The database-assigned user id is `newUserId`.
  - The generated task or tag id is `newId`.

Where the code and its tests disagree, the model follows the code.

- `__tests__/tasks.controller.e2e-spec.ts:342-355` expects a `priority=NONE,HIGH` query to succeed. The priority validator rejects it: `TaskPriorityFilterValidator.TwoPriorityListRejected`.
- The status validator registers under the constraint name `taskPriorityFilter` (`src/features/tasks/validators/task-status-filter.validator.ts:8`). This only affects how errors are labelled.

Two more behaviours of the code are stated as lemmas rather than changed:

- `TagsService.findAll` passes the page number itself as `skip`, so consecutive pages overlap (`Tags.ConsecutivePagesOverlap`). Every other paged service under `src/features` skips `page * pageSize` rows; the legacy services under `src/tags` and `src/projects` take a row offset directly.
- The bearer guard admits a refresh token, because it is signed with the same secret, audience and issuer, and the guard does not distinguish the token type (`AccessTokenGuards.RefreshTokenAdmitted`).

## Model

| member | source | states |
|---|---|---|
| Strings.SplitLength | src/features/tasks/enums/task-priority.enum.ts:29 | `split(",")` yields one more segment than there are separators |
| Strings.SplitSegmentsFree | src/features/tasks/enums/task-priority.enum.ts:29 | no segment of a split contains the separator |
| Strings.SplitWithoutSeparator | src/features/tasks/enums/task-priority.enum.ts:29 | a string without the separator splits into itself alone |
| Strings.SplitAtSeparator | src/iam/authentication/guards/access-token.guard.ts:47 | the first separator cuts off exactly the segment before it |
| Strings.JoinSplit | src/features/tasks/enums/task-priority.enum.ts:29 | joining the segments with the separator gives back the original string |
| Strings.TrailingSegmentEmpty | src/features/tasks/enums/task-priority.enum.ts:29 | the last segment of a string ending in the separator is empty |
| Strings.SplitJoin | src/features/tasks/enums/task-priority.enum.ts:29 | splitting a join of separator-free, non-empty lists gives back the list |
| EnumLists.Names | src/features/tasks/validators/task-priority-filter.validator.ts:12 | the names list has one name per enum member, in order |
| EnumLists.ParseEachOk | src/features/tasks/enums/task-priority.enum.ts:29 | mapping `fromString` succeeds iff every segment converts, and element i is segment i's value |
| EnumLists.ParseEachErr | src/features/tasks/enums/task-priority.enum.ts:29 | on failure the error is that of the first segment that does not convert |
| EnumLists.ParseListJoin | src/features/tasks/enums/task-priority.enum.ts:24-30 | parsing the comma-join of the names of a non-empty list gives back the list |
| TaskPriorityEnum.FromString | src/features/tasks/enums/task-priority.enum.ts:9-22 | succeeds exactly for "NONE", "LOW", "MEDIUM", "HIGH" with the same-named member; otherwise fails with "Invalid value " followed by the input |
| TaskPriorityEnum.NamesInvertible | src/features/tasks/enums/task-priority.enum.ts:1-22 | `fromString` inverts the member names, and no name contains a comma |
| TaskPriorityEnum.ParseNull | src/features/tasks/enums/task-priority.enum.ts:25-27 | `parse(null)` is the empty list |
| TaskPriorityEnum.Parse | src/features/tasks/enums/task-priority.enum.ts:24-30 | `null` gives the empty list; a successful parse has one priority per comma segment, each named by its segment, in order |
| TaskPriorityEnum.ParseSegments | src/features/tasks/enums/task-priority.enum.ts:29 | parse succeeds iff every comma segment is a name; then there are commas+1 elements, in input order |
| TaskPriorityEnum.ParseError | src/features/tasks/enums/task-priority.enum.ts:19-29 | a failing parse reports the first invalid segment |
| TaskPriorityEnum.ParseEmptyFails | src/features/tasks/enums/task-priority.enum.ts:19-29 | `parse("")` fails with "Invalid value " |
| TaskPriorityEnum.ParseTrailingCommaFails | src/features/tasks/enums/task-priority.enum.ts:19-29 | a list ending in a comma fails to parse |
| TaskPriorityEnum.ParseJoinedNames | src/features/tasks/enums/task-priority.enum.ts:9-30 | round trip: parsing the comma-join of a non-empty priority list gives back the list |
| TaskStatusEnum.FromString | src/features/tasks/enums/task-status.enum.ts:8-20 | succeeds exactly for "NOT_STARTED", "IN_PROGRESS", "COMPLETED" with the same-named member; otherwise fails with "Invalid value " followed by the input |
| TaskStatusEnum.NamesInvertible | src/features/tasks/enums/task-status.enum.ts:1-20 | `fromString` inverts the member names, and no name contains a comma |
| TaskStatusEnum.ParseNull | src/features/tasks/enums/task-status.enum.ts:21-24 | `parse(null)` is the empty list |
| TaskStatusEnum.Parse | src/features/tasks/enums/task-status.enum.ts:21-27 | `null` gives the empty list; a successful parse has one status per comma segment, each named by its segment, in order |
| TaskStatusEnum.ParseSegments | src/features/tasks/enums/task-status.enum.ts:26 | parse succeeds iff every comma segment is a name; then there are commas+1 elements, in input order |
| TaskStatusEnum.ParseError | src/features/tasks/enums/task-status.enum.ts:17-26 | a failing parse reports the first invalid segment |
| TaskStatusEnum.ParseEmptyFails | src/features/tasks/enums/task-status.enum.ts:17-26 | `parse("")` fails with "Invalid value " |
| TaskStatusEnum.ParseTrailingCommaFails | src/features/tasks/enums/task-status.enum.ts:17-26 | a list ending in a comma fails to parse |
| TaskStatusEnum.ParseJoinedNames | src/features/tasks/enums/task-status.enum.ts:8-27 | round trip: parsing the comma-join of a non-empty status list gives back the list |
| TaskPriorityFilterValidator.Validate | src/features/tasks/validators/task-priority-filter.validator.ts:12-16 | true iff the value is exactly one priority name, the same strings `fromString` accepts |
| TaskPriorityFilterValidator.DefaultMessage | src/features/tasks/validators/task-priority-filter.validator.ts:18-23 | "Priority must be one of the following values: NONE, LOW, MEDIUM, HIGH" |
| TaskPriorityFilterValidator.JoinedValidValues | src/features/tasks/validators/task-priority-filter.validator.ts:21 | the valid values joined with ", " |
| TaskPriorityFilterValidator.CommaListRejected | src/features/tasks/validators/task-priority-filter.validator.ts:15 | no value containing a comma is accepted |
| TaskPriorityFilterValidator.ValidatedParsesToOne | src/features/tasks/validators/task-priority-filter.validator.ts:12-16 | every accepted value parses to exactly one priority |
| TaskPriorityFilterValidator.TwoPriorityListRejected | src/features/tasks/validators/task-priority-filter.validator.ts:15 | "NONE,HIGH" parses to [NONE, HIGH] but the validator rejects it |
| TaskStatusFilterValidator.Validate | src/features/tasks/validators/task-status-filter.validator.ts:12-16 | true iff the value is exactly one status name, the same strings `fromString` accepts |
| TaskStatusFilterValidator.DefaultMessage | src/features/tasks/validators/task-status-filter.validator.ts:18-23 | "Status must be one of the following values: NOT_STARTED, IN_PROGRESS, COMPLETED" |
| TaskStatusFilterValidator.JoinedValidValues | src/features/tasks/validators/task-status-filter.validator.ts:21 | the valid values joined with ", " |
| TaskStatusFilterValidator.CommaListRejected | src/features/tasks/validators/task-status-filter.validator.ts:15 | no value containing a comma is accepted |
| TaskStatusFilterValidator.ValidatedParsesToOne | src/features/tasks/validators/task-status-filter.validator.ts:12-16 | every accepted value parses to exactly one status |
| TokenCodec.Verify | src/iam/authentication/guards/access-token.guard.ts:31-41 | a verified token decodes to claims that are not yet expired; "expired" means it decodes and `now >= exp` |
| TokenCodec.VerifySigned | src/iam/authentication/authentication.service.ts:178-195 | a token signed at `iat` with `ttl` verifies to its claims before `iat + ttl` and is expired from then on |
| TokenCodec.VerifyClaimsTimeIndependent | src/iam/authentication/guards/access-token.guard.ts:31-34 | a token verified at two times yields the same claims |
| RefreshTokenIds.Key | src/iam/authentication/refresh-token-ids.storage.ts:31-33 | the key is the prefix `user-` followed by the whole user id |
| RefreshTokenIds.KeyInjective | src/iam/authentication/refresh-token-ids.storage.ts:31-33 | distinct users have distinct `user-<id>` keys |
| RefreshTokenIds.InsertThenValidate | src/iam/authentication/refresh-token-ids.storage.ts:14-21 | after an insert, exactly the inserted id validates for that user |
| RefreshTokenIds.InsertLastWriterWins | src/iam/authentication/refresh-token-ids.storage.ts:14-16 | of two inserts for one user, the last one wins |
| RefreshTokenIds.InvalidateRevokes | src/iam/authentication/refresh-token-ids.storage.ts:27-29 | after an invalidate, no id validates for that user |
| RefreshTokenIds.InvalidateIdempotent | src/iam/authentication/refresh-token-ids.storage.ts:27-29 | invalidating twice equals invalidating once |
| RefreshTokenIds.OtherUsersUnaffected | src/iam/authentication/refresh-token-ids.storage.ts:14-33 | insert and invalidate for one user do not change what validates for another |
| RefreshTokenIds.RefreshTokenIdsStorage.Get | src/iam/authentication/refresh-token-ids.storage.ts:19 | Redis GET returns the stored value iff the key is present |
| RefreshTokenIds.RefreshTokenIdsStorage.Insert | src/iam/authentication/refresh-token-ids.storage.ts:14-16 | SET on `user-<id>`: the entry is overwritten and one SET is logged |
| RefreshTokenIds.RefreshTokenIdsStorage.Validate | src/iam/authentication/refresh-token-ids.storage.ts:18-21 | true iff an entry exists for the user and equals the id exactly; changes nothing |
| RefreshTokenIds.RefreshTokenIdsStorage.Invalidate | src/iam/authentication/refresh-token-ids.storage.ts:27-29 | DEL on `user-<id>`: the entry is removed and one DEL is logged |
| Users.FindById | src/iam/authentication/authentication.service.ts:44-56 | the row with this id, or none when no row has it |
| Users.FindByEmail | src/iam/authentication/authentication.service.ts:125-129 | the row with this email, or none when no row has it |
| Users.UsersService.Create | src/iam/authentication/authentication.service.ts:88-101 | a duplicate email fails with a unique-constraint violation and changes nothing; otherwise the row with the digest is appended and returned without it |
| Authentication.SignToken | src/iam/authentication/authentication.service.ts:178-195 | the token decodes to `sub` = the user id plus the given payload, expiring `expiresIn` after signing |
| Authentication.CheckRefresh | src/iam/authentication/authentication.service.ts:36-68 | accepted iff the token verifies, its `sub` names a stored user, it carries a `refreshTokenId`, and that id is the one stored for the user; then the user and id are exactly those of the token |
| Authentication.SignUpFailure | src/iam/authentication/authentication.service.ts:112-119 | a unique-constraint violation becomes "Email already exists"; any other error passes through unchanged |
| Authentication.IssuedTokensClaims | src/iam/authentication/authentication.service.ts:160-187 | both tokens carry `sub` = user id; the access token adds the email, the refresh token the refresh-token id |
| Authentication.IssuedRefreshTokenAccepted | src/iam/authentication/authentication.service.ts:36-176 | a freshly issued refresh token passes the refresh check until it expires |
| Authentication.AccessTokenNotRefreshable | src/iam/authentication/authentication.service.ts:58-68 | an access token has no refresh-token id and never passes the refresh check |
| Authentication.ReplayRejected | src/iam/authentication/authentication.service.ts:58-70 | after rotation, the same token is rejected at any later time |
| Authentication.LogoutRejectsRefresh | src/iam/authentication/authentication.service.ts:29-68 | after logout, no refresh for that user is accepted |
| Authentication.OnlyLatestIdAccepted | src/iam/authentication/authentication.service.ts:145-173 | once a new id is stored for a user, only tokens carrying that id are accepted for the user |
| Authentication.AuthenticationService.Logout | src/iam/authentication/authentication.service.ts:29-31 | the user's entry is deleted with a single DEL |
| Authentication.AuthenticationService.GenerateTokens | src/iam/authentication/authentication.service.ts:154-176 | returns the access and refresh tokens for the user; writes exactly one entry, the fresh id embedded in the refresh token |
| Authentication.AuthenticationService.RefreshTokens | src/iam/authentication/authentication.service.ts:33-82 | every rejection is the same UnauthorizedException and leaves the store untouched; on acceptance DEL then SET rotate the id, and the old id no longer validates; `issued` gains the fresh id only on success |
| Authentication.AuthenticationService.SignUp | src/iam/authentication/authentication.service.ts:84-120 | a taken email fails with "Email already exists" and changes nothing; otherwise the user is stored with the password digest and a session issued; `issued` gains the fresh id only on success |
| Authentication.AuthenticationService.SignIn | src/iam/authentication/authentication.service.ts:122-152 | an unknown email and a wrong password fail alike with "Invalid credentials" and leave the store untouched; success issues tokens superseding the old id; `issued` gains the fresh id only on success |
| Authentication.RotatedIdStaysRevoked | src/iam/authentication/authentication.service.ts:58-176 | after a successful refresh and a later sign-in, the id the refresh consumed still does not validate |
| AccessTokenGuards.ExtractTokenFromHeader | src/iam/authentication/guards/access-token.guard.ts:46-49 | a token is only found in a present header, and it contains no space |
| AccessTokenGuards.ExtractNeedsSpace | src/iam/authentication/guards/access-token.guard.ts:46-49 | a header yields a token iff it contains a space |
| AccessTokenGuards.OccurrencesPositive | src/iam/authentication/guards/access-token.guard.ts:47 | a character occurs a positive number of times iff it is in the string |
| AccessTokenGuards.ExtractAnyScheme | src/iam/authentication/guards/access-token.guard.ts:46-49 | `<scheme> <token>` yields the token whatever the scheme word is |
| AccessTokenGuards.BearerOutcome | src/iam/authentication/guards/access-token.guard.ts:23-44 | admits iff a non-empty token is extracted and verifies; otherwise an UnauthorizedException, without verifying when there is no token |
| AccessTokenGuards.BearerNeverReturnsFalse | src/iam/authentication/guards/access-token.guard.ts:23-44 | the guard admits or throws an UnauthorizedException, never returns false |
| AccessTokenGuards.SignedTokenOutcome | src/iam/authentication/guards/access-token.guard.ts:25-43 | a correctly signed token admits before expiry and throws "jwt expired" from then on |
| AccessTokenGuards.RefreshTokenAdmitted | src/iam/authentication/guards/access-token.guard.ts:30-43 | a refresh token sent as a bearer token admits the request until it expires |
| AccessTokenGuards.AccessTokenGuard.CanActivate | src/iam/authentication/guards/access-token.guard.ts:23-44 | missing or empty token, expired token, other failure, success as in `BearerOutcome`; on success the verified claims are attached, on failure the request is unchanged |
| AuthenticationGuards.AuthTypeGuard | src/iam/authentication/guards/authentication.guard.ts:14-20 | NONE maps to the allow-all guard and BEARER to the access-token guard, both ways |
| AuthenticationGuards.GuardsFor | src/iam/authentication/guards/authentication.guard.ts:14-35 | one guard per auth type, in order, from the guard map |
| AuthenticationGuards.Outcomes | src/iam/authentication/guards/authentication.guard.ts:39-45 | one outcome per guard, in order |
| AuthenticationGuards.Resolve | src/iam/authentication/guards/authentication.guard.ts:37-52 | never returns false; admits iff some guard's outcome is a true return |
| AuthenticationGuards.LastThrownCons | src/iam/authentication/guards/authentication.guard.ts:40-44 | the last thrown error over a list is that over its tail, with the head's error as the initial one |
| AuthenticationGuards.ResolveSpec | src/iam/authentication/guards/authentication.guard.ts:37-52 | the dispatcher admits iff some guard returns true; otherwise it throws the last error caught, or the initial one |
| AuthenticationGuards.FalseKeepsError | src/iam/authentication/guards/authentication.guard.ts:40-47 | a guard returning false does not replace the recorded error |
| AuthenticationGuards.FirstSuccessShortCircuits | src/iam/authentication/guards/authentication.guard.ts:47-49 | a guard returning true admits whatever the guards after it would do |
| AuthenticationGuards.NoneAdmits | src/iam/authentication/guards/authentication.guard.ts:19 | a route declaring NONE admits every request |
| AuthenticationGuards.EmptyAuthTypesThrow | src/iam/authentication/guards/authentication.guard.ts:33-52 | an empty auth-type list always throws the initial UnauthorizedException |
| AuthenticationGuards.DefaultIsBearer | src/iam/authentication/guards/authentication.guard.ts:28-31 | without metadata the outcome is the bearer guard's |
| AuthenticationGuards.AuthenticationGuard.CanActivate | src/iam/authentication/guards/authentication.guard.ts:27-53 | the result is `Resolve` over the guards' outcomes from a fresh UnauthorizedException; guards after the first success are not run |
| Tasks.Page | src/features/tasks/tasks.service.ts:84 | the parsed page, or 0 when NaN |
| Tasks.PageSize | src/features/tasks/tasks.service.ts:85 | never 0; 50 when NaN or 0, the parsed value otherwise |
| Tasks.Take | src/features/tasks/tasks.service.ts:129 | at most 50, and equal to the page size up to 50 |
| Tasks.OversizedPagesSkipRows | src/features/tasks/tasks.service.ts:128-129 | with a page size above 50, `pageSize - 50` rows after every page are never returned |
| Tasks.PagesAdjacent | src/features/tasks/tasks.service.ts:128-129 | up to 50 rows a page, consecutive pages are adjacent windows |
| Tasks.FindAll | src/features/tasks/tasks.service.ts:71-138 | skip is page times the unclamped page size; take at most 50; the four due-date cases; each id and enum filter only when truthy; ascending iff `dir` is "asc" |
| Tasks.CreateCheck | src/features/tasks/tasks.service.ts:18-51 | the checks pass iff every given reference exists; a failure is TaskNotFoundException or ProjectNotFoundException |
| Tasks.MissingParentReportedFirst | src/features/tasks/tasks.service.ts:18-28 | a missing parent is reported as TaskNotFoundException whatever else is missing |
| Tasks.MissingProjectBeforeColumn | src/features/tasks/tasks.service.ts:29-51 | with the parent found, a missing project is reported before a missing column |
| Tasks.ApplyUpdate | src/features/tasks/tasks.service.ts:179-198 | the id is kept; completedAt is the current time iff the new status is COMPLETED, else unchanged |
| Tasks.CompletedAtOnlyOnCompletion | src/features/tasks/tasks.service.ts:196-197 | completedAt changes only with a COMPLETED status; reopening keeps the old completion time |
| Tasks.EmptyUpdateIsIdentity | src/features/tasks/tasks.service.ts:184-198 | an update with every field undefined leaves the row as it was |
| Tasks.TasksService.Create | src/features/tasks/tasks.service.ts:17-69 | the first failing reference check decides the exception and nothing is inserted; otherwise the new row is inserted |
| Tasks.TasksService.Update | src/features/tasks/tasks.service.ts:168-201 | TaskNotFoundException and no change for an unknown id; else the row becomes `ApplyUpdate` |
| Tags.Page | src/features/tags/tags.service.ts:46 | never negative; the parsed page when non-negative, else 0 |
| Tags.PageSize | src/features/tags/tags.service.ts:47 | at most 50; 50 when NaN, 0 or above 50; the parsed value otherwise |
| Tags.FindAll | src/features/tags/tags.service.ts:42-87 | criteria restrict to the owner, add the task and name clauses only when truthy; skip is the page; every item carries the requested ownerId |
| Tags.SelectedRowsKeepOwner | src/features/tags/tags.service.ts:49-83 | for a row the criteria select, the returned item is that row's plain DTO |
| Tags.UntaggedPassesTaskFilter | src/features/tags/tags.service.ts:51-55 | a tag attached to no task passes any `every` task filter |
| Tags.SharedTagFailsTaskFilter | src/features/tags/tags.service.ts:51-55 | a tag attached to the requested task and another fails the task filter |
| Tags.ConsecutivePagesOverlap | src/features/tags/tags.service.ts:46-68 | with two or more rows a page, consecutive pages overlap |
| Tags.TagsService.constructor | src/features/tags/tags.service.ts:16-18 | starts with an empty tag table, every row stored under its own id |
| Tags.TagsService.Create | src/features/tags/tags.service.ts:20-40 | a missing task or an id clash is UnprocessableEntityException and changes nothing; otherwise the tag is inserted, attached to the task |
| Tags.TagsService.FindOne | src/features/tags/tags.service.ts:89-102 | found iff the id is present, returning that tag; otherwise TagNotFoundException |
| Tags.TagsService.Update | src/features/tags/tags.service.ts:104-120 | TagNotFoundException and no change for an unknown id; else the tag is renamed |
| Tags.TagsService.Remove | src/features/tags/tags.service.ts:122-133 | TagNotFoundException and no change for an unknown id; else the tag is deleted |

## Left out

- JWT signing and verification are abstract: signature, audience, issuer and the algorithm are not modelled, only the round trip and the expiry rule.
- TokenCodec.Verify: audience and issuer are checked inside `decode`, before expiry; `jsonwebtoken` checks expiry first, so a correctly signed, expired token with a wrong audience gives "jwt expired" in the source and `InvalidToken` in the model.
- Password hashing is abstract (`hash`/`compare`); the memory-hard function is not modelled.
- Redis is an in-model map; connection failures are not modelled.
- Concurrency is not modelled. This covers the `Promise.all` calls and the race between `validate` and `invalidate` across concurrent refreshes. The model runs the source's validate-then-invalidate sequentially.
- The database behind `TasksService.findAll` and `TagsService.findAll` is not modelled. The model builds the query, and for tags assembles the response from the rows and count the database returns. Prisma's treatment of a negative `take` and its rejection of a negative `skip` (a negative `page`) are therefore outside the model.
- `parseInt` and unary `+` are abstracted to an optional integer, with `None` standing for NaN. Fractional page values are not modelled.
- Tasks.FindAll: the response `data` goes through `taskModel`, a DTO mapper that is not part of this model.
- Ids are opaque strings: `Buffer.from`, `uuidToBuffer`, `bufferToUuid` and `generateId` are not modelled.
- Users: the user columns besides id, email and password are not modelled (username, preferences, timestamps).
- Tags: the version and timestamp columns are not modelled.
- The filter validators' `validate` takes any value in the source; the model takes strings only. Because the validators are functions, they are deterministic and stateless by construction.
- `TasksService.findOne` and `TasksService.remove` are plain Prisma calls with a not-found check, and are not modelled.
- Controllers, decorators, DTO classes and exception classes are wiring, and are not part of this model.
- Console logging of caught errors is not modelled.
- Tags.TagsService.Create: only the two failures named above are modelled. Other database errors would also become UnprocessableEntityException.
