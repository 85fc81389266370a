# Layered CRUD example backend, modelled in Dafny

The backend answers HTTP requests in three layers. `ExampleService` applies the business rules, `ExampleRepository` runs parameterised SQL against a Postgres table (`your_table`, with two text columns) on a client checked out of a connection pool, and a global error middleware turns whatever was thrown into a status code and a `{success: false, error: {message, code}}` envelope.

The model has five modules:

- `Records` (`records.dfy`): the values the layers share. These are rows with nullable columns, the JavaScript values the service inspects, request bodies, schema issues, and the four kinds of thrown error. The kinds are the middleware's `AppError`, a plain `Error` from the service, a `ZodError` from a schema parse, and anything the database driver or pool throws. The module also holds the decimal text form of serial ids and a proof that it is injective.
- `ErrorHandling` (`errors.dfy`): `errorHandler` and `notFoundHandler` as pure functions. Their inputs are the thrown error (or the method and path) and the `NODE_ENV` setting. Their output is the status and envelope that `res.status(..).json(..)` sends.
- `Table` (`table.dfy`): the small part of SQL the repository uses, on the table held as its rows in insertion order. This covers `WHERE id =`, `ORDER BY created_at DESC`, `LIMIT/OFFSET`, `UPDATE ... SET`, `DELETE` and `RETURNING *`. Lemmas state what each statement does and that each keeps the table well-formed: ascending by creation time, no id twice.
- `Repository` (`repository.dfy`): two classes. `Pool` holds the count of checked-out clients and a history of checkouts and checkins. `ExampleRepository` holds the table, the id sequence, the database clock, and the two tables of the transactional example. Every method checks a client out, runs its statement, and checks the client back in on every path. Its contract says the pool history grows by exactly one checkout followed by one checkin, or by nothing when no client was handed out, and that the leased count is back where it started. `CreateWithTransaction` models BEGIN/INSERT/INSERT/COMMIT: on any failing statement, ROLLBACK restores the state from before BEGIN.
- `Service` (`service.dfy`): the pure rules are functions. They cover pagination clamping, the offset, `displayName`, the id guard, and the create and update schemas as explicit validators. `ExampleService` is a class holding the repository. Its methods run the rules in the source's order and then call the repository.

What the database and the pool do on each call is a parameter of type `Link`. The statement answers (`Healthy`), the connection breaks and the statement throws (`Broken`), or the pool refuses a client (`Refused`). That error reaches the caller unchanged. The transaction also takes the statement at which the connection breaks, and whether ROLLBACK itself throws.

Some behaviour follows the code as written rather than the intended design:

- **Validation errors become 500s.** `createSchema.parse` and `updateSchema.parse` throw a `ZodError`, not an `AppError`. The middleware therefore answers a rejected body with 500 `INTERNAL_ERROR`, not 400 (`RejectedBodiesAreInternal`).
- **Not-found and bad-id errors also become 500s.** "Record not found" and "Invalid ID format" are plain `Error`s, so they too come back as 500 (`ServiceErrorsAreInternal`).
- **`update` nulls omitted columns.** The repository's `update` writes both columns from the validated data. A key the caller left out is `undefined`, which the driver sends as NULL. An update that omits a column therefore clears it (`EmptyUpdateClearsBothColumns`).
- **`total` is the page size.** `getAll` reports `total` as the number of rows on the page returned, not the number of rows in the table.
- **ROLLBACK errors replace the original.** If ROLLBACK itself throws, its error is rethrown instead of the original one.
- **Sequences are not rolled back.** Serials handed out inside a rolled-back transaction are not reused.


## Model

| member | source | states |
|---|---|---|
| `Records.Decimal` | backend/src/data/repositories/example.repository.ts:56-62 | the text form of a serial id is at least one decimal digit, two or more exactly when the serial is 10 or above |
| `Records.DecimalInjective` | backend/src/data/repositories/example.repository.ts:56-62 | distinct serials give distinct ids, so a newly inserted row never shares an id with an existing one |
| `ErrorHandling.HandleError` | backend/src/middleware/errorHandler.ts:17-53 | an `AppError` is sent with exactly its status, message and (possibly absent) code; anything else is sent as 500 with code `INTERNAL_ERROR` and the real message only when `NODE_ENV` is exactly "development", "Internal server error" otherwise; `success` is always false |
| `ErrorHandling.HandleNotFound` | backend/src/middleware/errorHandler.ts:56-65 | status 404, `success` false, code `NOT_FOUND`, message "Route <method> <path> not found" |
| `ErrorHandling.NothingLeaksOutsideDevelopment` | backend/src/middleware/errorHandler.ts:43-52 | outside development mode any two unexpected errors get identical replies: nothing of the error reaches the client |
| `ErrorHandling.OtherSettingsMask` | backend/src/middleware/errorHandler.ts:43-47 | every `NODE_ENV` other than "development", unset included, answers an unexpected error as production does |
| `ErrorHandling.OnlyAppErrorsChooseTheirStatus` | backend/src/middleware/errorHandler.ts:31-40 | a status other than 500 can only be the `statusCode` of an `AppError` |
| `ErrorHandling.NotFoundIsAnAppErrorReply` | backend/src/middleware/errorHandler.ts:56-65 | the unmatched-route reply equals the middleware's reply to `AppError(404, message, "NOT_FOUND")` in every mode |
| `ErrorHandling.ServiceErrorsAreInternal` | backend/src/middleware/errorHandler.ts:31-52 | the service's "Record not found" and "Invalid ID format" errors are answered 500 `INTERNAL_ERROR`, never 404 or 400 |
| `Table.Lookup` | backend/src/data/repositories/example.repository.ts:42-44 | the row found has the requested id and is in the table; null exactly when no row has that id |
| `Table.NewestFirst` | backend/src/data/repositories/example.repository.ts:24-27 | the table read newest first: same length, position `i` holds the `i`-th row from the newest |
| `Table.Window` | backend/src/data/repositories/example.repository.ts:27 | LIMIT/OFFSET: at most `limit` rows, none when `offset` is past the end, otherwise `min(limit, size - offset)` rows, the `i`-th being row `offset + i` |
| `Table.Rewritten` | backend/src/data/repositories/example.repository.ts:74-81 | the UPDATE sets both columns and `updated_at` in the row with that id, keeping its id and `created_at`; every other row is untouched and the size is unchanged |
| `Table.Removed` | backend/src/data/repositories/example.repository.ts:93 | the DELETE keeps exactly the rows whose id differs, and gives back the table itself when no row has that id |
| `Table.NewestFirstIsSortedPermutation` | backend/src/data/repositories/example.repository.ts:24-27 | the result of `ORDER BY created_at DESC` is strictly descending by creation time and a permutation of the table |
| `Table.PageContents` | backend/src/data/repositories/example.repository.ts:21-34 | a `findAll` page holds at most `limit` rows of the table, newest first, the `k`-th being the row ranked `offset + k` from the newest; it is empty past the end |
| `Table.LookupAfterInsert` | backend/src/data/repositories/example.repository.ts:56-62 | after inserting a row with a fresh id, looking that id up returns the inserted row |
| `Table.LookupAfterInsertOther` | backend/src/data/repositories/example.repository.ts:56-62 | inserting a row does not change the lookup of any other id |
| `Table.LookupAfterRewrite` | backend/src/data/repositories/example.repository.ts:74-81 | after the UPDATE the id finds its row with both new column values and the new `updated_at`, or nothing if it found nothing before |
| `Table.LookupAfterRemove` | backend/src/data/repositories/example.repository.ts:93 | after the DELETE the id finds nothing |
| `Table.RewrittenWellFormed` | backend/src/data/repositories/example.repository.ts:74-81 | the UPDATE keeps the table ascending by creation time with unique ids |
| `Table.RemovedWellFormed` | backend/src/data/repositories/example.repository.ts:93 | the DELETE keeps the table ascending by creation time with unique ids |
| `Table.RemovedKeepsOrder` | backend/src/data/repositories/example.repository.ts:93 | the surviving rows keep their creation-time order, and when the id is present exactly one row goes |
| `Repository.RemovedStaysValid` | backend/src/data/repositories/example.repository.ts:90-99 | the DELETE keeps the table well-formed, older than the clock, and clear of every id the sequence will still hand out |
| `Table.InsertWellFormed` | backend/src/data/repositories/example.repository.ts:56-60 | appending a row newer than all, with an id no row has, keeps the table well-formed |
| `Repository.Pool.constructor` | backend/src/data/db/pool.ts:12-20 | the pool starts with no client checked out and an empty history, so its count matches its history |
| `Repository.Pool.Connect` | backend/src/data/db/pool.ts:12-20 | a client is handed out exactly when the pool is not refused and fewer than `max` (10) are out; then the count and history record one checkout, otherwise nothing changes and the refusal or the timeout error is returned; the count keeps matching the open checkouts of the history |
| `Repository.Pool.Release` | backend/src/data/repositories/example.repository.ts:31-33 | a checkin: the count drops by one and the history records it; the count keeps matching the open checkouts of the history |
| `Repository.OutstandingOfLeases` | backend/src/data/repositories/example.repository.ts:31-33 | a checkout with its checkin, or nothing, leaves the number of open checkouts unchanged, so every repository method keeps the pool's count equal to it, as each method's `old(pool.Valid()) ==> pool.Valid()` states |
| `Repository.ExampleRepository.constructor` | backend/src/data/repositories/example.repository.ts:129 | a repository over an empty, well-formed table whose id sequences start at 1 |
| `Repository.ExampleRepository.FindAll` | backend/src/data/repositories/example.repository.ts:21-34 | on success, the page of the table at `limit`/`offset` newest first; a negative OFFSET, and otherwise a negative LIMIT, is the database's error, OFFSET being checked first; a pool or connection failure propagates; the client is released exactly once when one was checked out, and the table is unchanged |
| `Repository.ExampleRepository.FindById` | backend/src/data/repositories/example.repository.ts:39-48 | on success, the row with that id or null; failures propagate; the client is released exactly once; the table is unchanged |
| `Repository.ExampleRepository.Create` | backend/src/data/repositories/example.repository.ts:53-66 | on success, appends and returns a row whose columns equal the input, with the next serial as id and the current time as `created_at`; on failure nothing changes; the client is released exactly once; the table stays well-formed |
| `Repository.ExampleRepository.Update` | backend/src/data/repositories/example.repository.ts:71-85 | on success, overwrites both columns of the row with that id (an absent value becomes NULL), stamps `updated_at`, returns the new row or null, and leaves every other row alone; on failure nothing changes; the client is released exactly once |
| `Repository.ExampleRepository.Delete` | backend/src/data/repositories/example.repository.ts:90-99 | on success, removes exactly the rows with that id and returns the deleted row, or returns null with the table unchanged; one row fewer when it found one; on failure nothing changes; the client is released exactly once |
| `Repository.ExampleRepository.CreateWithTransaction` | backend/src/data/repositories/example.repository.ts:104-126 | either both inserts are committed and returned, or neither remains; the thrown error is the failing statement's, or ROLLBACK's when ROLLBACK itself fails; serials used by rolled-back inserts are not reused; `your_table` is untouched; the client is released exactly once |
| `Service.ClampPage` | backend/src/core/example.service.ts:36 | the page used is at least 1, equals the requested page when that is at least 1, and is 1 otherwise |
| `Service.ClampLimit` | backend/src/core/example.service.ts:37 | the limit used lies in 1..100, equals the requested limit when that lies in 1..100, and is 10 otherwise |
| `Service.ClampIdempotent` | backend/src/core/example.service.ts:36-37 | a clamped page or limit is left alone by clamping again |
| `Service.Offset` | backend/src/core/example.service.ts:39 | the offset is a non-negative multiple of the limit whose quotient is `page - 1`: it skips exactly the earlier pages |
| `Service.MultipleOf` | backend/src/core/example.service.ts:39 | `k * limit` is non-negative, divisible by `limit`, with quotient `k` |
| `Service.EnrichAll` | backend/src/core/example.service.ts:45-49 | same length and order as the rows fetched; each element keeps its row whole and gains `displayName` |
| `Service.DisplayNameParts` | backend/src/core/example.service.ts:48 | for set columns the display name is `column1 + " - " + column2`, beginning with the first column and ending with the second |
| `Service.CheckId` | backend/src/core/example.service.ts:66-68 | an id passes exactly when it is a non-empty string, and then unchanged; otherwise "Invalid ID format" |
| `Service.TextIssues` | backend/src/core/example.service.ts:20-28 | a key has no issues exactly when it holds an acceptable string (or, for an optional key, is absent), and every issue names that key |
| `Service.ValidateCreate` | backend/src/core/example.service.ts:20-23 | a body passes exactly when `column1` is a string of 1 to 255 characters and `column2` a non-empty string, and then passes unchanged; otherwise a ZodError whose issues name exactly the offending keys, or the body itself when it is not an object |
| `Service.ValidateUpdate` | backend/src/core/example.service.ts:25-28 | each key may be absent, and a present key obeys the create rule; on success an absent key is absent from the data; otherwise a ZodError naming exactly the offending keys |
| `Service.CreateBodiesAreUpdateBodies` | backend/src/core/example.service.ts:20-28 | every body the create schema accepts, the update schema accepts with the same data |
| `Service.RejectedBodiesAreInternal` | backend/src/core/example.service.ts:84 | a body the create schema rejects reaches the client as 500 `INTERNAL_ERROR`, not as a 400 |
| `Service.EmptyUpdateClearsBothColumns` | backend/src/data/repositories/example.repository.ts:74-81 | an update body without either key passes validation and sets both columns of the existing row to NULL, showing "null - null" |
| `Service.Found` | backend/src/core/example.service.ts:72-74 | a found row is returned as is; a missing one throws "Record not found" |
| `Service.ExampleService.constructor` | backend/src/core/example.service.ts:147 | a service over a valid repository |
| `Service.ExampleService.GetAll` | backend/src/core/example.service.ts:34-59 | fetches the page at the clamped page and limit and offset `(page-1)*limit`, enriches every row, and echoes the clamped page and limit with `total` equal to the rows returned; repository failures propagate; one client checked out and released |
| `Service.ExampleService.GetById` | backend/src/core/example.service.ts:64-77 | a bad id fails with "Invalid ID format" before any repository call; otherwise the row with that id, or "Record not found"; no failure is an `AppError` |
| `Service.ExampleService.Create` | backend/src/core/example.service.ts:82-93 | a rejected body throws the ZodError before any repository call; a valid body is inserted unchanged and the new row returned, the id sequence and the clock each moving forward by one, and neither moving on failure |
| `Service.ExampleService.Update` | backend/src/core/example.service.ts:98-120 | in order: the id guard, then the update schema (both before any repository call), then the existence lookup ("Record not found" leaves the table unchanged and issues no UPDATE), then the UPDATE of both columns, returning the new row; the clock moves only when the UPDATE runs |
| `Service.ExampleService.Delete` | backend/src/core/example.service.ts:125-144 | the id guard before any repository call, then the existence lookup ("Record not found" leaves the table unchanged and issues no DELETE), then the DELETE, returning the deleted row |
| `Service.ExampleService.CreateThenGet` | backend/src/core/example.service.ts:64-93 | creating a record and then reading it back by its new id returns the same record with the submitted columns |

## Left out

- Express request/response glue is not part of this model. This covers the routes, including their `parseInt(...) || default` fallbacks, and the health route. The example routes are not mounted by the route index either.
- Default arguments `getAll(page = 1, limit = 10)` (backend/src/core/example.service.ts:34) and `findAll(limit = 10, offset = 0)` (backend/src/data/repositories/example.repository.ts:21) are not modelled. Every caller passes both arguments, so no behaviour depends on the defaults.
- The validation middleware, security middleware, server start-up and environment loading are not part of this model.
- Pool configuration other than `max` is not part of this model: SSL, idle and connect timeouts, and event logging belong to the driver.
- Logging (`console.error`) in the error middleware is left out: it has no effect on the reply.
- Real SQL execution is replaced by the in-memory table. `NOW()` is a counter that every INSERT and UPDATE of `your_table` moves forward, and database-generated ids are the decimal text of a serial.
- The table's real column types are unknown. Ids are modelled as text, and `updated_at` is NULL on insert.
- Concurrency is left out: async interleaving, pool queueing, and the gap between the existence lookup and the UPDATE or DELETE. Every repository call is one atomic step.
- JavaScript numbers are modelled as unbounded integers: no fractional or NaN pages or limits, and no loss of precision in `(page - 1) * limit`. A LIMIT or OFFSET beyond the range of a Postgres `bigint` (2^63 and up), or one JavaScript prints with an exponent, makes the real query fail; the model returns an empty page for it.
- Only bodies that are JSON objects or not objects are distinguished. Keys other than `column1` and `column2` are dropped by the schemas, and the model does not represent them.
- The frontend client is not part of this model.
- `Records.IssuesText`: the message of a ZodError is an abstract rendering of its issues, not zod's JSON text. It matters only for the development-mode message of a rejected body.
- `Service.TextOk`: string lengths count Unicode scalar values, while zod counts UTF-16 code units. The two differ for characters outside the Basic Multilingual Plane.
- `Repository.Pool.Connect`: a saturated pool fails at once with the timeout error instead of queueing the request for up to the connect timeout.
- `Table.NewestFirst`: the clock never repeats a value, so no two rows tie on `created_at`. With real `NOW()`, two inserts in one transaction-start instant would tie, and Postgres would order them arbitrarily.
- `Repository.ExampleRepository.CreateWithTransaction`: a failed ROLLBACK is taken to leave nothing committed. The model does not follow what a client returned to the pool in that state does next.
