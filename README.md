# Task manager API: task access, validation and accounts in Dafny

This project models the core of a multi-tenant task-tracking API. Each user keeps
a private list of tasks. The model covers:

- the five task routes (list, create, get, update, delete), always scoped to the caller's user id;
- the listing query: owner filter, the optional `done` filter, ascending-id order and pages;
- the process-wide listing cache, written by every listing and emptied by every committed mutation;
- the two competing definitions of the task payload schemas, strict and loose;
- the task service functions that repeat the create and partial-update logic;
- user registration and login over a table with unique usernames and hashed passwords.

The caller's identity reaches the task routes as a plain `owner` parameter; the
access token is reduced to the identity string it carries.

Layout, one module per concern:

| file | module | models |
|---|---|---|
| common.dfy | `Common`, `Decimal` | JSON values, replies with status codes, `str(n)` and its inverse |
| validation.dfy | `Validation` | the field-rule loading the schemas rely on (declared kinds, required fields, unknown keys raise) |
| schemas_strict.dfy | `StrictSchemas` | `app/schemas.py` |
| schemas_loose.dfy | `LooseSchemas` | `app/schemas/task_schema.py` |
| models.dfy | `Models` | `app/models.py`: `Task` rows, `User` objects, the password scheme |
| listing.dfy | `Listing` | the query and pagination of `list_tasks` |
| task_store.dfy | `Store` | the task table, the id counter and the cache as one object |
| task_routes.dfy | `TaskRoutes` | `app/routes/tasks.py` |
| task_service.dfy | `TaskService` | `app/services/task_service.py` |
| auth.dfy | `AuthRoutes` | `app/routes/auth.py` |
| scenario.dfy | `Scenario` | a client run through the API: register, log in, create, list, update, get, delete |

Modelling choices:

- **Which schema.** The routes import `TaskSchema` and `TaskUpdateSchema` from `..schemas`. That name can resolve to the module `app/schemas.py` or to the package `app/schemas/`. So every route takes a `SchemaChoice` (`Strict` or `Loose`).
- **Unknown keys.** The loose schemas declare no policy for unknown keys. The strict file's `unknown = "raise"` option only exists in marshmallow 3, and marshmallow 3's default is also to raise. So both schemas reject unknown keys. Output-only fields such as `id`, `user_id` and `created_at` count as unknown on input.
- **Typed values.** Payload values arrive already typed (`VStr`, `VBool`, `VInt`, `VNull`). A string field accepts only a string, a boolean field only a boolean, and null is refused. `Length(min=1)` counts the raw string, with no trimming.
- **Commit outcome.** Whether a commit succeeds is the parameter `commitOk`. When a commit fails, the table and the cache are unchanged:
  - update and delete roll back and reply 500;
  - create, register and the service functions do not catch the error, so the request fails with 500.
- **Owner id.** The token identity is `str(user.id)`. The task routes compare that string with the integer `user_id` column, and SQLite reads it as a number. `Decimal.ParseShow` proves that reading the string back gives the user's id.
- **Task ids.** New task ids come from a counter, `nextId`, that never goes back. A new id is fresh and above every existing one. SQLite gives a new row the largest existing id plus one, so the two agree except after the row holding the largest id is deleted (see "## Left out").
- **Password hashing.** `PasswordScheme` holds an abstract `hash(salt, plain)` and `check(digest, plain)`. `Sound(scheme)` is the one assumption about the hashing library: a password checks against its own digest. Where a proof needs it, it appears as a hypothesis.
- **Specification vs. code.** Where the specification and the code disagree, the model follows the code:
  - the cache key is only (user, page); page size and `done` filter are not part of it, and the cache is never read;
  - create drops `description` (`TaskRoutes.DescriptionAcceptedButIgnored`);
  - update never writes `description`, even when the loose update schema accepts it;
  - `title` has no minimum length under the loose schema.

## Model

| member | source | states |
|---|---|---|
| Decimal.ParseShow | app/routes/auth.py:88 | the token identity `str(id)` reads back as exactly that id |
| Decimal.ShowInjective | app/routes/auth.py:88 | distinct user ids give distinct token identities |
| Decimal.Parse | app/routes/tasks.py:24 | reads back the decimal text of a non-negative id: a reading exists exactly for a non-empty run of decimal digits |
| Validation.ErrorsOfKeys | app/schemas.py:10-11 | a key carries an error exactly when it is undeclared ("Unknown field.") or its declared field is missing-but-required, null, of the wrong kind or too short |
| Validation.Load | app/schemas.py:3-17 | a loaded payload has only declared keys and every declared field acceptable; a refused one carries at least one error |
| Validation.LoadAccepts | app/schemas.py:3-17 | loading succeeds if and only if every key is declared and every declared field is acceptable |
| Validation.LoadCreate | app/routes/tasks.py:55 | a validated create patch carries the payload's title and exactly the description and done the payload gives; a refusal carries every error |
| Validation.LoadUpdate | app/routes/tasks.py:95 | a validated update patch holds a field exactly when the payload carries it, with its value |
| Models.CreatedDefaults | app/routes/tasks.py:60 | a new task belongs to the caller, takes the patch's title, has no description, and is done exactly when the patch gives `done` as true |
| Models.PatchedFields | app/routes/tasks.py:100-103 | patching keeps id, owner and description, and sets title/done exactly when present |
| Models.PatchedEmptyAndIdempotent | app/services/task_service.py:11-15 | the empty patch is a no-op; a patch applied twice equals applied once |
| Models.User.constructor | app/routes/auth.py:44 | a new user has the given id and username and no digest yet |
| Models.User.SetPassword | app/models.py:17-23 | stores the digest (never the plaintext) and nothing else; under a sound scheme the password then checks |
| StrictSchemas.CreateAccepts | app/schemas.py:3-11 | create accepts exactly: keys among title/description/done, a string title of length at least 1, an optional string description, an optional boolean done |
| StrictSchemas.CreateTitleErrors | app/schemas.py:5 | a missing title and an empty title are each refused with a message keyed on `title` |
| StrictSchemas.UnknownKeysRejected | app/schemas.py:10-17 | any other key, `id` and `created_at` included, is refused by both schemas with "Unknown field." |
| StrictSchemas.UpdateRejectsDescription | app/schemas.py:12-17 | an update carrying `description` is refused, since the update schema does not declare it |
| StrictSchemas.UpdateAccepts | app/schemas.py:12-17 | update accepts exactly: keys among title/done, a present title of length at least 1, a present boolean done; the patch never has a description |
| StrictSchemas.EmptyUpdate | app/schemas.py:12-14 | the empty body validates to the empty patch |
| StrictSchemas.DumpLoadsBack | app/schemas.py:4-8 | every dump has exactly id, title, description, done, created_at; without the output-only keys it loads back to the task's fields exactly when the title is non-empty and the description is set |
| StrictSchemas.DumpWithoutDescriptionRejected | app/schemas.py:6 | an unset description dumps as null, which create refuses |
| LooseSchemas.CreateAccepts | app/schemas/task_schema.py:4-10 | create accepts exactly: keys among title/description/done, any string title, the empty one included, and optional typed description/done |
| LooseSchemas.EmptyTitleAccepted | app/schemas/task_schema.py:6 | `{"title": ""}` is accepted here and refused by the strict schema |
| LooseSchemas.OutputOnlyRejected | app/schemas/task_schema.py:4-10 | `id`, `user_id` and `created_at` are never taken from input |
| LooseSchemas.UpdateAccepts | app/schemas/task_schema.py:12-15 | update accepts exactly the subsets of title/description/done with typed values, each independently optional |
| LooseSchemas.StrictAcceptedIsLooseAccepted | app/schemas/task_schema.py:4-15 | whatever the strict schemas accept, the loose ones accept with the same patch |
| LooseSchemas.DumpLoadsBack | app/schemas/task_schema.py:4-10 | every dump adds `user_id` to the strict keys; without the output-only keys it loads back to the task's fields exactly when the description is set |
| LooseSchemas.DumpWithoutDescriptionRejected | app/schemas/task_schema.py:7 | an unset description, as on every created task, dumps as null, which create refuses |
| Listing.DoneFilterMeaning | app/routes/tasks.py:22-29 | `done` selects done tasks for "true" in any case or "1", undone tasks for "false" in any case or "0", and all tasks otherwise |
| Listing.SelectSpec | app/routes/tasks.py:24-31 | the query returns only stored rows of the owner that pass the filter, in strictly ascending id order, and misses none |
| Listing.SelectCounts | app/routes/tasks.py:36 | the query's length counts the matching rows |
| Listing.NewRowListedLast | app/routes/tasks.py:60-63 | a created row shows up at the end of its owner's listing, after exactly the rows listed before |
| Listing.DeletedRowUnlisted | app/routes/tasks.py:128-130 | after a delete the listing holds the same rows except the deleted one |
| Listing.PagesIsCeiling | app/routes/tasks.py:38 | `pages` is ceil(total / per_page) |
| Listing.OffsetPastEnd | app/routes/tasks.py:32 | a page starts past the end exactly when its number exceeds `pages` |
| Listing.PaginateSpec | app/routes/tasks.py:32-35 | a page has at most per_page items, each at its offset in the full listing, and is empty exactly when past the last page |
| Listing.PageIsSublisting | app/routes/tasks.py:31-32 | a page takes its items from the ordered listing and keeps them in ascending id order |
| Listing.ItemOnItsPage | app/routes/tasks.py:32 | item i of the listing appears on page i / per_page + 1 at position i % per_page |
| Listing.ListPageSpec | app/routes/tasks.py:24-39 | a listing holds only the owner's filtered tasks, ascending, at most per_page; `total` counts all of them on every page; a page past the last is empty |
| Store.FindMatchesQuery | app/routes/tasks.py:74 | looking up the row stored under the id answers the query on the `id` and `user_id` columns: a row is found exactly when some stored row has that id and belongs to the caller, and the row found is that one |
| Store.FindIsolates | app/routes/tasks.py:74-77 | another user's task looks exactly like a missing one |
| TaskRoutes.OwnerNotFromPayload | app/routes/tasks.py:60 | under either schema a body naming `user_id` or `id` is refused, so the owner is always the caller |
| TaskRoutes.DescriptionAcceptedButIgnored | app/routes/tasks.py:60 | for every payload either schema accepts, a created task has no description and an update leaves the description as it was; a payload with a description is accepted on create (both schemas) and on loose update |
| TaskRoutes.ListTasks | app/routes/tasks.py:17-45 | the reply is the listing of the table, never of the cache: owner-only, filtered, ascending, at most per_page, with the full total; only the cache changes, at key (caller, page) |
| TaskRoutes.CreateTask | app/routes/tasks.py:51-66 | 422 with the errors and no change for a refused body; otherwise 201 with one new row owned by the caller and the cache emptied; 500 with no change if the commit fails |
| TaskRoutes.GetTask | app/routes/tasks.py:72-80 | 200 with the task exactly when it exists and is the caller's; 404 otherwise |
| TaskRoutes.UpdateTask | app/routes/tasks.py:86-114 | 404 with no change before any validation when not the caller's task; 422 with no change for a refused body; otherwise only that row is patched and the cache emptied; 500 with no change on a failed commit |
| TaskRoutes.DeleteTask | app/routes/tasks.py:120-137 | 404 with no change when not the caller's task; otherwise exactly that row is removed and the cache emptied; 500 with no change on a failed commit |
| TaskService.CreateTask | app/services/task_service.py:4-9 | adds one task owned by `user_id`, title from the data, done defaulting to false, no description; empties the cache; returns the task |
| TaskService.UpdateTask | app/services/task_service.py:11-18 | sets title/done only when present; never changes id, owner or description, or the next id to be given out; empties the cache even for empty data; returns the task |
| AuthRoutes.FirstNamed | app/routes/auth.py:41 | finds a user with the name exactly when one exists |
| AuthRoutes.UserTable.Register | app/routes/auth.py:34-49 | 400 with no change for a missing or empty field or a taken username; otherwise 201 with one new user, whose id is the next one and which holds the digest, and the next id advances by one; usernames stay pairwise distinct |
| AuthRoutes.LoginMeaning | app/routes/auth.py:82-90 | login succeeds exactly for a stored username with a matching password; the token identity reads back as that user's id; every other failure is 401 |
| AuthRoutes.LoginAsWrittenFails | app/routes/auth.py:87-95 | login as written never succeeds: valid credentials give 500 where the corrected login gives 200 |

## Findings

| source | as written | input that shows it | evidently intended | confidence | as-written member | corrected member |
|---|---|---|---|---|---|---|
| app/routes/auth.py:87-95 | after the password check, login reads `user.role`, but the `User` record (app/models.py:6-26) declares no `role` column, so the attribute lookup raises | register `john`/`password123`, then log in with the same pair: the route fails with 500, where the test (app/tests/test_auth.py:17-19) expects 200 and an `access_token` | issue the token with identity `str(user.id)` and no role claim | not executed; high (the attribute is absent from `User` in app/models.py:6-26) | AuthRoutes.UserTable.LoginAsWritten (lemma AuthRoutes.LoginAsWrittenFails) | AuthRoutes.UserTable.Login (lemma AuthRoutes.LoginMeaning) |

## Left out

- HTTP routing, request parsing and error-handler bodies. A missing JSON body is the empty map; query parameters arrive already parsed (`page` and `per_page` as optional integers with defaults 1 and 5).
- TaskRoutes.ListTasks: requires `page >= 1` and `per_page >= 1`. The paginator's own clamping of smaller values belongs to the library and is not modelled.
- JWT issuance, verification, expiry and refresh. The caller's id is a parameter, and the login token is reduced to its identity string.
- The role claim. Neither the `role_required` decorator nor `User` carries a role.
- The duplicate authentication blueprint, which the application never registers. The broken bootstrap module.
- Marshmallow's type coercions. For example, the string "true" loaded into a boolean field is not modelled; such a value is treated as refused.
- Serialization in the replies. Routes return the `Task` record; its JSON form is `StrictSchemas.Dump` or `LooseSchemas.Dump`, whose round trips are proved separately. `created_at` and every other timestamp are opaque.
- Werkzeug's salted hashing is abstract. A login that finds the user but carries no password is modelled as 500, because the hash check cannot encode a missing password.
- Cache entry expiry (a 60-second default timeout) and the test configuration's null cache.
- Logging, configuration, concurrency, and races between requests (last writer wins).
- Decimal.Parse: reads only unsigned runs of decimal digits. SQLite's numeric reading of the text identity at the `user_id` comparison also accepts a sign, surrounding spaces or a fraction ("-1", " 1 ", "1.0"). The identity is always `str(user.id)`, so no such text reaches the comparison.
- TaskRoutes.CreateTask, TaskService.CreateTask: the new id is the counter `nextId`, which never reuses an id. SQLite reuses a deleted top id: after create (id 1), delete 1, create, SQLite gives id 1 and the model gives id 2. The ids the model gives are still fresh, owner-scoped and ascending in creation order.
- TaskService.CreateTask, TaskService.UpdateTask: `data` is taken as a validated patch, not a raw dict. Two failures of the raw form are not modelled: `data["title"]` raising `KeyError` when `title` is absent (app/services/task_service.py:5), and a present `None` title written by `update_task` and refused at commit by the NOT NULL `title` column (app/services/task_service.py:12-16, app/models.py:33).
- Database constraints not exercised by this code: column lengths, and the foreign key from a task to an existing user.
