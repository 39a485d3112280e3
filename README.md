# Task management system: the ownership-scoped CRUD core and its client stores

This project models the core of a task management system. It has a FastAPI/SQLAlchemy backend and a Vue/Pinia client.

The backend keeps four tables: users, projects, tasks and comments.

- Every project has an owner.
- Every task belongs to a project.
- Every comment belongs to a task and to the user who wrote it.

The endpoints are meant to let a caller see and change only what lives under the projects they own.

The client keeps three stores. Each caches what the endpoints returned and updates that cache locally after each request:

- tasks;
- projects;
- the signed-in user with their tokens.

The model follows the code as written, flaws included. The task endpoints mark their own flaws with `# Bug 1` to `# Bug 11` comments (backend/app/api/v1/endpoints/tasks.py:35, 39, 44, 47, 56, 60, 66, 72, 76, 80 and 86). Bugs 1 to 8 are in the model: the listing drops the join with the projects table, the status filter is case-sensitive, the listing has no upper limit, and an unknown status is not rejected. Bugs 9 to 11 are outside it, and each has a line under "Left out": transactions (Bug 9), the server clock (Bug 10) and database errors (Bug 11). The model states and proves what the code actually does:

- the task gate only asks whether the caller owns *some* project;
- the task listing has no ownership filter and ignores `limit`;
- the status filter upper-cases its argument;
- an unknown status is coerced to `todo` on create;
- the profile update lets the payload's `id` pick which user is changed.

Where a flaw is a visibility rule, a corrected predicate sits beside the as-written one with a lemma relating the two (`TaskQueries.GetOwnedTask`).

Layout, one module per file:

- `common.dfy`: optional values, the three states of a JSON body field, `exclude_unset` patches, endpoint outcomes.
- `lists.dfy`: the building blocks:
  - the scan order of a table (ascending id, as SQLite scans a rowid table with no ORDER BY);
  - filtering, and SQLite's OFFSET and LIMIT, including SQLite's reading of negative values;
  - `first()`, JavaScript's `findIndex` as a loop, and replace-first-by-id;
  - the `setattr` loop over a dump.
- `task_schema.dfy`, `project_schema.dfy`, `comment_schema.dfy`, `user_schema.dfy`: request bodies, pydantic's validation of them, the stored rows, and the `exclude_unset` dumps with their assignment.
- `task_queries.dfy`, `project_queries.dfy`, `auth_queries.dfy`, `users_endpoints.dfy`: the read-only logic of the endpoints, over table rows in scan order.
- `backend.dfy`: the database as the class `Backend.Store`.
  - Its fields are the four maps from id to row and four autoincrement counters.
  - Each writing endpoint is a method taking the caller's id and a validated payload, and each read endpoint a function.
  - Lemmas tie the row-sequence queries to map lookups.
- `client.dfy`: the response of one request, and the `detail || fallback` error message.
- `task_store.dfy`, `project_store.dfy`, `auth_store.dfy`: the three Pinia stores as classes.
  - The response each action's request got is an input.
  - Task objects are a class, because after `updateTask` the same object can be in `tasks` and in `currentTask`. `addComment` changes it in place.
  - The auth store's effects are also functions on an `AuthState` value, so that several actions can be related by lemmas.

Outside inputs:

- `get_password_hash`, `verify_password` and `create_access_token` are function parameters (`hash`, `verify`, `mint`).
- Timestamps are parameters.
- `localStorage` is a map field of the auth store.

Where the code cannot run as written:

- `update_task` uses `UserModel` without importing it, and `update_user_me` calls `get_password_hash` without importing it. The model takes the evident lookup and the evident hash.

## Model

| member | source | states |
|---|---|---|
| Lists.ScanIds | backend/app/api/v1/endpoints/tasks.py:36 | the ids a table scan visits are exactly the stored ids below the counter, strictly ascending |
| Lists.Scan | backend/app/api/v1/endpoints/tasks.py:36 | the rows of an unordered query are the stored rows in id order |
| Lists.ScanExists | backend/app/api/v1/endpoints/tasks.py:18-23 | some scanned row passes a filter iff some stored row does |
| Lists.ScanIsTable | backend/app/api/v1/endpoints/tasks.py:180-182 | in a keyed table the scan holds exactly the stored rows, each under its own id |
| Lists.ScanAscending | backend/app/api/v1/endpoints/tasks.py:180-182 | a keyed table is scanned in strictly ascending key order, so no row comes twice |
| Lists.ScanFirstWithKey | backend/app/api/v1/endpoints/tasks.py:124 | `filter(id == k).first()` finds the row stored under `k`, and nothing when there is none |
| Lists.Filter | frontend/src/stores/tasks.ts:153 | `filter` keeps exactly the elements that pass, never more elements than given |
| Lists.FilterConcat | frontend/src/stores/tasks.ts:153 | filtering distributes over concatenation, so the kept elements stay in their original order |
| Lists.FilterKeepsAscending | backend/app/api/v1/endpoints/tasks.py:180-182 | filtering rows in ascending key order leaves them in ascending key order |
| Lists.FilterKeepsAll | frontend/src/stores/tasks.ts:153 | a filter every element passes changes nothing |
| Lists.FilterRejectsAll | frontend/src/stores/tasks.ts:153 | a filter no element passes yields the empty list |
| Lists.Drop | backend/app/api/v1/endpoints/tasks.py:48 | OFFSET drops the first `n` rows; a non-positive OFFSET drops none |
| Lists.Take | backend/app/api/v1/endpoints/projects.py:28 | LIMIT keeps a prefix of at most `n` rows; a negative LIMIT keeps all |
| Lists.FirstWhere | backend/app/api/v1/endpoints/tasks.py:23 | `first()` finds a row iff some row passes the filter, and the row it finds is the first passing one in scan order |
| Lists.FirstIndex | frontend/src/stores/tasks.ts:126 | the first position with the key, or -1 exactly when no element has it |
| Lists.FindIndex | frontend/src/stores/tasks.ts:126 | the `findIndex` loop returns the first matching position, or -1 iff none matches |
| Lists.ReplaceFirst | frontend/src/stores/tasks.ts:126-129 | only the first element with the id is replaced; with no match the list is unchanged |
| Lists.ReplaceFirstChangesOneSlot | frontend/src/stores/tasks.ts:126-129 | the replacement is the list with one slot, the first match, swapped for the response |
| Lists.FoldConcat | backend/app/api/v1/endpoints/tasks.py:128-129 | assigning one dump then another is assigning their concatenation |
| Lists.SetAttrs | backend/app/api/v1/endpoints/tasks.py:128-129 | the `setattr` loop leaves the record that assigning every item in order gives |
| TaskSchema.ParseCreate | backend/app/schemas/task.py:8-18 | a create body is accepted iff its title is given with at most 255 characters, `project_id` is given, status is not null and a given priority is in [1,5]; the accepted payload carries the body's values and the defaults |
| TaskSchema.ParseUpdate | backend/app/schemas/task.py:20-26 | an update body is accepted iff a given title has at most 255 characters and a given priority is in [1,5]; every key of the accepted update is unset when omitted, set to `None` when sent as `null`, and set to the sent value otherwise |
| TaskSchema.CreateDefaults | backend/app/schemas/task.py:10-15 | a body with only title and project gets status TODO and `None` description, priority, due date and assignee |
| TaskSchema.UpdateIgnoresProjectId | backend/app/schemas/task.py:20-26 | a `project_id` key in an update body has no effect on the parsed update |
| TaskSchema.UpdateUnsetIffAbsent | backend/app/api/v1/endpoints/tasks.py:111 | each of the six keys is left out of the `exclude_unset` dump exactly when the body omitted it |
| TaskSchema.DumpHasNoProjectId | backend/app/api/v1/endpoints/tasks.py:113-120 | no update dump has a `project_id` key, so the project re-check never runs |
| TaskSchema.KeyIsNotProjectId | backend/app/api/v1/endpoints/tasks.py:114 | no item a `TaskUpdate` can dump is keyed `project_id` |
| TaskSchema.Dump | backend/app/api/v1/endpoints/tasks.py:111 | the dump holds an item for every set key with its sent value, and only such items |
| TaskSchema.DumpInSchemaOrder | backend/app/api/v1/endpoints/tasks.py:111 | the dump lists its items in the schema's field order, so no key appears twice |
| TaskSchema.Assign | backend/app/api/v1/endpoints/tasks.py:129 | one `setattr` sets the item's own column to its value and leaves every other column as it was |
| TaskSchema.Patched | backend/app/api/v1/endpoints/tasks.py:128-129 | the patched row keeps the id, project, creator and timestamps of the stored one |
| TaskSchema.HeadAssigned | backend/app/api/v1/endpoints/tasks.py:128-129 | assigning the title, description and status items sets exactly those columns, to the sent values |
| TaskSchema.TailAssigned | backend/app/api/v1/endpoints/tasks.py:128-129 | assigning the priority, due date and assignee items sets exactly those columns, to the sent values |
| TaskSchema.AssignDumpIsPatched | backend/app/api/v1/endpoints/tasks.py:128-129 | the `setattr` loop over the dump gives the row where set keys take the new value and the rest keep the old one |
| TaskSchema.PatchedKeepsInvariant | backend/app/schemas/task.py:20-32 | a validated update keeps the title and priority bounds of a stored row and never changes id, project, creator or timestamps |
| TaskSchema.PatchedUnsetUnchanged | backend/app/api/v1/endpoints/tasks.py:128-129 | for each of the six keys: left unset, the column keeps its stored value; set, it takes the sent value, `None` included |
| ProjectSchema.ParseCreate | backend/app/schemas/project.py:6-11 | a create body is accepted iff the name is given with at most 100 characters; description defaults to `None` |
| ProjectSchema.ParseUpdate | backend/app/schemas/project.py:13-15 | an update body is accepted iff a given name has at most 100 characters; each key is unset when omitted, set to `None` when sent as `null`, and set to the sent value otherwise |
| ProjectSchema.Dump | backend/app/api/v1/endpoints/projects.py:68 | the dump holds an item for every set key with its sent value and only such items, the name before the description |
| ProjectSchema.Assign | backend/app/api/v1/endpoints/projects.py:70 | one `setattr` sets the item's own column and keeps the other one, the id, the owner and the creation time |
| ProjectSchema.Patched | backend/app/api/v1/endpoints/projects.py:68-70 | the patched row keeps id, owner and creation time; each set key takes the sent value and each unset key keeps its column |
| ProjectSchema.AssignDumpIsPatched | backend/app/api/v1/endpoints/projects.py:68-70 | the `setattr` loop gives the row patched at the set keys, with id, owner and creation time kept |
| ProjectSchema.PatchedKeepsInvariant | backend/app/schemas/project.py:13-20 | a validated update keeps the name bound of a stored project |
| CommentSchema.Parse | backend/app/schemas/comment.py:9-16 | comment content is accepted iff it is given and non-empty, and is kept as sent |
| CommentSchema.RewriteAuthor | backend/app/schemas/comment.py:40-43 | `obj['author']` is replaced by the user model of the author dict exactly when `obj` is a dict whose author is a dict; otherwise nothing changes |
| UserSchema.Dump | backend/app/api/v1/endpoints/users.py:36 | the dump holds an item for every set key, never a hash item, and a password item only when that key is set |
| UserSchema.Assign | backend/app/api/v1/endpoints/users.py:57 | one `setattr` never changes the two flags; a `password` item changes nothing; an id item sets the id; only a hash item changes the stored hash |
| UserEndpoints.ReadUsersMe | backend/app/api/v1/endpoints/users.py:17-20 | the profile carries the caller's fields and hash with `is_active` forced true and `is_superuser` forced false |
| UserEndpoints.TargetId | backend/app/api/v1/endpoints/users.py:39 | the target is the payload's `id` when present, `None` when it was sent as `null`, and the caller otherwise |
| UserEndpoints.WithHashedPassword | backend/app/api/v1/endpoints/users.py:50-52 | after the rewrite no password item remains, the hash is assigned last, and every other item is kept |
| UserEndpoints.Prepared | backend/app/api/v1/endpoints/users.py:47-52 | when the password is acted on, no password item is left and the hash is the last item; otherwise no hash item is added |
| UserEndpoints.PatchedUser | backend/app/api/v1/endpoints/users.py:50-57 | the flags and every unset key are kept; a set id, email or full name takes the sent value; the stored hash changes exactly when the password is acted on, to its hash |
| UserEndpoints.DumpSplits | backend/app/api/v1/endpoints/users.py:36 | the dump is its profile items followed by the password item when that key is set |
| UserEndpoints.ProfileAssigned | backend/app/api/v1/endpoints/users.py:55-57 | assigning the profile items sets exactly id, email and full name |
| UserEndpoints.FilterDropsPassword | backend/app/api/v1/endpoints/users.py:52 | removing the password key leaves exactly the profile items |
| UserEndpoints.PreparedIsPatched | backend/app/api/v1/endpoints/users.py:47-57 | the assignment loop gives the user with set keys changed, the password stored only as its hash, all else kept |
| UserEndpoints.ApplyUpdate | backend/app/api/v1/endpoints/users.py:47-57 | 400 iff a non-empty password is shorter than 4; otherwise the rewritten dump, assigned in a loop, leaves the patched user |
| AuthQueries.AuthenticateUser | backend/app/api/v1/endpoints/auth.py:14-20 | no user with the email gives `False`; a returned user has the email and the password verifies against its hash |
| AuthQueries.AuthenticateDecidedByOwner | backend/app/api/v1/endpoints/auth.py:14-20 | with unique emails the answer is that user iff the password verifies, `False` otherwise |
| AuthQueries.Login | backend/app/api/v1/endpoints/auth.py:44-55 | 401 iff authentication fails; otherwise a bearer token minted for the email with the eight-day expiry |
| AuthQueries.LoginIffPasswordVerifies | backend/app/api/v1/endpoints/auth.py:44-50 | for an existing unique email, login succeeds iff the password verifies |
| TaskQueries.GetTask | backend/app/api/v1/endpoints/tasks.py:17-23 | a task is returned iff the caller owns some project and a task has the id; the task's own project is not constrained |
| TaskQueries.GetOwnedTask | backend/app/api/v1/endpoints/tasks.py:17-23 | the corrected gate returns a task only when the caller owns that task's project |
| TaskQueries.CorrectedImpliesAsWritten | backend/app/api/v1/endpoints/tasks.py:17-23 | whatever the corrected gate lets through, the as-written one returns too |
| TaskQueries.AsWrittenIgnoresTaskProject | backend/app/api/v1/endpoints/tasks.py:17-23 | owning any one project makes the gate return the task with the id, whatever its project |
| TaskQueries.AsWrittenLeaksForeignTask | backend/app/api/v1/endpoints/tasks.py:17-23 | an owner of project 1 is shown task 2 of another user's project 99, which the corrected gate hides |
| TaskQueries.UpperChar | backend/app/api/v1/endpoints/tasks.py:40 | `upper()` maps ASCII lower-case letters to upper case and leaves other characters |
| TaskQueries.Upper | backend/app/api/v1/endpoints/tasks.py:40 | `upper()` keeps the length and upper-cases each character |
| TaskQueries.Matches | backend/app/api/v1/endpoints/tasks.py:38-45 | with no filter, or only an empty status, every task passes; a given assignee never matches a `NULL` one, and a status filter never matches a `NULL` status |
| TaskQueries.ReadTasks | backend/app/api/v1/endpoints/tasks.py:26-48 | the listing is the tasks passing the filters, in scan order, with the first `skip` of them dropped (none for a non-positive `skip`) |
| TaskQueries.ReadTasksIgnoresLimit | backend/app/api/v1/endpoints/tasks.py:47-48 | the `limit` argument has no effect on the result |
| TaskQueries.ReadTasksListsEveryTask | backend/app/api/v1/endpoints/tasks.py:35-36 | with no filters the listing is the whole task table, whoever owns the projects |
| TaskQueries.UpperHasNoLowercase | backend/app/api/v1/endpoints/tasks.py:40 | an upper-cased string has no lower-case letter |
| TaskQueries.LowercaseStatusNeverMatches | backend/app/api/v1/endpoints/tasks.py:38-40 | a status filter never matches a stored status with a lower-case letter |
| TaskQueries.StatusFilterMissesDefault | backend/app/api/v1/endpoints/tasks.py:38-40 | filtering by `todo` over tasks with the default status lists nothing |
| TaskQueries.TaskComments | backend/app/api/v1/endpoints/tasks.py:180-182 | exactly the comments whose task is the given one, never more than the input, and in ascending id order when the input is |
| ProjectQueries.GetProject | backend/app/api/v1/endpoints/projects.py:13-17 | a project is returned iff one has both the id and the caller as owner |
| ProjectQueries.ReadProjects | backend/app/api/v1/endpoints/projects.py:26-28 | the caller's projects in scan order, the first `skip` dropped, then the first `limit` of the rest (all for a negative `limit`) |
| ProjectQueries.PagesCoverList | backend/app/api/v1/endpoints/projects.py:26-28 | a first page of `k` plus the listing from offset `k` is the whole list: no overlap, no gap |
| Backend.CoerceStatus | backend/app/api/v1/endpoints/tasks.py:73-74 | a non-empty status outside {todo, in_progress, done} becomes `todo`; allowed or empty ones are kept |
| Backend.NewTask | backend/app/api/v1/endpoints/tasks.py:77-81 | the inserted row has the payload's fields, the coerced status, the caller as creator and no update time |
| Backend.AssignTask | backend/app/api/v1/endpoints/tasks.py:128-129 | the `setattr` loop over the update's dump gives the patched task |
| Backend.GetTaskOnTables | backend/app/api/v1/endpoints/tasks.py:17-23 | on the tables, the gate returns the stored task iff it exists and the caller owns some project |
| Backend.GetProjectOnTable | backend/app/api/v1/endpoints/projects.py:13-17 | on the table, the gate returns the stored project iff it exists with the caller as owner |
| Backend.EmailLookupOnTable | backend/app/api/v1/endpoints/auth.py:24-25 | the email lookup finds a row iff some stored user has the email |
| Backend.CommentsOnTable | backend/app/api/v1/endpoints/tasks.py:180-182 | on the table, the comment listing holds exactly the stored comments of the task, in ascending id order and each once |
| Backend.TasksOnTable | backend/app/api/v1/endpoints/tasks.py:36-48 | on the table, the task listing holds stored tasks passing the filters, and with no offset every one of them |
| Backend.ProjectsOnTable | backend/app/api/v1/endpoints/projects.py:26-28 | on the table, the project listing holds stored projects of the caller, and with no offset and no bound every one of them |
| Backend.Store.constructor | backend/init_db.py:14 | an empty database whose autoincrement ids all start at 1 |
| Backend.Store.GetTask | backend/app/api/v1/endpoints/tasks.py:17-23 | the gate run on the database: the stored task iff it exists and the caller owns some project |
| Backend.Store.GetProject | backend/app/api/v1/endpoints/tasks.py:61-63 | the (id, owner) project lookup: the stored project iff the caller owns it |
| Backend.Store.GetUser | backend/app/api/v1/endpoints/users.py:40 | the user lookup by id finds the stored user iff there is one |
| Backend.Store.FindUserByEmail | backend/app/api/v1/endpoints/auth.py:24 | the user lookup by email finds a stored user with the email iff there is one |
| Backend.Store.ReadTasks | backend/app/api/v1/endpoints/tasks.py:26-48 | the stored tasks passing the filters, whoever owns them, in scan order with the first `skip` dropped |
| Backend.Store.ReadTask | backend/app/api/v1/endpoints/tasks.py:95-98 | the stored task iff the gate passes, 404 otherwise |
| Backend.Store.ReadTaskComments | backend/app/api/v1/endpoints/tasks.py:176-182 | 404 iff the gate fails; otherwise exactly the stored comments of the task, in ascending id order and each once |
| Backend.Store.CreateTask | backend/app/api/v1/endpoints/tasks.py:57-87 | 404 and no change iff the caller owns no project with the payload's id; otherwise exactly one new task under the next id, other tables unchanged; only the task counter moves on |
| Backend.Store.UpdateTask | backend/app/api/v1/endpoints/tasks.py:107-133 | 404 and no change iff the gate fails; 400 and no change iff a non-null assignee names no user; otherwise only that task changes, to the patched row; no counter moves |
| Backend.Store.DeleteTask | backend/app/api/v1/endpoints/tasks.py:141-147 | 404 and no change iff the gate fails; otherwise exactly that task is removed and every comment stays; no counter moves |
| Backend.Store.CreateComment | backend/app/api/v1/endpoints/tasks.py:156-168 | 404 and no change iff the gate fails; otherwise one new comment with the path's task and the caller as author; only the comment counter moves on |
| Backend.Store.ReadProjects | backend/app/api/v1/endpoints/projects.py:26-29 | the stored projects the caller owns, in scan order, the first `skip` dropped, then the first `limit` of the rest |
| Backend.Store.ReadProject | backend/app/api/v1/endpoints/projects.py:52-55 | the stored project iff the caller owns it, 404 otherwise |
| Backend.Store.CreateProject | backend/app/api/v1/endpoints/projects.py:37-44 | exactly one new project under the next id, owned by the caller; only the project counter moves on |
| Backend.Store.UpdateProject | backend/app/api/v1/endpoints/projects.py:64-74 | 404 and no change iff the caller does not own it; otherwise the set keys are assigned and id and owner are kept; no counter moves |
| Backend.Store.DeleteProject | backend/app/api/v1/endpoints/projects.py:82-88 | 404 and no change iff the caller does not own it; otherwise exactly that project goes and all tasks stay; no counter moves |
| Backend.Store.RegisterUser | backend/app/api/v1/endpoints/auth.py:24-37 | 400 and no change iff the email is taken; otherwise one new user with the hash of the password and the assumed default flags (active, not superuser); unique emails stay unique; only the user counter moves on |
| Backend.Store.UpdateUserMe | backend/app/api/v1/endpoints/users.py:36-57 | 404 iff the target id is `null` or names no user; 400 iff the password is non-empty and shorter than 4; otherwise only the target changes, to the patched user; no counter moves |
| Client.ErrorMessage | frontend/src/stores/tasks.ts:63 | the backend's detail when it is a non-empty string, the action's own message otherwise |
| TaskStore.Store.FetchTasks | frontend/src/stores/tasks.ts:45-68 | success replaces the list by the response; failure keeps it and sets the error; loading ends false |
| TaskStore.Store.FetchTaskById | frontend/src/stores/tasks.ts:71-84 | success makes the response the viewed task; failure keeps it and sets the error |
| TaskStore.Store.CreateTask | frontend/src/stores/tasks.ts:87-108 | success appends the response: one more element, the earlier ones unchanged |
| TaskStore.Store.UpdateTask | frontend/src/stores/tasks.ts:111-143 | success replaces the first task with the id, and the viewed task iff its id matches |
| TaskStore.Store.DeleteTask | frontend/src/stores/tasks.ts:146-167 | success removes every task with the id, keeps the rest in order, and clears the viewed task iff it matches |
| TaskStore.Store.AddComment | frontend/src/stores/tasks.ts:170-191 | when the viewed task is the commented one, the comment is appended to its (possibly new) list; no other task object changes |
| TaskStore.Store.FetchTaskComments | frontend/src/stores/tasks.ts:194-212 | the viewed task's comments become the response only when its id matches |
| ProjectStore.Store.FetchProjects | frontend/src/stores/projects.ts:20-33 | success replaces the list by the response; failure keeps it and sets the error |
| ProjectStore.Store.FetchProjectById | frontend/src/stores/projects.ts:36-49 | success makes the response the viewed project |
| ProjectStore.Store.CreateProject | frontend/src/stores/projects.ts:52-65 | success appends exactly one project |
| ProjectStore.Store.UpdateProject | frontend/src/stores/projects.ts:68-92 | success replaces the first project with the id, and the viewed project iff it matches |
| ProjectStore.Store.DeleteProject | frontend/src/stores/projects.ts:95-116 | success removes every matching project, keeps the rest in order, and clears the viewed project iff it matches |
| AuthStore.LoggedOut | frontend/src/stores/auth.ts:86-93 | logout removes both tokens and the user, signs out, and keeps every other stored key |
| AuthStore.StoreTokens | frontend/src/stores/auth.ts:41-47 | the access token is always stored, the refresh token only when the response has a non-empty one |
| AuthStore.AfterInitAuth | frontend/src/stores/auth.ts:22-28 | only the sign-in flag may change, and it is set iff it was set or an access token is stored |
| AuthStore.AfterFetchUser | frontend/src/stores/auth.ts:100-110 | success sets the user and changes nothing else; failure ends signed out with no user and no access token |
| AuthStore.AfterLogin | frontend/src/stores/auth.ts:32-62 | signed in iff both requests succeed or the login was refused while signed in; no error iff both succeed; an access token remains iff `fetchUser` succeeded |
| AuthStore.AfterRegister | frontend/src/stores/auth.ts:65-83 | a failed registration keeps user, flag and tokens; no error iff registration and the login after it succeed |
| AuthStore.AfterUpdateProfile | frontend/src/stores/auth.ts:113-122 | flag and tokens are kept; success replaces the user and keeps the error; failure keeps the user and sets an error |
| AuthStore.InitAuthIffToken | frontend/src/stores/auth.ts:22-28 | `initAuth` signs in iff an access token is stored and otherwise changes nothing |
| AuthStore.LogoutIdempotent | frontend/src/stores/auth.ts:86-93 | logging out twice is logging out once |
| AuthStore.LoginFetchFailureLogsOut | frontend/src/stores/auth.ts:50-58 | a login whose `fetchUser` fails ends signed out with no tokens and no user, shows the error, and returns false |
| AuthStore.LoginSuccessStoresTokens | frontend/src/stores/auth.ts:41-55 | a successful login stores the tokens, signs in and holds the fetched user |
| AuthStore.LoginFailureKeepsSession | frontend/src/stores/auth.ts:56-58 | a refused login leaves user, sign-in flag and tokens as they were and sets the error |
| AuthStore.RegisterIsLogin | frontend/src/stores/auth.ts:65-83 | after a successful registration the effect is the login's; a failed one only sets the error |
| AuthStore.UpdateProfileFailureKeepsUser | frontend/src/stores/auth.ts:118-121 | a failed profile update keeps the user and sets the error |
| AuthStore.ActionsKeepConsistent | frontend/src/stores/auth.ts:22-121 | no action leaves the store signed in without a stored access token |
| AuthStore.Store.InitAuth | frontend/src/stores/auth.ts:22-28 | applies `initAuth`'s effect and leaves loading alone |
| AuthStore.Store.Logout | frontend/src/stores/auth.ts:86-97 | applies the logout effect |
| AuthStore.Store.FetchUser | frontend/src/stores/auth.ts:100-110 | success sets the user; failure logs out and rethrows |
| AuthStore.Store.Login | frontend/src/stores/auth.ts:32-62 | applies the login effect, returns true iff both requests succeeded, and ends not loading |
| AuthStore.Store.Register | frontend/src/stores/auth.ts:65-83 | applies the registration effect and returns true iff registration and login succeeded |
| AuthStore.Store.UpdateProfile | frontend/src/stores/auth.ts:113-122 | success replaces the user and returns true; failure sets the error and returns false; loading untouched |

## Left out

- HTTP routing, dependency injection, the session, commit and refresh are not modelled, nor transactions (tasks.py's Bug 9). Each writing method is one atomic change of the maps.
- The identification of the caller by token (`get_current_user`) is not modelled. core/security.py is not part of this model.
- Password hashing, password verification and token minting are uninterpreted function parameters. The token's payload and expiry encoding are not modelled.
- The raw SQL string of `create_task` is modelled only as the (id, owner) lookup it performs. Injection through it needs the SQL engine.
- Error-message texts of the backend, the `print` in `read_users_me`, the 500 path of `update_user_me` and database errors in general (tasks.py's Bug 11) are not modelled. They are I/O and exceptions of the database layer.
- Timestamps are inputs, so whether they come from the server clock or the database (tasks.py's Bug 10) is not modelled. `server_default=now()` and `onupdate=now()` are not modelled, and the projects table's `updated_at` column is not in the project row.
- Ids are counters that only grow. SQLite may reuse the largest id after it is deleted; that reuse is not modelled.
- models/task.py and models/user.py are not part of this model. The foreign-key effects of deleting a project are therefore not modelled: the ORM would null the `project_id` of loaded tasks, and a non-null column would make the commit fail. The same holds for deleting a task that has comments. `Backend.Store.DeleteProject` and `Backend.Store.DeleteTask` leave the other tables unchanged. A new user's `is_active` true and `is_superuser` false are assumed to be the column defaults of models/user.py.
- Backend.Store.RegisterUser: the flags of the new user (`is_active` true, `is_superuser` false) are assumed column defaults. auth.py:29-33 sets neither, and models/user.py, which would define them, is not part of this model.
- Backend.Store.UpdateUserMe: does not model a unique index on `email`. Assigning an email another user has would make the commit fail, but the model assigns it; `UniqueEmails` is therefore only stated as preserved by `RegisterUser`.
- An update that sets a project's name to `null` passes the schema, but the `nullable=False` column makes the commit fail. The model assigns `None`.
- schemas/user.py is not part of this model. User fields are the ones the endpoints and the client use, and `UserUpdate`'s keys are `id`, `email`, `full_name` and `password`. `id` and `password` may be `null`; `email` and `full_name` are assumed not nullable.
- Statuses are strings. The `TaskStatus` enum (models/task.py) is not part of this model, so pydantic's rejection of unknown enum values is not modelled; the client's `in_review` status, which the backend's allowed list lacks, is only named in `TaskStore.Status`.
- TaskQueries.StatusFilterMissesDefault: assumes a task's status is stored as the lower-case string the client sent (`todo`). models/task.py is not part of this model; if the status column is an `Enum(TaskStatus)` column, SQLAlchemy stores the member name (`TODO`), and the seeding script assigns enum members (backend/init_db.py:76, 86 and 96), so an upper-cased filter would then match.
- Client.ErrorMessage: `detail` is modelled as an optional string. FastAPI's 422 response carries a list as its `detail`, which is truthy in JavaScript, so the stores would keep that list as their error; the model gives the fallback message or a string instead.
- TaskQueries.Upper: upper-cases ASCII letters only; Python's `str.upper()` also maps other Unicode letters.
- Pydantic's validation error (422) is modelled by the `Parse*` functions and by requiring validated payloads of the store methods. Type coercion and date parsing are not modelled.
- `response_model` filtering of the returned fields is not modelled. `read_users_me` and `update_user_me` return the full user row.
- Client requests, `URLSearchParams` building, `router.push` navigation and promise timing are not modelled. Each action receives the response it got as an input, and the result of an action that rethrows is `Rejected`.
- AuthStore.Store.InitAuth: models only the synchronous part. The `fetchUser` it starts is not awaited, so its completion may interleave with other actions; that completion is `AuthStore.AfterFetchUser` applied later.
