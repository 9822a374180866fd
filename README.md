# Task-management API core, modelled in Dafny

This project models the core of a small Express/TypeScript task-management API:

- three in-memory repositories that change their record arrays in place: categories, tasks and users;
- the handlers that gate every request with a short chain of checks ending in an HTTP status;
- the `verifyToken(roles)` middleware with its bearer-header parsing and the role tables of the routes;
- registration and login.

The repositories are Dafny classes with a `seq` field. Their methods carry `modifies` clauses and reproduce the source's `push`, `find`/`findIndex`, index assignment of a shallow merge and `splice`. Each listing method reassigns its filtered sequence step by step, as the source does, and is proved equal to a pure listing function. Lemmas about that function and about the shared pagination arithmetic state what the listing returns.

Each handler is a pure "outcome" function from the store, the caller and the parameters to a response and the new store. Its contract states the order of the checks and the store effect. A handler method over the repository object is proved to produce exactly that outcome.

Modules, one per file:

| file | module | models |
|---|---|---|
| common.dfy | `Common` | `Option`, a call's completion (a value returned or an error thrown), `filter`, JavaScript `slice`, and first-match find/update/delete by id shared by all repositories; fresh ids |
| text.dfy | `Text` | ASCII `toLowerCase`, `includes`, `trim() === ''` with ECMAScript's whitespace, `split(' ')` |
| pagination.dfy | `Pagination` | the pagination summary and page slice shared by categories and users |
| crypto.dfy | `Crypto` | stand-ins for `bcryptjs` (hash, compare) and `jsonwebtoken` (sign, verify) |
| http.dfy | `Http` | the response envelope `{ status, message, data }` with its status code, and the `catch` answer 500 |
| categories.dfy, tasks.dfy, users.dfy | `Categories`, `Tasks`, `Users` | records, shallow merge and the repository classes |
| middleware.dfy | `Middleware` | `generateToken`, `verifyToken(roles)`, role tables |
| category_controller.dfy, task_controller.dfy, user_controller.dfy, auth_controller.dfy | `CategoryController`, `TaskController`, `UserController`, `AuthController` | the handlers |
| routes.dfy | `Routes` | handlers composed with the middleware as the route files wire them |

Stand-ins and parameters:

- Ids from `uuidv4()` are `FreshKey`: a string longer than every id stored, so it differs from all of them. Only that freshness is relied on; ids freed by a delete can come back (see "Left out").
- `new Date()` is a `now: int` parameter.
- `bcrypt.hashSync(p, 10)` is `"$2a$10$" + p`. It is injective, never the identity, and always in the hash format. `compareSync(p, h)` is `h == Hash(p)`.
- `jwt.sign({ id })` is `"jwt." + Escape(id)`, a non-empty text without spaces. An escape-reversing `Verify` inverts it.
  - The middleware takes the verifier as a parameter `verify`, standing for `jwt.verify` with the configured secret at the current time.
  - Lemmas that need sign and verify to agree take that agreement as a precondition, or instantiate `verify` with `Verify`.
- The case-insensitive `RegExp` test of the user listing is a function `emailMatches` given to the user repository at construction. So is `patternError`: the message of the `SyntaxError` that `new RegExp(q, 'i')` throws for a malformed pattern `q`, or None when `q` compiles.
- A request body field may be absent. Optional fields are `Option`, and an update patch is a record of `Option` fields in which a present field wins. This includes `id`, so an update can duplicate an id (`Categories.UpdateCanDuplicateIds`). It also includes a task's `status` and `creationDate`, which `createTask` sets but a later update body can replace.

Behaviour reproduced as the code has it:

- Titles are stored as given, not trimmed.
- `createCategory` stores `req.body.title` unchecked, so a category can have no title. Once it does, a search of any listing that includes it throws a `TypeError` in `category.title.toLowerCase()`, and the handler answers 500 (`CategoryController.UntitledCategoryBreaksSearch`).
- A search query that is not a valid regular expression makes `getAllUsers` throw, and the handler answers 500 (`UserController.ListOutcome`).
- A task's `createdBy` comes from the request body.
- The task routes run no middleware, so the task handlers always see no caller. A task created with a `createdBy` can then be neither read, changed nor deleted. One created without it is open to every request (`TaskController.AnonymousCallers`).
- `getAllTasks` in the handler passes six arguments to a four-parameter repository method. JavaScript binds them by position:
  - the query's `searchQuery` becomes the assignee filter;
  - the query's `assignedTo` becomes the category filter;
  - the query's `category` and the caller's id are dropped.
- Login searches only `getAllUsers().rows`, the first page of ten users. A user registered after the tenth cannot log in (`AuthController.EleventhUserCannotLogIn`).
- `updateUser` stores a patched password unhashed. After that the user cannot log in (`AuthController.PasswordUpdateLocksOut`).
- `getTaskById` refuses with the update handler's message ("not authorized to update this task").
- Update and delete of categories and tasks check existence (404) before ownership (403). Update and delete of users check identity (403) before existence (404).

Further facts of the code that the model keeps:

- Users are identified by `email`; there is no username.
- Task routes are not authenticated.
- The task listing has no owner filter, no search over titles, no resolution of assignees and categories, and no pagination summary.
- Registration does not default the role to `USER`: a user registered without a role has none, and the middleware refuses them.
- A stored password is not always a hash: an update can store plain text.

## Model

| member | source | states |
|---|---|---|
| Common.Filter | src/services/categoryService.ts:50 | the result keeps exactly the elements that satisfy the predicate, and no others |
| Common.FilterConcat | src/services/categoryService.ts:50 | filtering distributes over concatenation |
| Common.JsSlice | src/services/categoryService.ts:72 | `slice` returns at most the input's length, and only elements of the input |
| Common.JsSliceNonNegative | src/services/categoryService.ts:70-72 | for non-negative bounds, `slice` is the subsequence between the bounds clamped to the length |
| Common.FirstIndex | src/services/categoryService.ts:29 | `findIndex` returns the first position holding the id, or None exactly when no record holds it |
| Common.LookupFirst | src/services/categoryService.ts:25 | `find` returns the record at the first matching position |
| Common.LookupMeaning | src/services/categoryService.ts:25 | `find` returns None exactly when the id is absent, and otherwise a stored record with that id |
| Common.UpdateFirstSpec | src/services/categoryService.ts:28-35 | update replaces only the first match with the merge, keeps the length and every other position, and returns the stored record |
| Common.UpdateFirstAbsent | src/services/categoryService.ts:34 | update of an absent id returns None and leaves the store as it was |
| Common.RemoveAt | src/services/categoryService.ts:40 | `splice(i, 1)` shortens the store by one and shifts the later records down by one place |
| Common.DeleteFirstSpec | src/services/categoryService.ts:37-44 | delete reports true iff the id is present; then exactly the first match is removed, in order; otherwise nothing changes |
| Common.DeleteKeepsUnique | src/services/categoryService.ts:37-44 | deleting keeps ids unique |
| Common.AppendFreshKeepsUnique | src/services/categoryService.ts:14-21 | appending a record with an unused id keeps ids unique |
| Common.LookupUnique | src/services/userService.ts:34-36 | with unique ids, looking up a stored record's id finds that record |
| Common.DeleteUniqueGone | src/services/userService.ts:47-54 | with unique ids, after deleting a record its id is no longer stored |
| Common.FreshKey | src/services/categoryService.ts:17 | the new id differs from every stored id |
| Text.ToLower | src/services/categoryService.ts:54 | lower-casing keeps the length and maps each character to its ASCII lower case |
| Text.ToLowerIdempotent | src/services/categoryService.ts:54-55 | lower-casing twice is lower-casing once |
| Text.Includes | src/services/categoryService.ts:55 | `includes` holds iff the needle occurs at some position of the text |
| Text.Split | src/middleware/auth.ts:21 | `split(' ')` yields at least one part, and no part contains a space |
| Text.JoinSplit | src/middleware/auth.ts:21 | joining the parts with the separator gives back the text |
| Text.SplitWithoutSeparator | src/middleware/auth.ts:21 | a text without the separator splits into itself alone |
| Text.SplitAtFirstSeparator | src/middleware/auth.ts:21 | a text splits at its first separator into the word before it and the split of the rest |
| Pagination.CeilDiv | src/services/categoryService.ts:59 | `Math.ceil(n / d)` is the least page count whose pages of `d` rows hold `n` rows |
| Pagination.Paginate | src/services/categoryService.ts:58-74 | the summary counts every filtered row, reports the requested page, has a previous page iff the page is past the first, and every row shown is a filtered row |
| Pagination.SummaryMeaning | src/services/categoryService.ts:58-68 | `totalRows` is the filtered count and `totalPages` its ceiling over `limit`; `hasNextPage` holds iff rows remain after the page; `hasPrevPage` holds iff the page is past the first |
| Pagination.PageWindow | src/services/categoryService.ts:70-74 | for page and limit of at least 1, the rows are `filtered[(page-1)*limit .. min(page*limit, totalRows)]`: at most `limit`, in store order, and empty past the end |
| Pagination.RowOnItsPage | src/services/userService.ts:76-78 | every filtered row appears on the page its index says, at the offset its index says |
| Pagination.TwentyFiveRows | src/services/userService.ts:64-80 | 25 rows in pages of 10: ten rows and a next page on page 1, the last five on page 3, none on page 4, three pages in all |
| Crypto.Hash | src/services/userService.ts:17 | the stored hash is never the plain password |
| Crypto.CompareHash | src/controllers/authController.ts:51 | comparing against a hash succeeds exactly for the password that was hashed |
| Crypto.CompareNeedsPrefix | src/controllers/authController.ts:51 | a value not in the hash format matches no password |
| Crypto.UnescapeEscape | src/middleware/auth.ts:17 | unescaping undoes the escaping of the token payload |
| Crypto.Sign | src/middleware/auth.ts:17 | a token is non-empty and has no space, so it survives the bearer header |
| Crypto.VerifySign | src/middleware/auth.ts:17 | verifying a signed token recovers its payload |
| Http.Caught | src/controllers/categoryController.ts:103-105 | the `catch` answer is 500 with no data, carrying the error's message, or `'Something went wrong'` when that message is empty |
| Categories.MergeLaws | src/services/categoryService.ts:31 | an empty patch changes nothing, re-applying a patch changes nothing more, and a later patch wins field by field |
| Categories.NewCategory | src/services/categoryService.ts:14-19 | the new category has a fresh id, the title and owner given, and the creation time |
| Categories.CreateDeleteKeepUniqueIds | src/services/categoryService.ts:14-21 | create and delete keep ids unique |
| Categories.UpdateCanDuplicateIds | src/services/categoryService.ts:31 | an update whose body carries another category's id breaks id uniqueness |
| Categories.FilteredExactly | src/services/categoryService.ts:47-56 | a category is listed iff it is stored, belongs to the owner when one is given, and its lower-cased title contains the lower-cased query when one is given |
| Categories.SearchIgnoresCase | src/services/categoryService.ts:53-55 | a query and its lower-cased form list the same categories |
| Categories.OwnedHasUntitled | src/services/categoryService.ts:49-55 | an untitled category reaches the search after the owner filter exactly when one of the owner's stored categories (any stored one, without an owner) has no title |
| Categories.NewCategoryListedLast | src/services/categoryService.ts:14-56 | a newly created category comes after every older one in the filtered listing, and the older ones keep their order |
| Categories.ListCategories | src/services/categoryService.ts:47-74 | the summary counts every category the owner and title filters keep, and every row shown is one they keep |
| Categories.SearchCategories | src/services/categoryService.ts:46-75 | throws exactly when a non-empty search meets an untitled category of the owner, with the `TypeError` message; otherwise returns the filtered pagination |
| Categories.CategoryService.CreateCategory | src/services/categoryService.ts:14-22 | appends exactly one category with a fresh id at the end and returns it |
| Categories.CategoryService.GetCategoryById | src/services/categoryService.ts:24-26 | returns the first category with the id, or None exactly when none has it |
| Categories.CategoryService.UpdateCategory | src/services/categoryService.ts:28-35 | the new store and result are those of first-match update with the shallow merge |
| Categories.CategoryService.DeleteCategory | src/services/categoryService.ts:37-44 | the new store and result are those of first-match delete |
| Categories.CategoryService.GetAllCategories | src/services/categoryService.ts:46-75 | throws the `TypeError` exactly when a non-empty search meets an untitled category of the owner; otherwise returns the pagination of the filtered categories, every row stored, owned by the owner and with a title that contains the query; the store is unchanged |
| Tasks.MergeLaws | src/services/taskService.ts:25 | an empty body changes nothing, re-applying a body changes nothing more, and a body's `creationDate` replaces the stored one while an absent one keeps it |
| Tasks.NewTask | src/services/taskService.ts:7-13 | the new task has a fresh id, status Pending whatever the body says, the creation time, and the body's other fields as given |
| Tasks.CreateDeleteKeepUniqueIds | src/services/taskService.ts:7-15 | create and delete keep ids unique |
| Tasks.FilteredTasksExactly | src/services/taskService.ts:41-49 | a task is kept iff it is stored and has exactly the given assignee and exactly the given category, each when given |
| Tasks.ListTasksWindow | src/services/taskService.ts:51-54 | for page and limit of at least 1, the listing is the window of the kept tasks starting at `(page-1)*limit`: at most `limit` tasks, in order |
| Tasks.ListTasks | src/services/taskService.ts:40-55 | the listing holds no more tasks than the filter keeps, and every task listed is one the filter keeps |
| Tasks.TaskService.CreateTask | src/services/taskService.ts:7-16 | appends exactly one task with a fresh id and status Pending and returns it |
| Tasks.TaskService.GetTaskById | src/services/taskService.ts:18-20 | returns the first task with the id, or None exactly when none has it |
| Tasks.TaskService.UpdateTask | src/services/taskService.ts:22-29 | the new store and result are those of first-match update with the shallow merge, in which every field the body carries, `creationDate` included, replaces the stored one |
| Tasks.TaskService.DeleteTask | src/services/taskService.ts:31-38 | the new store and result are those of first-match delete |
| Tasks.TaskService.GetAllTasks | src/services/taskService.ts:40-55 | returns the listing without changing the store; every row is stored and has exactly the requested assignee and category |
| Users.MergeLaws | src/services/userService.ts:41 | an empty patch changes nothing, re-applying a patch changes nothing more, and a patched password is stored verbatim |
| Users.NewUser | src/services/userService.ts:15-24 | the new user has a fresh id, the input's e-mail, role and creator, the creation time, and a stored password that is the hash of the input's and not the input's |
| Users.CreateDeleteKeepUniqueIds | src/services/userService.ts:15-28 | create and delete keep ids unique |
| Users.EmailTaken | src/services/userService.ts:30-32 | holds iff some stored user has exactly this e-mail |
| Users.BlankQueryListsAll | src/services/userService.ts:59-64 | a query that trims to nothing applies no filter: every stored user is counted |
| Users.DefaultRows | src/controllers/authController.ts:43 | the rows of the call with no arguments (page 1, limit 10, no query) are the first `min(10, N)` stored users |
| Users.DefaultListingIsFirstTen | src/services/userService.ts:56-78 | with the defaults the rows are the first `min(10, N)` stored users |
| Users.ListUsers | src/services/userService.ts:57-80 | the summary counts every user the pattern keeps, and every row shown is one it keeps |
| Users.SearchUsers | src/services/userService.ts:56-81 | throws exactly when a non-blank query does not compile, with the engine's message; otherwise returns the filtered pagination |
| Users.UserService.CreateUser | src/services/userService.ts:15-28 | appends exactly one user with a fresh id and the hashed password and returns it |
| Users.UserService.IsEmailExists | src/services/userService.ts:30-32 | holds iff some stored user has exactly this e-mail |
| Users.UserService.GetUserById | src/services/userService.ts:34-36 | returns the first user with the id, or None exactly when none has it |
| Users.UserService.UpdateUser | src/services/userService.ts:38-45 | the new store and result are those of first-match update with the shallow merge, with no re-hashing |
| Users.UserService.DeleteUser | src/services/userService.ts:47-54 | the new store and result are those of first-match delete |
| Users.UserService.GetAllUsers | src/services/userService.ts:56-81 | throws the `SyntaxError` exactly when a non-blank query does not compile; otherwise returns the pagination of the kept users, every row stored and, unless the query is blank, accepted by the pattern; the store is unchanged |
| Middleware.GenerateToken | src/middleware/auth.ts:16-18 | the token's payload is exactly the user's id |
| Middleware.BearerToken | src/middleware/auth.ts:21-22 | no token for an absent header or a header without a space; a token found is non-empty and has no space |
| Middleware.BearerHeader | src/middleware/auth.ts:21 | `Bearer <token>` yields the token |
| Middleware.DoubleSpaceIsMissing | src/middleware/auth.ts:21-25 | a double space after the scheme leaves the token missing |
| Middleware.BearerTokenIsSecondWord | src/middleware/auth.ts:21 | a token found is the second space-separated word of the header |
| Middleware.CheckRequest | src/middleware/auth.ts:20-40 | a rejection is 401 or 403, and 403 means access denied; admission means a token was present, it verified to the admitted user's id, that user is the first stored with the id, and their role is among the route's roles |
| Middleware.CheckOrder | src/middleware/auth.ts:21-36 | each rejection happens exactly when every earlier check passed and its own failed: missing token, then invalid token, then unknown user, then role |
| Middleware.FreshTokenResolves | src/middleware/auth.ts:16-37 | a fresh token of a stored user resolves to that user, and is admitted iff the user's role is allowed |
| Middleware.SignedTokenAdmits | src/routes/categoryRoutes.ts:9-13 | a stored user with a role and a signed token passes every category route's gate |
| Middleware.DeletedUserUnauthorized | src/middleware/auth.ts:30-33 | a token of a deleted user is rejected 401 as unknown |
| Middleware.RoleTables | src/routes/userRoutes.ts:10-13 | only administrators pass the user listing's gate, and no user without a role passes any gate |
| Middleware.VerifyToken | src/middleware/auth.ts:20-40 | a rejection sends its status and leaves the caller unset with `next` not called; an admission sets the caller to the resolved user and calls `next` once |
| CategoryController.CreateOutcome | src/controllers/categoryController.ts:5-14 | 201; exactly one category is appended, with the title given (absent when the body has none), owned by the caller or by `'unknown'`, with a fresh id, and returned |
| CategoryController.UpdateOutcome | src/controllers/categoryController.ts:16-39 | 404 iff the id is absent, whoever asks; otherwise 403 iff the caller does not own the first match; on 200 only that match is replaced by the merge and returned; otherwise the store is unchanged |
| CategoryController.DeleteOutcome | src/controllers/categoryController.ts:41-69 | the answer is 200, 403 or 404, never the 500 of a failed repository delete; 404 iff the id is absent; otherwise 403 iff the caller does not own the first match; on 200 exactly that match is removed; otherwise the store is unchanged |
| CategoryController.GetByIdOutcome | src/controllers/categoryController.ts:71-92 | 404 iff the id is absent; otherwise 403 iff the caller does not own the first match; on 200 the data is that category |
| CategoryController.GatesAgree | src/controllers/categoryController.ts:16-92 | update, delete and getById answer 404, 403 and 200 under the same conditions |
| CategoryController.ListOutcome | src/controllers/categoryController.ts:95-106 | 500 with the `TypeError`'s message exactly when the search meets an untitled category the owner filter keeps, else 200 with the repository listing at page and limit 1 and 10 when absent, scoped to the caller; on 200 it counts all matching categories, reports the requested page, and every row is stored and, for a caller, the caller's own |
| CategoryController.UntitledCategoryBreaksSearch | src/controllers/categoryController.ts:8-9 | after a category is created without a title, every search of its creator's listing answers 500 |
| CategoryController.ListShowsOwnOnly | src/controllers/categoryController.ts:98-100 | with no query parameters, a caller gets their own first ten categories and nobody else's |
| CategoryController.CreateCategory | src/controllers/categoryController.ts:5-14 | answer and new store are the create outcome |
| CategoryController.UpdateCategory | src/controllers/categoryController.ts:16-39 | answer and new store are the update outcome |
| CategoryController.DeleteCategory | src/controllers/categoryController.ts:41-69 | answer and new store are the delete outcome |
| CategoryController.GetCategoryById | src/controllers/categoryController.ts:71-92 | the answer is the getById outcome and the store is unchanged |
| CategoryController.GetAllCategories | src/controllers/categoryController.ts:95-106 | the answer is the listing outcome and the store is unchanged |
| TaskController.CreateOutcome | src/controllers/taskController.ts:5-13 | 201; exactly one task is appended and returned: the body's fields as given (its `createdBy` included, not the caller's), a fresh id, status Pending and the creation time |
| TaskController.UpdateOutcome | src/controllers/taskController.ts:15-38 | 404 iff the id is absent; otherwise 403 iff the first match's optional `createdBy` differs from the optional caller; on 200 only that match is replaced by the merge, which takes every field the body carries, `creationDate` included; otherwise the store is unchanged |
| TaskController.DeleteOutcome | src/controllers/taskController.ts:40-68 | the answer is 200, 403 or 404, never the 500 of a failed repository delete; 404 iff the id is absent; otherwise 403 iff the caller is not the first match's creator; on 200 exactly that match is removed; otherwise the store is unchanged |
| TaskController.GetByIdOutcome | src/controllers/taskController.ts:71-89 | 404 iff the id is absent; otherwise 403 iff the caller is not the first match's creator; on 200 the data is that task |
| TaskController.AnonymousCallers | src/routes/taskRoutes.ts:6-10 | with no caller, a task created with a `createdBy` gets 403 from update, delete and getById, and one created without it gets 200 |
| TaskController.ListOutcome | src/controllers/taskController.ts:91-104 | 200 with the repository listing at page and limit 1 and 10 when absent, with the query's `searchQuery` as assignee filter and its `assignedTo` as category filter; every listed task is stored and matches those filters when given |
| TaskController.ListIgnoresCategoryAndCaller | src/controllers/taskController.ts:94-98 | the listing does not depend on the query's `category` or on the caller, and with no parameters it is the first ten tasks |
| TaskController.CreateTask | src/controllers/taskController.ts:5-13 | answer and new store are the create outcome |
| TaskController.UpdateTask | src/controllers/taskController.ts:15-38 | answer and new store are the update outcome |
| TaskController.DeleteTask | src/controllers/taskController.ts:40-68 | answer and new store are the delete outcome |
| TaskController.GetTaskById | src/controllers/taskController.ts:71-89 | the answer is the getById outcome and the store is unchanged |
| TaskController.GetAllTasks | src/controllers/taskController.ts:91-104 | the answer is the listing outcome and the store is unchanged |
| UserController.UpdateOutcome | src/controllers/userController.ts:15-35 | 403 iff the caller is not the target, even for an absent id; otherwise 404 iff the id is absent; on 200 only the first match is replaced by the merge and returned; otherwise the store is unchanged |
| UserController.DeleteOutcome | src/controllers/userController.ts:37-56 | 403 iff the caller is not the target; otherwise 404 iff the id is absent; on 200 exactly the first match is removed; otherwise the store is unchanged |
| UserController.SelfOnly | src/controllers/userController.ts:21-52 | another caller always gets 403; a caller acting on their own stored record always gets 200 |
| UserController.GetByIdOutcome | src/controllers/userController.ts:59-73 | no ownership check: 404 iff the id is absent, else 200 with the first user with the id |
| UserController.ListOutcome | src/controllers/userController.ts:75-85 | 500 with the pattern's error message exactly when a non-blank query does not compile, else 200 with the pagination, at page 1 and limit 10 when absent, of the users the query keeps; every row is stored; with no `searchQuery` every user is counted |
| UserController.ListDefaults | src/controllers/userController.ts:78-80 | with no query parameters the listing is the first ten stored users, counts every user, and is page 1 with no previous page |
| UserController.UpdateUser | src/controllers/userController.ts:15-35 | answer and new store are the update outcome |
| UserController.DeleteUser | src/controllers/userController.ts:37-56 | answer and new store are the delete outcome |
| UserController.GetUserById | src/controllers/userController.ts:59-73 | the answer is the getById outcome and the store is unchanged |
| UserController.GetAllUsers | src/controllers/userController.ts:75-85 | the answer is the listing outcome and the store is unchanged |
| AuthController.AuthDataOf | src/controllers/authController.ts:27-32 | the answer carries the user's id, e-mail and creation time, a token for the id, and no password |
| AuthController.RegisterOutcome | src/controllers/authController.ts:7-38 | 400 "Email already exists" iff the e-mail is taken, before the password check; else 400 "Passwords do not match" iff they differ; on either 400 the store is unchanged; on 201 exactly one user is appended, with a fresh id and the hashed password, and answered without the password |
| AuthController.FindInDefaultRows | src/controllers/authController.ts:43-49 | the user `find` picks among the default rows is the first of the first ten stored users with the e-mail, and none of the first ten has it when `find` finds nothing |
| AuthController.LoginOutcome | src/controllers/authController.ts:40-69 | 200 or 401 with the same message for both failures; 401 when none of the first ten users has the e-mail; 200 exactly when the first user with the e-mail among `getAllUsers().rows` has a stored hash that matches the password, and then with that user's data; such a user is the first of the first ten stored users with the e-mail |
| AuthController.CorrectPasswordLogsIn | src/controllers/authController.ts:43-64 | the first of the first ten users with the e-mail, given a password that matches their hash, is answered 200 with their data and a token |
| AuthController.RegisterThenLogin | src/controllers/authController.ts:7-69 | with fewer than ten users, a fresh registration can log in with its password and gets the same data |
| AuthController.EleventhUserCannotLogIn | src/controllers/authController.ts:43 | with ten or more users, a fresh registration cannot log in even with the right password |
| AuthController.PlainPasswordLocksOut | src/controllers/authController.ts:51-55 | a user whose stored password is not in the hash format cannot log in |
| AuthController.PasswordUpdateLocksOut | src/services/userService.ts:38-45 | after `updateUser` sets a plain password for a user (at any position, the first with their id and e-mail), login rejects every password for that user |
| AuthController.CreateUser | src/controllers/authController.ts:7-38 | answer and new store are the register outcome |
| AuthController.LoginUser | src/controllers/authController.ts:40-69 | the answer is the login outcome and the store is unchanged |
| Routes.NoTokenNoChange | src/routes/categoryRoutes.ts:10-11 | a request without a usable bearer token is answered 401 and changes neither categories nor users |
| Routes.OwnerUpdatesCategory | src/routes/categoryRoutes.ts:10 | a signed-in user gets 200 updating their own category, and 403 with nothing changed for another's |
| Routes.UsersCannotListUsers | src/routes/userRoutes.ts:13 | a user with the USER role is refused the user listing with 403 |
| Routes.Guarded | src/middleware/auth.ts:20-38 | a rejected request is answered with the gate's code and message, no data and the store as it was; an admitted one gets the handler's outcome for the resolved user's id |
| Routes.UpdateCategoryRoute | src/routes/categoryRoutes.ts:10 | a rejected request gets 401 or 403 and changes nothing; an admitted one gets `updateCategory` for its user; the categories change only when an admitted user owns the first category with that id |
| Routes.DeleteCategoryRoute | src/routes/categoryRoutes.ts:11 | a rejected request gets 401 or 403 and changes nothing; an admitted one gets `deleteCategory` for its user; the categories change only when an admitted user owns the first category with that id |
| Routes.UpdateUserRoute | src/routes/userRoutes.ts:10 | a rejected request gets 401 or 403 and changes nothing; an admitted one gets `updateUser` for its user; the users change only when an admitted caller is the target |
| Routes.ListUsersRoute | src/routes/userRoutes.ts:13 | a rejected request gets the gate's answer; a 200 means an administrator was admitted; an admitted caller gets `getAllUsers` |

## Left out

- HTTP routing and the Express request and response objects: `app.listen`, `express.json`, and the routers as objects. Handlers answer a status code with `{ status, message, data }`. The route table is modelled by which roles guard which handler.
- The `try`/`catch` answers of 500 are modelled for the two throws the core raises on well-formed input: a search over an untitled category (`CategoryController.ListOutcome`) and a malformed search pattern (`UserController.ListOutcome`). Throws from `bcryptjs` and `jsonwebtoken` are not modelled.
- Request body fields of the wrong JSON type are not modelled: a `null` or numeric title (which would also make the category search throw), a title cleared by an update (an update patch can only set a title), non-string e-mails or ids. A task body's `creationDate` has the same number type as the stored creation time, although JSON carries a date as a string.
- `+page` and `+limit` give `NaN` for non-numeric text. The model takes page and limit as integers.
- CategoryController.ListOutcome, UserController.ListOutcome, Routes.ListUsersRoute, Pagination.Paginate and the category and user listings require a limit of at least 1, which leaves out both a limit of 0 and a negative limit. The page count is modelled as a ceiling over whole numbers, and that has no value for a zero divisor and a different meaning for a negative one. The source still answers both: a limit of 0 gives `Math.ceil(n / 0)`, which is `Infinity` or `NaN`. A negative limit gives a finite count, for example `Math.ceil(5 / -2)` is `-2`, and `slice` then counts its negative bounds from the end of the list. The task listing takes any limit, since it has no page count.
- JavaScript `slice` with negative bounds (page below 1) is modelled in full. The pagination lemmas are stated for page and limit of at least 1.
- The `bcryptjs` salt, cost factor and one-wayness are not modelled, nor are the `jsonwebtoken` secret, expiry and signature.
  - A token that verifies but has no `id` claim is not modelled.
- The case-insensitive `RegExp` test on e-mails, and which patterns fail to compile with which message, are given functions. JavaScript's Unicode `toLowerCase` is not modelled: `Text.ToLower` lower-cases ASCII letters only. `trim` is modelled with ECMAScript's full whitespace and line-terminator set (`Text.IsWhitespace`).
- Common.FreshKey: an id is fresh only against the ids currently stored, so an id freed by a delete can be issued again, which `uuidv4()` practically never does. Under the model a deleted user's still-valid token can therefore resolve to a later user who is given the same id.
- A request body with an absent `password` or `confirmPassword` at registration, or an absent `password` at login, is not modelled. These fields are strings.
- The route-less `createUser` of the user handlers is left out. No route reaches it.
- The Joi task validators: no route uses them.
- Concurrency between requests: the model is sequential.
