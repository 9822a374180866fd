/** The route table: which handlers run behind `verifyToken(roles)` and with
    which roles. A rejected request never reaches its handler; an admitted one
    reaches it with the resolved user's id as caller. The task routes run no
    middleware, so their handlers always see no caller. */
module Routes {
  import opened Common
  import opened Http
  import opened Crypto
  import opened Users
  import opened Middleware
  import opened Pagination
  import opened Categories
  import CategoryController
  import UserController

  /** A handler behind `verifyToken`: the gate's rejection with `data: {}` and
      the store as it was, or the handler's outcome for the admitted caller. */
  function Guarded<T, S>(g: Gate, store: S, handler: Option<string> -> (Response<T>, S)): (r: (Response<T>, S))
    ensures g.Reject? ==> && r.0.code == g.code && r.0.message == g.message
                          && !r.0.status && r.0.data.None? && r.1 == store
    ensures g.Admit? ==> r == handler(Some(g.user.id))
  {
    match g
    case Reject(code, message) => (Fail(code, message), store)
    case Admit(u) => handler(Some(u.id))
  }

  /** `PUT /category/:id`: `verifyToken([ADMIN, USER])`, then `updateCategory`. */
  function UpdateCategoryRoute(users: seq<User>, categories: seq<Category>, verify: string -> Option<Claims>,
                               authorization: Option<string>, id: string, patch: CategoryPatch)
    : (r: (Response<Category>, seq<Category>))
    ensures var g := CheckRequest(users, CategoryRoles, verify, authorization);
            g.Reject? ==> (r.0.code == 401 || r.0.code == 403) && r.1 == categories
    ensures var g := CheckRequest(users, CategoryRoles, verify, authorization);
            g.Admit? ==> r == CategoryController.UpdateOutcome(categories, Some(g.user.id), id, patch)
    ensures var g := CheckRequest(users, CategoryRoles, verify, authorization);
            var f := FirstIndex(categories, Categories.Key, id);
            r.1 != categories ==> g.Admit? && f.Some? && categories[f.value].createdBy == g.user.id
  {
    Guarded(CheckRequest(users, CategoryRoles, verify, authorization), categories,
            (caller: Option<string>) => CategoryController.UpdateOutcome(categories, caller, id, patch))
  }

  /** `DELETE /category/:id`: `verifyToken([ADMIN, USER])`, then `deleteCategory`. */
  function DeleteCategoryRoute(users: seq<User>, categories: seq<Category>, verify: string -> Option<Claims>,
                               authorization: Option<string>, id: string)
    : (r: (Response<Category>, seq<Category>))
    ensures var g := CheckRequest(users, CategoryRoles, verify, authorization);
            g.Reject? ==> (r.0.code == 401 || r.0.code == 403) && r.1 == categories
    ensures var g := CheckRequest(users, CategoryRoles, verify, authorization);
            g.Admit? ==> r == CategoryController.DeleteOutcome(categories, Some(g.user.id), id)
    ensures var g := CheckRequest(users, CategoryRoles, verify, authorization);
            var f := FirstIndex(categories, Categories.Key, id);
            r.1 != categories ==> g.Admit? && f.Some? && categories[f.value].createdBy == g.user.id
  {
    Guarded(CheckRequest(users, CategoryRoles, verify, authorization), categories,
            (caller: Option<string>) => CategoryController.DeleteOutcome(categories, caller, id))
  }

  /** `PUT /user/:id`: `verifyToken([ADMIN, USER])`, then `updateUser`. */
  function UpdateUserRoute(users: seq<User>, verify: string -> Option<Claims>, authorization: Option<string>,
                           id: string, patch: UserPatch)
    : (r: (Response<User>, seq<User>))
    ensures var g := CheckRequest(users, UserItemRoles, verify, authorization);
            g.Reject? ==> (r.0.code == 401 || r.0.code == 403) && r.1 == users
    ensures var g := CheckRequest(users, UserItemRoles, verify, authorization);
            g.Admit? ==> r == UserController.UpdateOutcome(users, Some(g.user.id), id, patch)
    ensures var g := CheckRequest(users, UserItemRoles, verify, authorization);
            r.1 != users ==> g.Admit? && g.user.id == id
  {
    Guarded(CheckRequest(users, UserItemRoles, verify, authorization), users,
            (caller: Option<string>) => UserController.UpdateOutcome(users, caller, id, patch))
  }

  /** `GET /user`: `verifyToken([ADMIN])`, then `getAllUsers`. */
  function ListUsersRoute(users: seq<User>, test: (string, Option<string>) -> bool,
                          patternError: string -> Option<string>, verify: string -> Option<Claims>, authorization: Option<string>,
                          page: Option<int>, limit: Option<int>, searchQuery: Option<string>)
    : (r: Response<Page<User>>)
    requires limit.GetOr(10) >= 1
    ensures var g := CheckRequest(users, UserListRoles, verify, authorization);
            g.Reject? ==> r == Fail(g.code, g.message)
    ensures var g := CheckRequest(users, UserListRoles, verify, authorization);
            r.code == 200 ==> g.Admit? && g.user.role == Some(ADMIN)
    ensures var g := CheckRequest(users, UserListRoles, verify, authorization);
            g.Admit? ==> r == UserController.ListOutcome(users, test, patternError, page, limit, searchQuery)
  {
    Guarded(CheckRequest(users, UserListRoles, verify, authorization), (),
            (caller: Option<string>) => (UserController.ListOutcome(users, test, patternError, page, limit, searchQuery), ())).0
  }

  /** A request without a usable bearer token changes no category and no user,
      and is answered 401. */
  lemma {:induction false} NoTokenNoChange(users: seq<User>, categories: seq<Category>,
                                           verify: string -> Option<Claims>, authorization: Option<string>,
                                           id: string, cpatch: CategoryPatch, upatch: UserPatch)
    requires BearerToken(authorization).None?
    ensures UpdateCategoryRoute(users, categories, verify, authorization, id, cpatch)
            == (Fail(401, MissingToken), categories)
    ensures DeleteCategoryRoute(users, categories, verify, authorization, id) == (Fail(401, MissingToken), categories)
    ensures UpdateUserRoute(users, verify, authorization, id, upatch) == (Fail(401, MissingToken), users)
  {
    CheckOrder(users, CategoryRoles, verify, authorization);
    CheckOrder(users, UserItemRoles, verify, authorization);
  }

  /** Signed in with a token from `generateToken`, a stored user with a role
      may update a category exactly when they created it; another user's
      category gives 403 and nothing changes. */
  lemma {:induction false} OwnerUpdatesCategory(users: seq<User>, categories: seq<Category>, u: User,
                                                id: string, patch: CategoryPatch)
    requires UniqueKeys(users, Users.Key) && u in users && u.role.Some?
    requires exists j :: 0 <= j < |categories| && categories[j].id == id
    ensures var c := Lookup(categories, Categories.Key, id).value;
            var r := UpdateCategoryRoute(users, categories, Verify, Some("Bearer " + GenerateToken(u)), id, patch);
            && (c.createdBy == u.id ==> r.0.code == 200)
            && (c.createdBy != u.id ==> r.0.code == 403 && r.1 == categories)
  {
    SignedTokenAdmits(users, u);
    var i := FirstIndex(categories, Categories.Key, id).value;
    LookupFirst(categories, Categories.Key, id, i);
  }

  /** Only administrators list users: a stored user with the USER role is
      refused with 403 even with a valid token. */
  lemma {:induction false} UsersCannotListUsers(users: seq<User>, test: (string, Option<string>) -> bool,
                                                patternError: string -> Option<string>, u: User, page: Option<int>, limit: Option<int>,
                                                searchQuery: Option<string>)
    requires UniqueKeys(users, Users.Key) && u in users && u.role == Some(USER)
    requires limit.GetOr(10) >= 1
    ensures ListUsersRoute(users, test, patternError, Verify, Some("Bearer " + GenerateToken(u)), page, limit, searchQuery)
            == Fail(403, AccessDenied)
  {
    VerifySign(Claims(u.id));
    FreshTokenResolves(users, UserListRoles, Verify, u);
  }
}
