/** The user repository (`UserService`): an array of users changed in place by
    `push`, index assignment and `splice`, an e-mail existence check, and a
    listing that optionally filters by a pattern on the e-mail and paginates. */
module Users {
  import opened Common
  import opened Text
  import opened Pagination
  import opened Crypto

  datatype UserRole = ADMIN | USER

  /** A stored user. `email`, `role` and `createdBy` come from the request body
      and may be absent; `password` is whatever `createUser` or a later update
      stored. */
  datatype User = User(
    id: string,
    email: Option<string>,
    password: string,
    role: Option<UserRole>,
    createdAt: int,
    createdBy: Option<string>)

  /** What `createUser` receives: the registration body without
      `confirmPassword`, with the plain-text password. */
  datatype UserInput = UserInput(email: Option<string>, password: string, role: Option<UserRole>,
                                 createdBy: Option<string>)

  /** A request body used as an update: every field may be present, `id` and
      `password` included. */
  datatype UserPatch = UserPatch(
    id: Option<string>, email: Option<string>, password: Option<string>, role: Option<UserRole>,
    createdAt: Option<int>, createdBy: Option<string>)

  const NoChange := UserPatch(None, None, None, None, None, None)

  function Key(u: User): string {
    u.id
  }

  function Email(u: User): Option<string> {
    u.email
  }

  /** `{ ...u, ...p }`: every field present in the patch replaces the stored one;
      a new password is stored as given, not hashed. */
  function Merge(u: User, p: UserPatch): User {
    User(p.id.GetOr(u.id), p.email.OrElse(u.email), p.password.GetOr(u.password),
         p.role.OrElse(u.role), p.createdAt.GetOr(u.createdAt), p.createdBy.OrElse(u.createdBy))
  }

  /** Laws of the shallow merge: an empty patch changes nothing, merging the same
      patch twice is merging it once, and a patched password is kept verbatim. */
  lemma MergeLaws(u: User, p: UserPatch)
    ensures Merge(u, NoChange) == u
    ensures Merge(Merge(u, p), p) == Merge(u, p)
    ensures p.password.Some? ==> Merge(u, p).password == p.password.value
  {
  }

  /** The record `createUser` builds: the input's fields, a fresh id, the
      creation time, and the hash of the password in place of the password. */
  function NewUser(s: seq<User>, user: UserInput, now: int): (u: User)
    ensures forall j :: 0 <= j < |s| ==> s[j].id != u.id
    ensures u.email == user.email && u.role == user.role && u.createdBy == user.createdBy
    ensures u.createdAt == now
    ensures u.password != user.password
    ensures Compare(user.password, u.password)
  {
    User(FreshKey(s, Key), user.email, Hash(user.password), user.role, now, user.createdBy)
  }

  /** Creating keeps ids unique, and deleting does too. */
  lemma CreateDeleteKeepUniqueIds(s: seq<User>, user: UserInput, now: int, id: string)
    requires UniqueKeys(s, Key)
    ensures UniqueKeys(s + [NewUser(s, user, now)], Key)
    ensures UniqueKeys(DeleteFirst(s, Key, id).1, Key)
  {
    AppendFreshKeepsUnique(s, Key, NewUser(s, user, now));
    DeleteKeepsUnique(s, Key, id);
  }

  /** `users.some(user => user.email === email)`. */
  function EmailTaken(s: seq<User>, email: Option<string>): (b: bool)
    ensures b <==> exists j :: 0 <= j < |s| && s[j].email == email
  {
    FirstIndex(s, Email, email).Some?
  }

  /** `new RegExp(searchQuery, 'i').test(user.email)`, with the pattern test
      supplied by the caller. */
  function EmailMatches(test: (string, Option<string>) -> bool, searchQuery: string): User -> bool {
    (u: User) => test(searchQuery, u.email)
  }

  /** The users `getAllUsers` keeps before paginating: all of them when the
      query trims to nothing, else those whose e-mail the pattern accepts. */
  function FilterUsers(s: seq<User>, searchQuery: string, test: (string, Option<string>) -> bool): seq<User> {
    if TrimsToEmpty(searchQuery) then s else Filter(s, EmailMatches(test, searchQuery))
  }

  /** `getAllUsers(page, limit, searchQuery)`. */
  function ListUsers(s: seq<User>, page: int, limit: int, searchQuery: string,
                     test: (string, Option<string>) -> bool): (p: Page<User>)
    requires limit >= 1
    ensures p.pagination.totalRows == |FilterUsers(s, searchQuery, test)|
    ensures forall k :: 0 <= k < |p.rows| ==> p.rows[k] in FilterUsers(s, searchQuery, test)
  {
    Paginate(FilterUsers(s, searchQuery, test), page, limit)
  }

  /** `getAllUsers` as it ends. `patternError(q)` is the message of the
      `SyntaxError` that `new RegExp(q, 'i')` throws, None when `q` is a valid
      pattern; the constructor runs only for a query that does not trim to
      nothing. */
  function SearchUsers(s: seq<User>, page: int, limit: int, searchQuery: string,
                       test: (string, Option<string>) -> bool, patternError: string -> Option<string>)
    : (r: Completion<Page<User>>)
    requires limit >= 1
    ensures r.Threw? <==> !TrimsToEmpty(searchQuery) && patternError(searchQuery).Some?
    ensures r.Threw? ==> r.message == patternError(searchQuery).value
    ensures r.Returned? ==> r.value == ListUsers(s, page, limit, searchQuery, test)
  {
    if !TrimsToEmpty(searchQuery) && patternError(searchQuery).Some? then Threw(patternError(searchQuery).value)
    else Returned(ListUsers(s, page, limit, searchQuery, test))
  }

  /** A blank query applies no filter, whatever the pattern engine: the
      listing counts every stored user. */
  lemma BlankQueryListsAll(s: seq<User>, page: int, limit: int, searchQuery: string,
                           test: (string, Option<string>) -> bool)
    requires limit >= 1 && TrimsToEmpty(searchQuery)
    ensures ListUsers(s, page, limit, searchQuery, test) == Paginate(s, page, limit)
    ensures ListUsers(s, page, limit, searchQuery, test).pagination.totalRows == |s|
  {
  }

  /** With the defaults (page 1, limit 10, empty query) the rows are the first
      `min(10, N)` stored users. */
  lemma DefaultListingIsFirstTen(s: seq<User>, test: (string, Option<string>) -> bool)
    ensures ListUsers(s, 1, 10, "", test).rows == s[..if |s| < 10 then |s| else 10]
  {
    PageWindow(s, 1, 10);
  }

  /** `getAllUsers().rows`: the rows of the listing with every default (page 1,
      limit 10, empty query), which are the first ten users. */
  function DefaultRows(s: seq<User>, test: (string, Option<string>) -> bool): (rows: seq<User>)
    ensures rows == s[..if |s| < 10 then |s| else 10]
  {
    DefaultListingIsFirstTen(s, test);
    ListUsers(s, 1, 10, "", test).rows
  }

  /** The in-memory user repository, built over a pattern engine that decides
      whether a search query accepts an e-mail and which queries it refuses to
      compile. */
  class UserService {
    const emailMatches: (string, Option<string>) -> bool
    const patternError: string -> Option<string>
    var users: seq<User>

    constructor (emailMatches: (string, Option<string>) -> bool, patternError: string -> Option<string>)
      ensures this.emailMatches == emailMatches && this.patternError == patternError && users == []
    {
      this.emailMatches := emailMatches;
      this.patternError := patternError;
      users := [];
    }

    /** `createUser`: pushes one new user with a fresh id and the hashed
        password, and returns it. */
    method CreateUser(user: UserInput, now: int) returns (u: User)
      modifies this
      ensures users == old(users) + [u]
      ensures u == NewUser(old(users), user, now)
      ensures forall j :: 0 <= j < |old(users)| ==> old(users)[j].id != u.id
    {
      var hashedPassword := Hash(user.password);
      u := User(FreshKey(users, Key), user.email, hashedPassword, user.role, now, user.createdBy);
      users := users + [u];
    }

    /** `isEmailExists`: some stored user has exactly this e-mail. */
    function IsEmailExists(email: Option<string>): (b: bool)
      reads this
      ensures b <==> exists j :: 0 <= j < |users| && users[j].email == email
    {
      EmailTaken(users, email)
    }

    /** `getUserById`: the first user with this id, or None when there is none. */
    function GetUserById(id: string): (r: Option<User>)
      reads this
      ensures r.None? <==> forall j :: 0 <= j < |users| ==> users[j].id != id
      ensures r.Some? ==> exists i :: 0 <= i < |users| && users[i] == r.value && r.value.id == id
                              && forall j :: 0 <= j < i ==> users[j].id != id
    {
      var r := Lookup(users, Key, id);
      if r.Some? then
        var i := FirstIndex(users, Key, id).value;
        assert users[i] == r.value;
        r
      else r
    }

    /** `updateUser`: merges the patch into the first user with this id (a
        patched password is stored as given) and returns the merged record;
        None, with nothing changed, when the id is absent. */
    method UpdateUser(id: string, updatedUser: UserPatch) returns (r: Option<User>)
      modifies this
      ensures (r, users) == UpdateFirst(old(users), Key, Merge, id, updatedUser)
    {
      var index := FirstIndex(users, Key, id);
      if index.Some? {
        var i := index.value;
        users := users[i := Merge(users[i], updatedUser)];
        return Some(users[i]);
      }
      return None;
    }

    /** `deleteUser`: splices out the first user with this id and reports
        whether there was one. */
    method DeleteUser(id: string) returns (ok: bool)
      modifies this
      ensures (ok, users) == DeleteFirst(old(users), Key, id)
    {
      var index := FirstIndex(users, Key, id);
      if index.Some? {
        var i := index.value;
        users := users[..i] + users[i + 1..];
        return true;
      }
      return false;
    }

    /** `getAllUsers`: throws the pattern's `SyntaxError` exactly when a
        non-blank query does not compile; otherwise every listed user is stored
        and, unless the query is blank, accepted by the pattern, and the summary
        counts all kept users; the store is not changed. */
    method GetAllUsers(page: int, limit: int, searchQuery: string) returns (result: Completion<Page<User>>)
      requires limit >= 1
      ensures result == SearchUsers(users, page, limit, searchQuery, emailMatches, patternError)
      ensures result.Threw? <==> !TrimsToEmpty(searchQuery) && patternError(searchQuery).Some?
      ensures result.Returned? ==>
                && result.value.pagination.totalRows == |FilterUsers(users, searchQuery, emailMatches)|
                && forall k :: 0 <= k < |result.value.rows| ==>
                     && result.value.rows[k] in users
                     && (!TrimsToEmpty(searchQuery) ==> emailMatches(searchQuery, result.value.rows[k].email))
    {
      var filteredUsers := users;
      if !TrimsToEmpty(searchQuery) {
        var compileError := patternError(searchQuery);
        if compileError.Some? {
          return Threw(compileError.value);
        }
        filteredUsers := Filter(filteredUsers, EmailMatches(emailMatches, searchQuery));
      }
      var totalRows := |filteredUsers|;
      var totalPages := CeilDiv(totalRows, limit);
      var currentPage := page;
      var paginationSummary := PaginationSummary(totalRows, totalPages, currentPage,
                                                 currentPage < totalPages, currentPage > 1);
      var startIndex := (page - 1) * limit;
      var endIndex := page * limit;
      var paginatedUsers := JsSlice(filteredUsers, startIndex, endIndex);
      result := Returned(Page(paginatedUsers, paginationSummary));
    }
  }
}
