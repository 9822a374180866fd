/** The user handlers: update and delete are allowed on oneself only, and
    that check comes before the existence check (403 before 404); lookup and
    listing have no ownership check. `caller` is the id of `req.user`. */
module UserController {
  import opened Common
  import opened Text
  import opened Pagination
  import opened Http
  import opened Users

  const NotFound := "User not found"

  /** `updateUser`: 403 unless the caller is the target, else 404 when no user
      has the id, else 200 with the merged user (a patched password stored as
      given). */
  function UpdateOutcome(s: seq<User>, caller: Option<string>, id: string, patch: UserPatch)
    : (r: (Response<User>, seq<User>))
    ensures r.0.code == 403 <==> caller != Some(id)
    ensures r.0.code == 404 <==> caller == Some(id) && forall j :: 0 <= j < |s| ==> s[j].id != id
    ensures r.0.code != 200 ==> r.1 == s && r.0.data.None? && !r.0.status
    ensures r.0.code == 200 || r.0.code == 403 || r.0.code == 404
    ensures FirstIndex(s, Key, id).Some? ==> var i := FirstIndex(s, Key, id).value;
              (r.0.code == 200 ==> r.1 == s[i := Merge(s[i], patch)] && r.0.data == Some(Merge(s[i], patch)))
  {
    if caller != Some(id) then
      (Fail(403, "Forbidden: You are not authorized to update this user"), s)
    else
      var (updatedUser, s') := UpdateFirst(s, Key, Merge, id, patch);
      if updatedUser.None? then (Fail(404, NotFound), s')
      else (Ok(200, "User updated successfully", updatedUser), s')
  }

  /** `deleteUser`: 403 unless the caller is the target, else 404 when no user
      has the id, else 200 with the first such user spliced out. */
  function DeleteOutcome(s: seq<User>, caller: Option<string>, id: string): (r: (Response<User>, seq<User>))
    ensures r.0.code == 403 <==> caller != Some(id)
    ensures r.0.code == 404 <==> caller == Some(id) && forall j :: 0 <= j < |s| ==> s[j].id != id
    ensures r.0.code != 200 ==> r.1 == s && !r.0.status
    ensures r.0.code == 200 || r.0.code == 403 || r.0.code == 404
    ensures r.0.data.None?
    ensures FirstIndex(s, Key, id).Some? ==> var i := FirstIndex(s, Key, id).value;
              (r.0.code == 200 ==> r.1 == s[..i] + s[i + 1..])
  {
    if caller != Some(id) then
      (Fail(403, "Forbidden: You are not authorized to delete this user"), s)
    else
      var (isDeleted, s') := DeleteFirst(s, Key, id);
      if !isDeleted then (Fail(404, NotFound), s')
      else (Ok(200, "User deleted successfully", None), s')
  }

  /** Self-only: whoever is not the target gets 403, even for an id nobody has,
      so a caller cannot learn from update or delete whether another user
      exists; and a caller acting on a stored self always succeeds. */
  lemma {:induction false} SelfOnly(s: seq<User>, caller: Option<string>, id: string, patch: UserPatch)
    ensures caller != Some(id) ==>
              UpdateOutcome(s, caller, id, patch).0.code == 403 && DeleteOutcome(s, caller, id).0.code == 403
    ensures caller == Some(id) && (exists j :: 0 <= j < |s| && s[j].id == id) ==>
              UpdateOutcome(s, caller, id, patch).0.code == 200 && DeleteOutcome(s, caller, id).0.code == 200
  {
    if caller == Some(id) && exists j :: 0 <= j < |s| && s[j].id == id {
      DeleteFirstSpec(s, Key, id);
      assert FirstIndex(s, Key, id).Some?;
    }
  }

  /** `getUserById`: no ownership check; 200 with the first user with the id,
      404 when there is none. */
  function GetByIdOutcome(s: seq<User>, id: string): (r: Response<User>)
    ensures r.code == 404 <==> forall j :: 0 <= j < |s| ==> s[j].id != id
    ensures r.code == 200 || r.code == 404
    ensures r.code != 200 ==> r.data.None? && !r.status
    ensures FirstIndex(s, Key, id).Some? ==> var i := FirstIndex(s, Key, id).value;
              r.data == Some(s[i])
  {
    match Lookup(s, Key, id)
    case None => Fail(404, NotFound)
    case Some(user) => Ok(200, "User fetched successfully", Some(user))
  }

  /** `getAllUsers` with the query's `page` and `limit` (1 and 10 when absent)
      and no owner scoping; an absent `searchQuery` takes the repository's
      default `''`, which lists every user. A non-blank query that is not a
      valid pattern gives 500 with the `SyntaxError`'s message. On success the
      answer is the pagination, with those defaults, of the users the query
      keeps. */
  function ListOutcome(s: seq<User>, test: (string, Option<string>) -> bool,
                       patternError: string -> Option<string>, page: Option<int>,
                       limit: Option<int>, searchQuery: Option<string>): (r: Response<Page<User>>)
    requires limit.GetOr(10) >= 1
    ensures r.code == 200 || r.code == 500
    ensures var q := searchQuery.GetOr("");
            r.code == 500 <==> !TrimsToEmpty(q) && patternError(q).Some?
    ensures var q := searchQuery.GetOr("");
            r.code == 500 ==> !r.status && r.data.None? && r.message != ""
                              && (patternError(q).value != "" ==> r.message == patternError(q).value)
    ensures r.code == 200 ==>
              && r.status
              && r.data == Some(Paginate(FilterUsers(s, searchQuery.GetOr(""), test), page.GetOr(1), limit.GetOr(10)))
              && (forall k :: 0 <= k < |r.data.value.rows| ==> r.data.value.rows[k] in s)
    ensures searchQuery.None? ==> r.code == 200 && r.data.value.pagination.totalRows == |s|
  {
    var q := searchQuery.GetOr("");
    match SearchUsers(s, page.GetOr(1), limit.GetOr(10), q, test, patternError)
    case Threw(message) => Caught(message)
    case Returned(p) =>
      forall k | 0 <= k < |p.rows| ensures p.rows[k] in s {
        var f := FilterUsers(s, q, test);
        assert p.rows[k] in f;
        var m :| 0 <= m < |f| && f[m] == p.rows[k];
      }
      Ok(200, "Users fetched successfully", Some(p))
  }

  /** With no query parameters the listing is page 1 of 10: the first ten
      stored users, every user counted, and no previous page. */
  lemma {:induction false} ListDefaults(s: seq<User>, test: (string, Option<string>) -> bool,
                                        patternError: string -> Option<string>)
    ensures var r := ListOutcome(s, test, patternError, None, None, None);
            && r.code == 200
            && r.data.value.rows == s[..if |s| < 10 then |s| else 10]
            && r.data.value.pagination.totalRows == |s|
            && r.data.value.pagination.currentPage == 1
            && !r.data.value.pagination.hasPrevPage
  {
    DefaultListingIsFirstTen(s, test);
  }

  // ---------------------------------------------------------------------
  // The handlers over the repository

  method UpdateUser(svc: UserService, caller: Option<string>, id: string, patch: UserPatch)
    returns (resp: Response<User>)
    modifies svc
    ensures (resp, svc.users) == UpdateOutcome(old(svc.users), caller, id, patch)
  {
    if caller != Some(id) {
      return Fail(403, "Forbidden: You are not authorized to update this user");
    }
    var updatedUser := svc.UpdateUser(id, patch);
    if updatedUser.None? {
      return Fail(404, NotFound);
    }
    resp := Ok(200, "User updated successfully", updatedUser);
  }

  method DeleteUser(svc: UserService, caller: Option<string>, id: string) returns (resp: Response<User>)
    modifies svc
    ensures (resp, svc.users) == DeleteOutcome(old(svc.users), caller, id)
  {
    if caller != Some(id) {
      return Fail(403, "Forbidden: You are not authorized to delete this user");
    }
    var isDeleted := svc.DeleteUser(id);
    if !isDeleted {
      return Fail(404, NotFound);
    }
    resp := Ok(200, "User deleted successfully", None);
  }

  method GetUserById(svc: UserService, id: string) returns (resp: Response<User>)
    ensures resp == GetByIdOutcome(svc.users, id)
  {
    var user := svc.GetUserById(id);
    if user.None? {
      return Fail(404, NotFound);
    }
    resp := Ok(200, "User fetched successfully", user);
  }

  method GetAllUsers(svc: UserService, page: Option<int>, limit: Option<int>, searchQuery: Option<string>)
    returns (resp: Response<Page<User>>)
    requires limit.GetOr(10) >= 1
    ensures resp == ListOutcome(svc.users, svc.emailMatches, svc.patternError, page, limit, searchQuery)
  {
    var users := svc.GetAllUsers(page.GetOr(1), limit.GetOr(10), searchQuery.GetOr(""));
    if users.Threw? {
      return Caught(users.message);
    }
    resp := Ok(200, "Users fetched successfully", Some(users.value));
  }
}
