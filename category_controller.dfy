/** The category handlers: each is a short chain of checks (does the category
    exist, does the caller own it) ending in a status code and, on success, a
    call into the repository. `caller` is the id of `req.user`, absent when no
    user was recorded on the request. */
module CategoryController {
  import opened Common
  import opened Http
  import opened Pagination
  import opened Categories

  const NotFound := "Category not found"

  /** `createCategory`: stores only the title (absent when the body has
      none), owned by the caller (or by `'unknown'` without one), and answers
      201 with the stored record. */
  function CreateOutcome(s: seq<Category>, caller: Option<string>, title: Option<string>, now: int)
    : (r: (Response<Category>, seq<Category>))
    ensures r.0.code == 201 && r.0.status
    ensures |r.1| == |s| + 1 && r.1[..|s|] == s
    ensures r.0.data == Some(r.1[|s|])
    ensures r.1[|s|].title == title && r.1[|s|].createdAt == now
    ensures r.1[|s|].createdBy == (if caller.Some? then caller.value else "unknown")
    ensures forall j :: 0 <= j < |s| ==> s[j].id != r.1[|s|].id
  {
    var c := NewCategory(s, CategoryInput(title, caller.GetOr("unknown")), now);
    assert (s + [c])[..|s|] == s;
    (Ok(201, "Category created successfully", Some(c)), s + [c])
  }

  /** The ownership test `category.createdBy === currentUser?.id`. */
  predicate OwnerOf(c: Category, caller: Option<string>) {
    caller == Some(c.createdBy)
  }

  /** `updateCategory`: 404 when no category has the id, else 403 when the caller
      does not own it, else 200 with the merged record. */
  function UpdateOutcome(s: seq<Category>, caller: Option<string>, id: string, patch: CategoryPatch)
    : (r: (Response<Category>, seq<Category>))
    ensures r.0.code == 404 <==> forall j :: 0 <= j < |s| ==> s[j].id != id
    ensures r.0.code != 200 ==> r.1 == s && r.0.data.None? && !r.0.status
    ensures r.0.code == 200 || r.0.code == 403 || r.0.code == 404
    ensures FirstIndex(s, Key, id).Some? ==> var i := FirstIndex(s, Key, id).value;
              && (r.0.code == 403 <==> !OwnerOf(s[i], caller))
              && (r.0.code == 200 ==> r.1 == s[i := Merge(s[i], patch)] && r.0.data == Some(Merge(s[i], patch)))
  {
    match Lookup(s, Key, id)
    case None => (Fail(404, NotFound), s)
    case Some(existing) =>
      if !OwnerOf(existing, caller) then
        (Fail(403, "Forbidden: You are not authorized to update this category"), s)
      else
        var (updated, s') := UpdateFirst(s, Key, Merge, id, patch);
        (Ok(200, "Category updated successfully", updated), s')
  }

  /** `deleteCategory`: 404 when no category has the id, else 403 when the caller
      does not own it, else the category is spliced out and the answer is 200.
      The 500 for a repository that reports nothing deleted cannot happen: it
      always finds the category the handler has just looked up. */
  function DeleteOutcome(s: seq<Category>, caller: Option<string>, id: string)
    : (r: (Response<Category>, seq<Category>))
    ensures r.0.code == 404 <==> forall j :: 0 <= j < |s| ==> s[j].id != id
    ensures r.0.code != 200 ==> r.1 == s && !r.0.status
    ensures r.0.code == 200 || r.0.code == 403 || r.0.code == 404
    ensures r.0.data.None?
    ensures FirstIndex(s, Key, id).Some? ==> var i := FirstIndex(s, Key, id).value;
              && (r.0.code == 403 <==> !OwnerOf(s[i], caller))
              && (r.0.code == 200 ==> r.1 == s[..i] + s[i + 1..])
  {
    match Lookup(s, Key, id)
    case None => (Fail(404, NotFound), s)
    case Some(existing) =>
      if !OwnerOf(existing, caller) then
        (Fail(403, "Forbidden: You are not authorized to delete this category"), s)
      else
        DeleteFirstSpec(s, Key, id);
        var (isDeleted, s') := DeleteFirst(s, Key, id);
        if !isDeleted then (Fail(500, "Failed to delete category"), s')
        else (Ok(200, "Category deleted successfully", None), s')
  }

  /** `getCategoryById`: 404 when no category has the id, else 403 when the
      caller does not own it, else 200 with the category. */
  function GetByIdOutcome(s: seq<Category>, caller: Option<string>, id: string): (r: Response<Category>)
    ensures r.code == 404 <==> forall j :: 0 <= j < |s| ==> s[j].id != id
    ensures r.code == 200 || r.code == 403 || r.code == 404
    ensures r.code != 200 ==> r.data.None? && !r.status
    ensures FirstIndex(s, Key, id).Some? ==> var i := FirstIndex(s, Key, id).value;
              && (r.code == 403 <==> !OwnerOf(s[i], caller))
              && (r.code == 200 ==> r.data == Some(s[i]))
  {
    match Lookup(s, Key, id)
    case None => Fail(404, NotFound)
    case Some(existing) =>
      if !OwnerOf(existing, caller) then Fail(403, "Forbidden: You are not authorized to view this category")
      else Ok(200, "Category fetched successfully", Some(existing))
  }

  /** The three item handlers agree on who may act: for each of them, an
      absent id gives 404 whoever asks, and a present one gives 403 exactly to
      non-owners, with the store unchanged in both cases. */
  lemma {:induction false} GatesAgree(s: seq<Category>, caller: Option<string>, id: string, patch: CategoryPatch)
    ensures var u := UpdateOutcome(s, caller, id, patch);
            var d := DeleteOutcome(s, caller, id);
            var g := GetByIdOutcome(s, caller, id);
            && (u.0.code == 404 <==> d.0.code == 404) && (d.0.code == 404 <==> g.code == 404)
            && (u.0.code == 403 <==> d.0.code == 403) && (d.0.code == 403 <==> g.code == 403)
            && (g.code == 200 <==> u.0.code == 200) && (g.code == 200 <==> d.0.code == 200)
  {
    match FirstIndex(s, Key, id)
    case None =>
    case Some(i) =>
  }

  /** `getAllCategories` with the query's `page` and `limit` (1 and 10 when
      absent) and the caller's id always as owner filter; 500 with the
      `TypeError`'s message when the search meets an untitled category among
      those the owner filter keeps. */
  function ListOutcome(s: seq<Category>, caller: Option<string>, page: Option<int>, limit: Option<int>,
                       searchQuery: Option<string>): (r: Response<Page<Category>>)
    requires limit.GetOr(10) >= 1
    ensures r.code == 200 || r.code == 500
    ensures r.code == 500 <==> SearchThrows(s, searchQuery, caller)
    ensures r.code == 500 ==> r.message == TitleTypeError && !r.status && r.data.None?
    ensures r.code == 200 ==> r.data == Some(ListCategories(s, page.GetOr(1), limit.GetOr(10), searchQuery, caller))
    ensures r.code == 200 ==>
              && r.status && r.data.Some?
              && r.data.value.pagination.totalRows == |Filtered(s, searchQuery, caller)|
              && r.data.value.pagination.currentPage == page.GetOr(1)
              && forall k :: 0 <= k < |r.data.value.rows| ==>
                   && r.data.value.rows[k] in s
                   && (Truthy(caller) ==> r.data.value.rows[k].createdBy == caller.value)
  {
    match SearchCategories(s, page.GetOr(1), limit.GetOr(10), searchQuery, caller)
    case Threw(message) => Caught(message)
    case Returned(p) =>
      forall k | 0 <= k < |p.rows|
        ensures p.rows[k] in s && (Truthy(caller) ==> p.rows[k].createdBy == caller.value)
      {
        FilteredExactly(s, searchQuery, caller, p.rows[k]);
      }
      Ok(200, "Categories fetched successfully", Some(p))
  }

  /** A category created without a title breaks every later search of its
      owner's listing (of everyone's, when it is owned by `'unknown'` or by an
      empty id, which the owner filter does not scope to): the answer is 500,
      whatever the page, limit and query. */
  lemma {:induction false} UntitledCategoryBreaksSearch(s: seq<Category>, caller: Option<string>, now: int,
                                                        page: Option<int>, limit: Option<int>, q: string)
    requires limit.GetOr(10) >= 1 && q != ""
    ensures var s' := CreateOutcome(s, caller, None, now).1;
            ListOutcome(s', caller, page, limit, Some(q)).code == 500
  {
    var s' := CreateOutcome(s, caller, None, now).1;
    assert s'[|s|].title.None?;
  }

  /** Listing never shows a signed-in caller someone else's category, and with
      no query parameters it is the caller's first ten categories. */
  lemma {:induction false} ListShowsOwnOnly(s: seq<Category>, caller: string)
    requires caller != ""
    ensures var rows := ListOutcome(s, Some(caller), None, None, None).data.value.rows;
            var own := Filter(s, OwnedBy(caller));
            && (forall k :: 0 <= k < |rows| ==> rows[k] in s && rows[k].createdBy == caller)
            && rows == own[..if |own| < 10 then |own| else 10]
  {
    var rows := ListOutcome(s, Some(caller), None, None, None).data.value.rows;
    var own := Filter(s, OwnedBy(caller));
    PageWindow(own, 1, 10);
    forall k | 0 <= k < |rows| ensures rows[k] in s && rows[k].createdBy == caller {
      FilteredExactly(s, None, Some(caller), rows[k]);
    }
  }

  // ---------------------------------------------------------------------
  // The handlers over the repository

  method CreateCategory(svc: CategoryService, caller: Option<string>, title: Option<string>, now: int)
    returns (resp: Response<Category>)
    modifies svc
    ensures (resp, svc.categories) == CreateOutcome(old(svc.categories), caller, title, now)
  {
    var newCategory := svc.CreateCategory(CategoryInput(title, caller.GetOr("unknown")), now);
    resp := Ok(201, "Category created successfully", Some(newCategory));
  }

  method UpdateCategory(svc: CategoryService, caller: Option<string>, id: string, patch: CategoryPatch)
    returns (resp: Response<Category>)
    modifies svc
    ensures (resp, svc.categories) == UpdateOutcome(old(svc.categories), caller, id, patch)
  {
    var existingCategory := svc.GetCategoryById(id);
    if existingCategory.None? {
      return Fail(404, NotFound);
    }
    if !OwnerOf(existingCategory.value, caller) {
      return Fail(403, "Forbidden: You are not authorized to update this category");
    }
    var updatedCategory := svc.UpdateCategory(id, patch);
    resp := Ok(200, "Category updated successfully", updatedCategory);
  }

  method DeleteCategory(svc: CategoryService, caller: Option<string>, id: string)
    returns (resp: Response<Category>)
    modifies svc
    ensures (resp, svc.categories) == DeleteOutcome(old(svc.categories), caller, id)
  {
    var existingCategory := svc.GetCategoryById(id);
    if existingCategory.None? {
      return Fail(404, NotFound);
    }
    if !OwnerOf(existingCategory.value, caller) {
      return Fail(403, "Forbidden: You are not authorized to delete this category");
    }
    var isDeleted := svc.DeleteCategory(id);
    if !isDeleted {
      return Fail(500, "Failed to delete category");
    }
    resp := Ok(200, "Category deleted successfully", None);
  }

  method GetCategoryById(svc: CategoryService, caller: Option<string>, id: string)
    returns (resp: Response<Category>)
    ensures resp == GetByIdOutcome(svc.categories, caller, id)
  {
    var existingCategory := svc.GetCategoryById(id);
    if existingCategory.None? {
      return Fail(404, NotFound);
    }
    if !OwnerOf(existingCategory.value, caller) {
      return Fail(403, "Forbidden: You are not authorized to view this category");
    }
    resp := Ok(200, "Category fetched successfully", existingCategory);
  }

  method GetAllCategories(svc: CategoryService, caller: Option<string>, page: Option<int>, limit: Option<int>,
                          searchQuery: Option<string>)
    returns (resp: Response<Page<Category>>)
    requires limit.GetOr(10) >= 1
    ensures resp == ListOutcome(svc.categories, caller, page, limit, searchQuery)
  {
    var categories := svc.GetAllCategories(page.GetOr(1), limit.GetOr(10), searchQuery, caller);
    if categories.Threw? {
      return Caught(categories.message);
    }
    resp := Ok(200, "Categories fetched successfully", Some(categories.value));
  }
}
