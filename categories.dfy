/** The category repository (`CategoryService`): an array of categories
    changed in place by `push`, index assignment and `splice`, and a listing
    that scopes to the owner, searches titles and paginates. */
module Categories {
  import opened Common
  import opened Text
  import opened Pagination

  /** A stored category. `title` is None when the creating request had no
      title: the controller passes `req.body.title` on unchecked. */
  datatype Category = Category(id: string, title: Option<string>, createdBy: string, createdAt: int)

  /** What the controller hands to `createCategory`: `{ title, createdBy }`. */
  datatype CategoryInput = CategoryInput(title: Option<string>, createdBy: string)

  /** A request body used as an update: every field may be present, `id`
      included. */
  datatype CategoryPatch = CategoryPatch(
    id: Option<string>, title: Option<string>, createdBy: Option<string>, createdAt: Option<int>)

  const NoChange := CategoryPatch(None, None, None, None)

  function Key(c: Category): string {
    c.id
  }

  /** `{ ...c, ...p }`: every field present in the patch replaces the stored one. */
  function Merge(c: Category, p: CategoryPatch): Category {
    Category(p.id.GetOr(c.id), p.title.OrElse(c.title), p.createdBy.GetOr(c.createdBy),
             p.createdAt.GetOr(c.createdAt))
  }

  /** Laws of the shallow merge: an empty patch changes nothing, applying the
      same patch twice is applying it once, and a later patch wins over an
      earlier one field by field. */
  lemma MergeLaws(c: Category, p: CategoryPatch, q: CategoryPatch)
    ensures Merge(c, NoChange) == c
    ensures Merge(Merge(c, p), p) == Merge(c, p)
    ensures Merge(Merge(c, p), q) ==
            Merge(c, CategoryPatch(q.id.OrElse(p.id), q.title.OrElse(p.title),
                                   q.createdBy.OrElse(p.createdBy), q.createdAt.OrElse(p.createdAt)))
  {
  }

  /** The record `createCategory` builds: the input's fields, a fresh id and
      the creation time. */
  function NewCategory(s: seq<Category>, input: CategoryInput, now: int): (c: Category)
    ensures forall j :: 0 <= j < |s| ==> s[j].id != c.id
    ensures c.title == input.title && c.createdBy == input.createdBy && c.createdAt == now
  {
    Category(FreshKey(s, Key), input.title, input.createdBy, now)
  }

  /** Creating keeps ids unique, and deleting does too. */
  lemma CreateDeleteKeepUniqueIds(s: seq<Category>, input: CategoryInput, now: int, id: string)
    requires UniqueKeys(s, Key)
    ensures UniqueKeys(s + [NewCategory(s, input, now)], Key)
    ensures UniqueKeys(DeleteFirst(s, Key, id).1, Key)
  {
    AppendFreshKeepsUnique(s, Key, NewCategory(s, input, now));
    DeleteKeepsUnique(s, Key, id);
  }

  /** Update does not keep ids unique: a patch may carry an id that another
      category already has. */
  lemma UpdateCanDuplicateIds()
    ensures var s := [Category("a", Some("t"), "u", 0), Category("b", Some("t"), "u", 0)];
            && UniqueKeys(s, Key)
            && !UniqueKeys(UpdateFirst(s, Key, Merge, "b", CategoryPatch(Some("a"), None, None, None)).1, Key)
  {
    var s := [Category("a", Some("t"), "u", 0), Category("b", Some("t"), "u", 0)];
    LookupFirst(s, Key, "b", 1);
    var s' := UpdateFirst(s, Key, Merge, "b", CategoryPatch(Some("a"), None, None, None)).1;
    assert Key(s'[0]) == Key(s'[1]);
  }

  /** `category.createdBy === owner`. */
  function OwnedBy(owner: string): Category -> bool {
    (c: Category) => c.createdBy == owner
  }

  /** `category.title.toLowerCase().includes(lowered)` for a category with a
      title (an untitled one makes the search throw, see `SearchThrows`). */
  function TitleIncludes(lowered: string): Category -> bool {
    (c: Category) => c.title.Some? && Includes(ToLower(c.title.value), lowered)
  }

  /** The categories left after the owner filter: those of `currentUserId`
      when it is a non-empty string, else all of them. */
  function Owned(s: seq<Category>, currentUserId: Option<string>): seq<Category> {
    if Truthy(currentUserId) then Filter(s, OwnedBy(currentUserId.value)) else s
  }

  /** The categories `getAllCategories` lists before paginating: scoped to
      `currentUserId` when it is a non-empty string, then narrowed to titles
      containing `searchQuery` (ignoring ASCII case) when that is non-empty. */
  function Filtered(s: seq<Category>, searchQuery: Option<string>, currentUserId: Option<string>)
    : seq<Category>
  {
    var owned := Owned(s, currentUserId);
    if Truthy(searchQuery) then Filter(owned, TitleIncludes(ToLower(searchQuery.value))) else owned
  }

  /** What V8 throws for `category.title.toLowerCase()` on a category without a title. */
  const TitleTypeError := "Cannot read properties of undefined (reading 'toLowerCase')"

  /** The search throws exactly when it runs (the query is non-empty) and some
      category that survives the owner filter has no title. */
  predicate SearchThrows(s: seq<Category>, searchQuery: Option<string>, currentUserId: Option<string>) {
    && Truthy(searchQuery)
    && exists k :: 0 <= k < |s| && s[k].title.None? && (Truthy(currentUserId) ==> s[k].createdBy == currentUserId.value)
  }

  /** Exactly the stored categories that meet both criteria are listed. */
  lemma FilteredExactly(s: seq<Category>, searchQuery: Option<string>, currentUserId: Option<string>, c: Category)
    ensures c in Filtered(s, searchQuery, currentUserId) <==>
              && c in s
              && (Truthy(currentUserId) ==> c.createdBy == currentUserId.value)
              && (Truthy(searchQuery) ==> c.title.Some? && Includes(ToLower(c.title.value), ToLower(searchQuery.value)))
  {
    var owned := Owned(s, currentUserId);
    if c in s && (Truthy(currentUserId) ==> c.createdBy == currentUserId.value) {
      var i :| 0 <= i < |s| && s[i] == c;
      assert c in owned;
      var k :| 0 <= k < |owned| && owned[k] == c;
      if Truthy(searchQuery) && c.title.Some? && Includes(ToLower(c.title.value), ToLower(searchQuery.value)) {
        assert c in Filter(owned, TitleIncludes(ToLower(searchQuery.value)));
      }
    }
    if c in Filtered(s, searchQuery, currentUserId) {
      var k :| 0 <= k < |Filtered(s, searchQuery, currentUserId)| && Filtered(s, searchQuery, currentUserId)[k] == c;
      assert c in owned;
    }
  }

  /** The search ignores ASCII case: a query and its lower-cased form list the
      same categories. */
  lemma SearchIgnoresCase(s: seq<Category>, q: string, currentUserId: Option<string>)
    ensures Filtered(s, Some(q), currentUserId) == Filtered(s, Some(ToLower(q)), currentUserId)
  {
    ToLowerIdempotent(q);
    assert q != "" <==> ToLower(q) != "";
  }

  /** A category created later is listed after every older one: creating
      appends the new category to the end of the filtered list when it passes
      the filters, and leaves the older categories in their order. */
  lemma {:induction false} NewCategoryListedLast(s: seq<Category>, input: CategoryInput, now: int,
                                                 searchQuery: Option<string>, currentUserId: Option<string>)
    ensures var c := NewCategory(s, input, now);
            Filtered(s + [c], searchQuery, currentUserId)
            == Filtered(s, searchQuery, currentUserId) + Filtered([c], searchQuery, currentUserId)
  {
    var c := NewCategory(s, input, now);
    if Truthy(currentUserId) {
      FilterConcat(s, [c], OwnedBy(currentUserId.value));
    }
    assert Owned(s + [c], currentUserId) == Owned(s, currentUserId) + Owned([c], currentUserId);
    if Truthy(searchQuery) {
      FilterConcat(Owned(s, currentUserId), Owned([c], currentUserId), TitleIncludes(ToLower(searchQuery.value)));
    }
  }

  /** `getAllCategories(page, limit, searchQuery, currentUserId)`. */
  function ListCategories(s: seq<Category>, page: int, limit: int, searchQuery: Option<string>,
                          currentUserId: Option<string>): (p: Page<Category>)
    requires limit >= 1
    ensures p.pagination.totalRows == |Filtered(s, searchQuery, currentUserId)|
    ensures forall k :: 0 <= k < |p.rows| ==> p.rows[k] in Filtered(s, searchQuery, currentUserId)
  {
    Paginate(Filtered(s, searchQuery, currentUserId), page, limit)
  }

  /** `getAllCategories` as it ends: the thrown `TypeError` when the search
      meets an untitled category, else the listing. */
  function SearchCategories(s: seq<Category>, page: int, limit: int, searchQuery: Option<string>,
                            currentUserId: Option<string>): (r: Completion<Page<Category>>)
    requires limit >= 1
    ensures r.Threw? <==> SearchThrows(s, searchQuery, currentUserId)
    ensures r.Threw? ==> r.message == TitleTypeError
    ensures r.Returned? ==> r.value == ListCategories(s, page, limit, searchQuery, currentUserId)
  {
    if SearchThrows(s, searchQuery, currentUserId) then Threw(TitleTypeError)
    else Returned(ListCategories(s, page, limit, searchQuery, currentUserId))
  }

  /** The owner filter keeps exactly the stored categories of the owner, so
      an untitled category reaches the search exactly when `SearchThrows`
      says so. */
  lemma {:induction false} OwnedHasUntitled(s: seq<Category>, searchQuery: Option<string>,
                                            currentUserId: Option<string>)
    requires Truthy(searchQuery)
    ensures SearchThrows(s, searchQuery, currentUserId) <==>
              exists k :: 0 <= k < |Owned(s, currentUserId)| && Owned(s, currentUserId)[k].title.None?
  {
    var owned := Owned(s, currentUserId);
    if SearchThrows(s, searchQuery, currentUserId) {
      var k :| 0 <= k < |s| && s[k].title.None? && (Truthy(currentUserId) ==> s[k].createdBy == currentUserId.value);
      assert s[k] in owned;
      var m :| 0 <= m < |owned| && owned[m] == s[k];
    }
    if exists k :: 0 <= k < |owned| && owned[k].title.None? {
      var k :| 0 <= k < |owned| && owned[k].title.None?;
      assert owned[k] in s;
      var m :| 0 <= m < |s| && s[m] == owned[k];
    }
  }

  /** The in-memory category repository. */
  class CategoryService {
    var categories: seq<Category>

    constructor ()
      ensures categories == []
    {
      categories := [];
    }

    /** `createCategory`: pushes one new category with a fresh id and returns it. */
    method CreateCategory(category: CategoryInput, now: int) returns (c: Category)
      modifies this
      ensures categories == old(categories) + [c]
      ensures c == NewCategory(old(categories), category, now)
      ensures forall j :: 0 <= j < |old(categories)| ==> old(categories)[j].id != c.id
    {
      c := NewCategory(categories, category, now);
      categories := categories + [c];
    }

    /** `getCategoryById`: the first category with this id, or None when there is none. */
    function GetCategoryById(id: string): (r: Option<Category>)
      reads this
      ensures r.None? <==> forall j :: 0 <= j < |categories| ==> categories[j].id != id
      ensures r.Some? ==> exists i :: 0 <= i < |categories| && categories[i] == r.value && r.value.id == id
                              && forall j :: 0 <= j < i ==> categories[j].id != id
    {
      var r := Lookup(categories, Key, id);
      if r.Some? then
        var i := FirstIndex(categories, Key, id).value;
        assert categories[i] == r.value;
        r
      else r
    }

    /** `updateCategory`: merges the patch into the first category with this id
        and returns the merged record; None, with nothing changed, when the id
        is absent. */
    method UpdateCategory(id: string, updatedCategory: CategoryPatch) returns (r: Option<Category>)
      modifies this
      ensures (r, categories) == UpdateFirst(old(categories), Key, Merge, id, updatedCategory)
    {
      var index := FirstIndex(categories, Key, id);
      if index.Some? {
        var i := index.value;
        categories := categories[i := Merge(categories[i], updatedCategory)];
        return Some(categories[i]);
      }
      return None;
    }

    /** `deleteCategory`: splices out the first category with this id and
        reports whether there was one. */
    method DeleteCategory(id: string) returns (ok: bool)
      modifies this
      ensures (ok, categories) == DeleteFirst(old(categories), Key, id)
    {
      var index := FirstIndex(categories, Key, id);
      if index.Some? {
        var i := index.value;
        categories := categories[..i] + categories[i + 1..];
        return true;
      }
      return false;
    }

    /** `getAllCategories`: throws the `TypeError` exactly when the search
        meets an untitled category of the owner; otherwise every listed row
        belongs to the owner (when one is given) and matches the search (when
        one is given), and the summary counts all matching categories; the
        store is not changed. */
    method GetAllCategories(page: int, limit: int, searchQuery: Option<string>, currentUserId: Option<string>)
      returns (result: Completion<Page<Category>>)
      requires limit >= 1
      ensures result == SearchCategories(categories, page, limit, searchQuery, currentUserId)
      ensures result.Threw? <==> SearchThrows(categories, searchQuery, currentUserId)
      ensures result.Returned? ==>
                && result.value.pagination.totalRows == |Filtered(categories, searchQuery, currentUserId)|
                && forall k :: 0 <= k < |result.value.rows| ==>
                     && result.value.rows[k] in categories
                     && (Truthy(currentUserId) ==> result.value.rows[k].createdBy == currentUserId.value)
                     && (Truthy(searchQuery) ==> result.value.rows[k].title.Some?
                                                 && Includes(ToLower(result.value.rows[k].title.value),
                                                             ToLower(searchQuery.value)))
    {
      var filteredCategories := categories;
      if Truthy(currentUserId) {
        filteredCategories := Filter(filteredCategories, OwnedBy(currentUserId.value));
      }
      assert filteredCategories == Owned(categories, currentUserId);
      if Truthy(searchQuery) {
        OwnedHasUntitled(categories, searchQuery, currentUserId);
        if exists k :: 0 <= k < |filteredCategories| && filteredCategories[k].title.None? {
          return Threw(TitleTypeError);
        }
        var searchQueryLowered := ToLower(searchQuery.value);
        filteredCategories := Filter(filteredCategories, TitleIncludes(searchQueryLowered));
      }
      assert filteredCategories == Filtered(categories, searchQuery, currentUserId);

      var totalRows := |filteredCategories|;
      var totalPages := CeilDiv(totalRows, limit);
      var currentPage := page;
      var paginationSummary := PaginationSummary(totalRows, totalPages, currentPage,
                                                 currentPage < totalPages, currentPage > 1);
      var startIndex := (page - 1) * limit;
      var endIndex := page * limit;
      var paginatedCategories := JsSlice(filteredCategories, startIndex, endIndex);
      var listing := Page(paginatedCategories, paginationSummary);

      forall k | 0 <= k < |listing.rows|
        ensures && listing.rows[k] in categories
                && (Truthy(currentUserId) ==> listing.rows[k].createdBy == currentUserId.value)
                && (Truthy(searchQuery) ==> listing.rows[k].title.Some?
                                            && Includes(ToLower(listing.rows[k].title.value), ToLower(searchQuery.value)))
      {
        FilteredExactly(categories, searchQuery, currentUserId, listing.rows[k]);
      }
      result := Returned(listing);
    }
  }
}
