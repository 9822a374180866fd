/** The pagination arithmetic shared by the category and user listings:
    a summary computed from the filtered rows and the page slice
    `rows.slice((page - 1) * limit, page * limit)`. */
module Pagination {
  import opened Common

  datatype PaginationSummary = PaginationSummary(
    totalRows: nat,
    totalPages: nat,
    currentPage: int,
    hasNextPage: bool,
    hasPrevPage: bool)

  datatype Page<T> = Page(rows: seq<T>, pagination: PaginationSummary)

  /** `Math.ceil(n / d)`: the least number of pages of size `d` that hold `n` rows. */
  function CeilDiv(n: nat, d: nat): (q: nat)
    requires d >= 1
    ensures n <= q * d
    ensures q == 0 || (q - 1) * d < n
  {
    var q := (n + d - 1) / d;
    assert q * d + (n + d - 1) % d == n + d - 1;
    q
  }

  /** Multiplying by a positive limit preserves strict order. */
  lemma MulStrict(a: int, b: int, d: nat)
    requires d >= 1
    ensures a < b <==> a * d < b * d
  {
    if a < b {
      assert b * d - a * d == (b - a) * d;
    } else {
      assert a * d - b * d == (a - b) * d;
    }
  }

  /** The window `(page - 1) * limit .. page * limit` cut from `filtered`. */
  function PageRows<T>(filtered: seq<T>, page: int, limit: int): seq<T> {
    JsSlice(filtered, (page - 1) * limit, page * limit)
  }

  /** `getAllCategories` / `getAllUsers` after filtering: the summary and the
      page of rows. */
  function Paginate<T>(filtered: seq<T>, page: int, limit: int): (p: Page<T>)
    requires limit >= 1
    ensures p.pagination.totalRows == |filtered| && p.pagination.currentPage == page
    ensures p.pagination.hasPrevPage <==> page > 1
    ensures forall k :: 0 <= k < |p.rows| ==> p.rows[k] in filtered
  {
    var totalRows := |filtered|;
    var totalPages := CeilDiv(totalRows, limit);
    Page(PageRows(filtered, page, limit),
         PaginationSummary(totalRows, totalPages, page, page < totalPages, page > 1))
  }

  /** The summary counts every filtered row, counts the fewest pages that hold
      them, reports a next page exactly when rows remain after this page and a
      previous page exactly when the page is past the first. */
  lemma SummaryMeaning<T>(filtered: seq<T>, page: int, limit: int)
    requires limit >= 1
    ensures var s := Paginate(filtered, page, limit).pagination;
            && s.totalRows == |filtered|
            && s.currentPage == page
            && |filtered| <= s.totalPages * limit
            && (s.totalPages == 0 || (s.totalPages - 1) * limit < |filtered|)
            && (s.hasNextPage <==> page * limit < |filtered|)
            && (s.hasPrevPage <==> page > 1)
  {
    var t := CeilDiv(|filtered|, limit);
    MulStrict(page, t, limit);
    if page < t {
      MulStrict(page, t - 1 + 1, limit);
      assert page <= t - 1;
      if page < t - 1 { MulStrict(page, t - 1, limit); }
    } else {
      assert t * limit <= page * limit by { if t < page { MulStrict(t, page, limit); } }
    }
  }

  /** For a page from 1 on, the rows are `filtered[(page-1)*limit .. min(page*limit, totalRows)]`:
      at most `limit` rows, in store order, and none once the window starts
      at or past the end. */
  lemma PageWindow<T>(filtered: seq<T>, page: int, limit: int)
    requires page >= 1 && limit >= 1
    ensures var start := (page - 1) * limit;
            var end := if page * limit < |filtered| then page * limit else |filtered|;
            var rows := PageRows(filtered, page, limit);
            && (start < |filtered| ==> rows == filtered[start..end])
            && (start >= |filtered| ==> rows == [])
            && |rows| <= limit
  {
    var start := (page - 1) * limit;
    assert 0 <= start;
    assert page * limit == start + limit;
    JsSliceNonNegative(filtered, start, page * limit);
  }

  /** Every row lies on exactly the page its index says: row `k` is entry
      `k % limit` of page `k / limit + 1`, so the pages together list all
      filtered rows in order. */
  lemma RowOnItsPage<T>(filtered: seq<T>, limit: int, k: nat)
    requires limit >= 1 && k < |filtered|
    ensures var page := k / limit + 1;
            var rows := Paginate(filtered, page, limit).rows;
            k % limit < |rows| && rows[k % limit] == filtered[k]
  {
    var page := k / limit + 1;
    var start := (page - 1) * limit;
    assert start == (k / limit) * limit;
    assert start + k % limit == k;
    PageWindow(filtered, page, limit);
    var end := if page * limit < |filtered| then page * limit else |filtered|;
    assert page * limit == start + limit;
    assert start <= k < end;
  }

  /** The worked example of a 25-row listing with pages of 10: page 1 has 10
      rows and a next page, page 3 has the last 5 rows and no next page, and
      page 4 is empty, with three pages in all. */
  lemma TwentyFiveRows<T>(filtered: seq<T>)
    requires |filtered| == 25
    ensures var p1 := Paginate(filtered, 1, 10);
            var p3 := Paginate(filtered, 3, 10);
            var p4 := Paginate(filtered, 4, 10);
            && |p1.rows| == 10 && p1.pagination.hasNextPage && !p1.pagination.hasPrevPage
            && p3.rows == filtered[20..] && !p3.pagination.hasNextPage && p3.pagination.hasPrevPage
            && p4.rows == [] && p4.pagination.totalPages == 3
  {
    PageWindow(filtered, 1, 10);
    PageWindow(filtered, 3, 10);
    PageWindow(filtered, 4, 10);
  }
}
