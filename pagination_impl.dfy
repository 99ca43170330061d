/** PaginationImpl: the 1-based page descriptor handed to callers next to
    the rows of a page, derived from the Spring Page the repository returns
    for an offset-based request. */
module PaginationImpl {
  import opened Results
  import opened JavaNumbers
  import opened Sorting
  import opened OffsetBasedPageRequest

  /** What PaginationImpl reads of a Spring Page: the 0-based page number,
      the page size, the page count and the row count. */
  datatype Page = Page(number: int, size: int, totalPages: int, totalElements: int)

  /** The Java types of those readings: int, int, int and long. */
  predicate ValidPage(page: Page) {
    InInt(page.number) && InInt(page.size) && InInt(page.totalPages) && InLong(page.totalElements)
  }

  /** The four final fields and the page they were read from. */
  datatype Pagination = Pagination(currentPage: int, totalPages: int, pageSize: int, totalRows: int, page: Page)

  /** The constructor: the page number plus one (an int sum, so it wraps
      around at Integer.MAX_VALUE); the other fields are copied. */
  function NewPagination(page: Page): (r: Pagination)
    requires ValidPage(page)
    ensures InInt(r.currentPage)
    ensures page.number < MAX_INT ==> r.currentPage == page.number + 1
    ensures page.number == MAX_INT ==> r.currentPage == MIN_INT
    ensures r.totalPages == page.totalPages && r.pageSize == page.size && r.totalRows == page.totalElements
    ensures r.page == page
  {
    Pagination(WrapInt(page.number + 1), page.totalPages, page.size, page.totalElements, page)
  }

  /** hasNext: number + 1 < totalPages, the sum in int arithmetic. */
  predicate HasNext(p: Pagination) {
    WrapInt(p.page.number + 1) < p.page.totalPages
  }

  /** hasPrevious: the 0-based number is positive. */
  predicate HasPrevious(p: Pagination) {
    p.page.number > 0
  }

  predicate IsFirst(p: Pagination) {
    !HasPrevious(p)
  }

  predicate IsLast(p: Pagination) {
    !HasNext(p)
  }

  /** Away from the int boundary the four flags read the 1-based current page
      against the page count: a next page exists exactly when the current page
      is not the last, a previous one exactly when it is not the first. */
  lemma FlagsByCurrentPage(page: Page)
    requires ValidPage(page) && 0 <= page.number < MAX_INT
    ensures var p := NewPagination(page);
      (HasNext(p) <==> p.currentPage < p.totalPages)
      && (IsLast(p) <==> p.currentPage >= p.totalPages)
      && (HasPrevious(p) <==> p.currentPage > 1)
      && (IsFirst(p) <==> p.currentPage == 1)
  {
  }

  /** The smallest page count that covers `total` rows of `size` each. */
  function CeilDiv(total: nat, size: int): (q: nat)
    requires size >= 1
    ensures q * size >= total
    ensures total > 0 ==> (q - 1) * size < total
    ensures total == 0 ==> q == 0
  {
    (total + size - 1) / size
  }

  /** The Page Spring builds for an offset-based request over `total` rows:
      the number is the request's page number (which can fail), the size its
      limit, and the page count the rows divided by the size rounded up and
      narrowed to an int (saturating, as a cast from a double does). */
  function OffsetPage(req: PageRequest, total: int): (r: Result<Page>)
    requires Valid(req) && 0 <= total <= MAX_LONG
    ensures r.Ok? <==> PageNumber(req).Ok?
    ensures r.Err? ==> r.error == Arithmetic
    ensures r.Ok? ==> ValidPage(r.value) && r.value.number == PageNumber(req).value
    ensures r.Ok? ==> r.value.size == req.limit && r.value.totalElements == total
    ensures r.Ok? && total <= MAX_INT ==> r.value.totalPages * req.limit >= total
    ensures r.Ok? && 0 < total <= MAX_INT ==> (r.value.totalPages - 1) * req.limit < total
  {
    var number :- PageNumber(req);
    var pages := CeilDiv(total, req.limit);
    assert total <= MAX_INT ==> pages <= MAX_INT by {
      if total <= MAX_INT && pages > MAX_INT {
        MulMonotone(1, req.limit, pages - 1);
      }
    }
    Ok(Page(number, req.limit, if pages <= MAX_INT then pages else MAX_INT, total))
  }

  /** On an offset request, hasNext holds exactly when rows remain after the
      page the offset falls in. */
  lemma {:induction false} HasNextMeansMoreRows(req: PageRequest, total: int)
    requires Valid(req) && 0 <= total <= MAX_INT
    requires OffsetPage(req, total).Ok? && PageNumber(req).value < MAX_INT
    ensures var page := OffsetPage(req, total).value;
      HasNext(NewPagination(page)) <==> (page.number + 1) * req.limit < total
  {
    var page := OffsetPage(req, total).value;
    var n, t, l := page.number, page.totalPages, req.limit;
    assert WrapInt(n + 1) == n + 1;
    if n + 1 < t {
      MulMonotone(n + 1, t - 1, l);
    } else {
      MulMonotone(t, n + 1, l);
    }
  }

  /** On an offset request the current page is the 1-based index of the page
      holding the offset row, and the page size is the limit. */
  lemma CurrentPageOfOffset(req: PageRequest, total: int)
    requires Valid(req) && 0 <= total <= MAX_LONG
    requires OffsetPage(req, total).Ok? && PageNumber(req).value < MAX_INT
    ensures var p := NewPagination(OffsetPage(req, total).value);
      p.currentPage >= 1 && (p.currentPage - 1) * req.limit <= req.offset < p.currentPage * req.limit
      && p.pageSize == req.limit && p.totalRows == total
  {
  }

  /** Moving to the next request moves the current page on by one. */
  lemma NextCurrentPage(req: PageRequest, total: int)
    requires Valid(req) && 0 <= total <= MAX_LONG && Next(req).Ok?
    requires OffsetPage(req, total).Ok? && OffsetPage(Next(req).value, total).Ok?
    requires PageNumber(Next(req).value).value < MAX_INT
    ensures NewPagination(OffsetPage(Next(req).value, total).value).currentPage
      == NewPagination(OffsetPage(req, total).value).currentPage + 1
  {
    NextPageNumber(req);
  }

  /** Eight rows, offset 1 and limit 3: the first of three pages of three. */
  lemma OffsetOneLimitThree(sort: Sort)
    ensures var req := PageRequest(1, 3, sort);
      Valid(req) && OffsetPage(req, 8).Ok?
      && NewPagination(OffsetPage(req, 8).value) == Pagination(1, 3, 3, 8, Page(0, 3, 3, 8))
  {
    var req := PageRequest(1, 3, sort);
    assert PageNumber(req).value == 0;
  }

  /** Eight rows, offset 3 and limit 2: the second of four pages of two. */
  lemma OffsetThreeLimitTwo(sort: Sort)
    ensures var req := PageRequest(3, 2, sort);
      Valid(req) && OffsetPage(req, 8).Ok?
      && NewPagination(OffsetPage(req, 8).value) == Pagination(2, 4, 2, 8, Page(1, 2, 4, 8))
  {
    var req := PageRequest(3, 2, sort);
    assert PageNumber(req).value == 1;
  }
}
