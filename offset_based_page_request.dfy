/** OffsetBasedPageRequest: an immutable page request addressed by a row
    offset and a page size (the limit) instead of a page index, with the
    navigation Spring's Pageable asks for. */
module OffsetBasedPageRequest {
  import opened Results
  import opened JavaNumbers
  import opened Sorting

  /** The three final fields: long offset, int limit and the Sort. */
  datatype PageRequest = PageRequest(offset: int, limit: int, sort: Sort)

  /** What the constructor guarantees of every instance. */
  predicate Valid(p: PageRequest) {
    0 <= p.offset <= MAX_LONG && 1 <= p.limit <= MAX_INT
  }

  const OFFSET_MESSAGE: string := "Offset index must not be less than zero."
  const LIMIT_MESSAGE: string := "Limit must not be less than one."

  /** The constructor: the offset is checked first, then the limit. */
  function NewPageRequest(offset: int, limit: int, sort: Sort): (r: Result<PageRequest>)
    requires InLong(offset) && InInt(limit)
    ensures r.Ok? <==> offset >= 0 && limit >= 1
    ensures r.Ok? ==> Valid(r.value) && r.value.offset == offset && r.value.limit == limit && r.value.sort == sort
    ensures offset < 0 ==> r == Err(IllegalArgument(OFFSET_MESSAGE))
    ensures offset >= 0 && limit < 1 ==> r == Err(IllegalArgument(LIMIT_MESSAGE))
  {
    if offset < 0 then Err(IllegalArgument(OFFSET_MESSAGE))
    else if limit < 1 then Err(IllegalArgument(LIMIT_MESSAGE))
    else Ok(PageRequest(offset, limit, sort))
  }

  /** getPageNumber: Math.toIntExact(offset / limit), so the index of the
      page holding row `offset`, or an ArithmeticException past the int range. */
  function PageNumber(p: PageRequest): (r: Result<int>)
    requires Valid(p)
    ensures r.Ok? <==> p.offset < (MAX_INT + 1) * p.limit
    ensures r.Ok? ==> 0 <= r.value <= MAX_INT && r.value * p.limit <= p.offset < (r.value + 1) * p.limit
    ensures r.Err? ==> r.error == Arithmetic
  {
    var q := p.offset / p.limit;
    DivBracket(p.offset, p.limit);
    if q <= MAX_INT then
      MulMonotone(q + 1, MAX_INT + 1, p.limit);
      Ok(q)
    else
      MulMonotone(MAX_INT + 1, q, p.limit);
      Err(Arithmetic)
  }

  /** hasPrevious, as written: the offset is strictly past one page. */
  predicate HasPrevious(p: PageRequest) {
    p.offset > p.limit
  }

  /** next: the request one page further on (the long sum wraps around in
      Java, and a wrapped, negative offset is rejected by the constructor). */
  function Next(p: PageRequest): (r: Result<PageRequest>)
    requires Valid(p)
    ensures r.Ok? <==> p.offset + p.limit <= MAX_LONG
    ensures r.Ok? ==> r.value == PageRequest(p.offset + p.limit, p.limit, p.sort)
    ensures r.Err? ==> r.error == IllegalArgument(OFFSET_MESSAGE)
  {
    NewPageRequest(WrapLong(p.offset + p.limit), p.limit, p.sort)
  }

  /** first: offset 0, same size and sort. */
  function First(p: PageRequest): (r: PageRequest)
    requires Valid(p)
    ensures Valid(r) && r.offset == 0 && r.limit == p.limit && r.sort == p.sort
    ensures PageNumber(r) == Ok(0)
  {
    NewPageRequest(0, p.limit, p.sort).value
  }

  /** The private previous(): one page back when hasPrevious, else itself. */
  function Previous(p: PageRequest): (r: PageRequest)
    requires Valid(p)
    ensures Valid(r) && r.limit == p.limit && r.sort == p.sort
    ensures HasPrevious(p) ==> r.offset == p.offset - p.limit
    ensures !HasPrevious(p) ==> r == p
  {
    if HasPrevious(p) then NewPageRequest(p.offset - p.limit, p.limit, p.sort).value else p
  }

  /** previousOrFirst: one page back, or the first page; never a negative
      offset, and always a step back unless already at offset 0. */
  function PreviousOrFirst(p: PageRequest): (r: PageRequest)
    requires Valid(p)
    ensures Valid(r) && r.limit == p.limit && r.sort == p.sort
    ensures r.offset == if p.offset > p.limit then p.offset - p.limit else 0
    ensures 0 <= r.offset <= p.offset && (p.offset > 0 ==> r.offset < p.offset)
  {
    if HasPrevious(p) then Previous(p) else First(p)
  }

  /** withPage: not supported by an offset-based request. */
  function WithPage(p: PageRequest, pageNumber: int): (r: Result<PageRequest>)
    requires Valid(p)
    ensures r == Err(UnsupportedOperation)
  {
    Err(UnsupportedOperation)
  }

  /** Going one page on and then back returns the request itself. */
  lemma PreviousOrFirstAfterNext(p: PageRequest)
    requires Valid(p) && Next(p).Ok?
    ensures Valid(Next(p).value) && PreviousOrFirst(Next(p).value) == p
  {
  }

  /** next advances the page number by exactly one. */
  lemma NextPageNumber(p: PageRequest)
    requires Valid(p) && Next(p).Ok? && PageNumber(p).Ok? && PageNumber(Next(p).value).Ok?
    ensures PageNumber(Next(p).value).value == PageNumber(p).value + 1
  {
    var n := Next(p).value;
    var q, m := PageNumber(p).value, PageNumber(n).value;
    assert n.offset == p.offset + p.limit && n.limit == p.limit;
    MulSucc(q, p.limit);
    MulSucc(q + 1, p.limit);
    QuotientUnique(n.offset, p.limit, m, q + 1);
  }

  /** Integer division brackets the dividend between consecutive multiples. */
  lemma DivBracket(o: int, l: int)
    requires o >= 0 && l >= 1
    ensures (o / l) * l <= o < (o / l + 1) * l
  {
    MulSucc(o / l, l);
  }

  lemma MulSucc(a: int, l: int)
    ensures (a + 1) * l == a * l + l
  {
  }

  /** Only one quotient brackets a number between consecutive multiples. */
  lemma QuotientUnique(a: int, l: int, x: int, y: int)
    requires l > 0 && x * l <= a < (x + 1) * l && y * l <= a < (y + 1) * l
    ensures x == y
  {
    if x < y {
      MulMonotone(x + 1, y, l);
    } else if y < x {
      MulMonotone(y + 1, x, l);
    }
  }

  /** The as-written hasPrevious disagrees with the page number on the
      second page: offset == limit is page 1, yet no previous page is
      reported, although previousOrFirst does move back. */
  lemma HasPreviousMissesSecondPage()
    ensures var p := PageRequest(10, 10, []);
      Valid(p) && PageNumber(p) == Ok(1) && !HasPrevious(p) && PreviousOrFirst(p).offset != p.offset
  {
    var p := PageRequest(10, 10, []);
    assert PageNumber(p).value == 1;
  }

  /** hasPrevious as evidently intended: the request is past the first page. */
  predicate HasPreviousCorrected(p: PageRequest) {
    p.offset >= p.limit
  }

  /** The corrected hasPrevious holds exactly when the page number is
      positive. */
  lemma HasPreviousCorrectedMatchesPageNumber(p: PageRequest)
    requires Valid(p) && PageNumber(p).Ok?
    ensures HasPreviousCorrected(p) <==> PageNumber(p).value > 0
  {
    var q := PageNumber(p).value;
    if q == 0 {
      assert (q + 1) * p.limit == p.limit;
    } else {
      MulMonotone(1, q, p.limit);
    }
  }

  lemma MulMonotone(a: int, b: int, c: int)
    requires a <= b && c >= 0
    ensures a * c <= b * c
  {
  }

  /** previousOrFirst guarded by the corrected hasPrevious moves to the same
      request as the source's, so the correction changes only hasPrevious. */
  lemma CorrectedPreviousOrFirst(p: PageRequest)
    requires Valid(p)
    ensures PreviousOrFirst(p) == if HasPreviousCorrected(p) then PageRequest(p.offset - p.limit, p.limit, p.sort) else First(p)
  {
  }
}
