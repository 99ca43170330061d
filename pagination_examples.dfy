/** The book pagination examples end to end: a filter built with
    hbEquals("author.id", "3").sortedBy("title, published").offset(o).limit(l),
    its page request, and the pagination descriptor over eight rows. */
module PaginationExamples {
  import opened Results
  import opened JavaNumbers
  import opened Text
  import opened Values
  import opened Sorting
  import opened OffsetBasedPageRequest
  import opened PageRequestBuilder
  import opened PaginationImpl
  import HBUtil
  import HBUtils

  /** "author.id" splits into its two segments. */
  lemma AuthorIdSplit()
    ensures JavaSplit("author.id", '.') == ["author", "id"]
  {
    assert "author" + ['.'] + "id" == "author.id";
    JavaSplitTwo("author", '.', "id");
  }

  /** hbEquals("author.id", "3") is {author: {id: "3"}}, without a page. */
  lemma AuthorFilter()
    ensures HBUtils.EqualsEntries("author.id", ["3"]).Ok?
    ensures !ContainsKey(HBUtils.EqualsEntries("author.id", ["3"]).value, PAGE_PAR)
  {
    AuthorIdSplit();
    var es := HBUtils.EqualsEntries("author.id", ["3"]).value;
    assert '.' in "author.id" by { assert "author.id"[6] == '.'; }
    assert |es| == 1 && es[0].0 == "author";
    assert Keys(es) == ["author"];
    assert "author"[0] != PAGE_PAR[0];
  }

  /** A filter without "_page", chained with sortedBy(sort).offset(o).limit(l),
      is read back as the request the sorted three-argument overload builds
      from o, l and the sort split on ",". */
  lemma ChainedRequest(f: Entries, es: Entries, sort: string, offset: int, limit: int, req: PageRequest)
    requires !ContainsKey(es, PAGE_PAR) && InInt(offset) && f == HBUtils.Chain(es, sort, offset, limit)
    requires GetPageRequestSorted(Some(offset), Some(limit), Some(Strs(JavaSplit(sort, ',')))) == Ok(req)
    ensures ExtractedPage(f).Ok? && IntegerValue(Get(ExtractedPage(f).value, OFFSET))
    ensures GetPageRequest(Some(ExtractedPage(f).value)) == Ok(Some(req))
  {
    var page := CompletedPage(HBUtil.StartSizeSortPage(Some(offset), Some(limit), Some(sort)));
    assert ExtractedPage(f) == Ok(page) by {
      HBUtils.ChainPage(es, sort, offset, limit);
    }
    assert IntegerValue(Get(page, OFFSET)) && GetPageRequest(Some(page)) == Ok(Some(req)) by {
      HBUtil.StartSizeSortRequest(Some(offset), Some(limit), sort);
    }
  }

  /** The book filter with offset o and limit l asks for rows o .. o + l - 1,
      sorted by title and then published, both ascending. */
  lemma BookRequest(offset: int, limit: int)
    requires 0 <= offset <= 0x7FFF_FFFF && MIN_LIMIT <= limit <= MAX_LIMIT
    ensures HBUtils.EqualsEntries("author.id", ["3"]).Ok?
    ensures var f := HBUtils.Chain(HBUtils.EqualsEntries("author.id", ["3"]).value, "title, published", offset, limit);
      ExtractedPage(f).Ok? && IntegerValue(Get(ExtractedPage(f).value, OFFSET))
      && GetPageRequest(Some(ExtractedPage(f).value))
        == Ok(Some(PageRequest(offset, limit, [Order(ASC, "title"), Order(ASC, "published")])))
  {
    AuthorFilter();
    var es := HBUtils.EqualsEntries("author.id", ["3"]).value;
    var req := PageRequest(offset, limit, [Order(ASC, "title"), Order(ASC, "published")]);
    assert GetPageRequestSorted(Some(offset), Some(limit), Some(Strs(JavaSplit("title, published", ',')))) == Ok(req) by {
      SplitTitlePublished();
      assert Strs(["title", " published"]) == [Str("title"), Str(" published")];
      TitlePublishedSorted(offset, limit);
    }
    ChainedRequest(HBUtils.Chain(es, "title, published", offset, limit), es, "title, published", offset, limit, req);
  }

  /** Offset 1 and limit 3 over eight rows: current page 1 of 3, 3 rows a
      page, 8 rows. */
  lemma FirstBookPage()
    ensures var req := PageRequest(1, 3, [Order(ASC, "title"), Order(ASC, "published")]);
      var p := NewPagination(OffsetPage(req, 8).value);
      p.currentPage == 1 && p.totalPages == 3 && p.pageSize == 3 && p.totalRows == 8
      && IsFirst(p) && HasNext(p)
  {
    BookRequest(1, 3);
    OffsetOneLimitThree([Order(ASC, "title"), Order(ASC, "published")]);
  }

  /** Offset 3 and limit 2 over eight rows: current page 2 of 4, 2 rows a
      page, 8 rows. */
  lemma SecondBookPage()
    ensures var req := PageRequest(3, 2, [Order(ASC, "title"), Order(ASC, "published")]);
      var p := NewPagination(OffsetPage(req, 8).value);
      p.currentPage == 2 && p.totalPages == 4 && p.pageSize == 2 && p.totalRows == 8
      && PaginationImpl.HasPrevious(p) && HasNext(p)
  {
    BookRequest(3, 2);
    OffsetThreeLimitTwo([Order(ASC, "title"), Order(ASC, "published")]);
  }
}
