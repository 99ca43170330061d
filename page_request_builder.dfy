/** PageRequestBuilder: takes the "_page" entry out of a filter map, fills in
    its defaults, and turns it into an offset-based page request with a
    clamped limit and the sort orders parsed from "+f" / "-f" / "f" tokens. */
module PageRequestBuilder {
  import opened Results
  import opened Text
  import opened Values
  import opened JavaNumbers
  import opened StringUtils
  import opened Sorting
  import opened OffsetBasedPageRequest
  import opened JavaMaps

  const MIN_LIMIT: int := 1
  const MIN_OFFSET: int := 0
  const DEFAULT_LIMIT: int := 10000
  const MAX_LIMIT: int := 10000000
  const LIMIT: string := "limit"
  const OFFSET: string := "offset"
  const PAGE_PAR: string := "_page"
  const SORT: string := "sort"

  // ---------------------------------------------------------------- limits

  /** getValidLimitWithoutMaxRestriction: the default for a null limit, and
      never below MIN_LIMIT. */
  function GetValidLimitWithoutMaxRestriction(limit: Option<int>): (r: int)
    ensures r >= MIN_LIMIT
    ensures limit.None? ==> r == DEFAULT_LIMIT
    ensures limit.Some? && limit.value >= MIN_LIMIT ==> r == limit.value
  {
    if limit.None? then DEFAULT_LIMIT
    else if limit.value < MIN_LIMIT then MIN_LIMIT
    else limit.value
  }

  /** getValidLimit: the limit clamped into [MIN_LIMIT, MAX_LIMIT], and the
      default for a null limit; a limit already in range is kept. */
  function GetValidLimit(limit: Option<int>): (r: int)
    ensures MIN_LIMIT <= r <= MAX_LIMIT
    ensures limit.None? ==> r == DEFAULT_LIMIT
    ensures limit.Some? && MIN_LIMIT <= limit.value <= MAX_LIMIT ==> r == limit.value
    ensures limit.Some? && limit.value < MIN_LIMIT ==> r == MIN_LIMIT
    ensures limit.Some? && limit.value > MAX_LIMIT ==> r == MAX_LIMIT
  {
    var l := if limit.None? then DEFAULT_LIMIT else limit.value;
    var m := GetValidLimitWithoutMaxRestriction(Some(l));
    if m < MAX_LIMIT then m else MAX_LIMIT
  }

  // ---------------------------------------------------------------- sort orders

  /** getOrder as written: the token is camel-cased; a leading '-' gives
      DESC on the rest, a leading '+' ASC on the rest, anything else ASC on
      the trimmed token. Sort.Order rejects a property without text. The
      rest after a sign is not trimmed. */
  function GetOrderAsWritten(value: string): Result<Order> {
    var v := CamelCase(value);
    if StartsWith(v, "-") then NewOrder(DESC, v[1..])
    else if StartsWith(v, "+") then NewOrder(ASC, v[1..])
    else NewOrder(ASC, Trim(v))
  }

  /** getOrder as evidently intended: the property is trimmed after a sign
      as well, so "- title" sorts by "title". */
  function GetOrder(value: string): Result<Order> {
    var v := CamelCase(value);
    if StartsWith(v, "-") then NewOrder(DESC, Trim(v[1..]))
    else if StartsWith(v, "+") then NewOrder(ASC, Trim(v[1..]))
    else NewOrder(ASC, Trim(v))
  }

  /** The token rules for a token without underscores (camel-casing leaves
      it as it is). */
  lemma GetOrderRules(f: string)
    requires '_' !in f
    ensures GetOrder("-" + f) == NewOrder(DESC, Trim(f))
    ensures GetOrder("+" + f) == NewOrder(ASC, Trim(f))
    ensures !StartsWith(f, "-") && !StartsWith(f, "+") ==> GetOrder(f) == NewOrder(ASC, Trim(f))
  {
    assert '_' !in "-" + f && '_' !in "+" + f;
    CamelCaseFixedPoints("-" + f);
    CamelCaseFixedPoints("+" + f);
    CamelCaseFixedPoints(f);
    assert ("-" + f)[1..] == f && ("+" + f)[1..] == f;
  }

  /** Every property getOrder yields is trimmed. */
  lemma GetOrderTrimmed(value: string)
    requires GetOrder(value).Ok?
    ensures Trim(GetOrder(value).value.property) == GetOrder(value).value.property
  {
    var v := CamelCase(value);
    TrimTrimmed(v);
    if |v| > 0 {
      TrimTrimmed(v[1..]);
    }
  }

  /** The correction changes getOrder only where whitespace follows the sign:
      on every other token both give the same order. */
  lemma GetOrderAgrees(value: string)
    requires var v := CamelCase(value); (StartsWith(v, "-") || StartsWith(v, "+")) ==> Trim(v[1..]) == v[1..]
    ensures GetOrder(value) == GetOrderAsWritten(value)
  {
  }

  /** As written, "- title" keeps the space: Sort prints " title: DESC". */
  lemma DashSpaceTitleAsWritten()
    ensures GetOrderAsWritten("- title") == Ok(Order(DESC, " title"))
    ensures OrderString(Order(DESC, " title")) != "title: DESC"
  {
    assert '_' !in "- title";
    CamelCaseFixedPoints("- title");
    assert "- title"[..1] == "-";
    assert "- title"[1..] == " title";
    assert HasText(" title") by { assert !IsWhitespace(" title"[1]); }
    assert OrderString(Order(DESC, " title"))[0] == ' ';
  }

  /** Corrected, "- title" sorts by title, descending, as "title: DESC". */
  lemma DashSpaceTitle()
    ensures GetOrder("- title") == Ok(Order(DESC, "title"))
    ensures SortString([Order(DESC, "title")]) == "title: DESC"
  {
    assert '_' !in "- title";
    CamelCaseFixedPoints("- title");
    assert "- title"[..1] == "-";
    assert "- title"[1..] == " title";
    SpaceTitleTrimmed();
    TitleDescString();
  }

  lemma TitleDescString()
    ensures SortString([Order(DESC, "title")]) == "title: DESC"
  {
    SortStringOne(Order(DESC, "title"));
    TitleDescText();
  }

  lemma SpaceTitleTrimmed()
    ensures Trim(" title") == "title" && HasText("title")
  {
    assert " title"[1..] == "title";
    assert !IsWhitespace("title"[0]);
  }

  lemma TitleDescText()
    ensures OrderString(Order(DESC, "title")) == "title: DESC"
  {
  }

  /** A lone sign leaves no property, which Sort.Order rejects. */
  lemma LoneSignRejected()
    ensures GetOrder("-") == Err(IllegalArgument(PROPERTY_MESSAGE))
    ensures GetOrder("+") == Err(IllegalArgument(PROPERTY_MESSAGE))
  {
    GetOrderRules("");
    assert "-" + "" == "-" && "+" + "" == "+";
  }

  /** One element of the sort list passed to getOrder: the unchecked cast to
      String fails on anything else, and toCamelCase fails on null. */
  function TokenOrder(v: Value): Result<Order> {
    match v
    case Str(s) => GetOrder(s)
    case Null => Err(NullPointer)
    case _ => Err(ClassCast)
  }

  /** sortingFields.stream().map(getOrder).toList(): one order per token, in
      token order, or the exception of the first token that fails. */
  function SortOrders(tokens: seq<Value>): (r: Result<seq<Order>>)
    ensures r.Ok? ==> |r.value| == |tokens| && forall i :: 0 <= i < |tokens| ==> TokenOrder(tokens[i]) == Ok(r.value[i])
    ensures r.Err? ==> exists i :: 0 <= i < |tokens| && TokenOrder(tokens[i]) == Err(r.error)
                                   && forall j :: 0 <= j < i ==> TokenOrder(tokens[j]).Ok?
    decreases |tokens|
  {
    if tokens == [] then Ok([])
    else
      var rest := SortOrders(tokens[1..]);
      var r := Prepend(Unit(TokenOrder(tokens[0])), rest);
      SortOrdersCons(tokens, rest, r);
      r
  }

  /** The contract of SortOrders carries over from the tail to the whole
      list when the head token's order is put in front. */
  lemma SortOrdersCons(tokens: seq<Value>, rest: Result<seq<Order>>, r: Result<seq<Order>>)
    requires |tokens| > 0 && r == Prepend(Unit(TokenOrder(tokens[0])), rest)
    requires rest.Ok? ==> |rest.value| == |tokens| - 1 && forall i :: 0 <= i < |tokens| - 1 ==> TokenOrder(tokens[1..][i]) == Ok(rest.value[i])
    requires rest.Err? ==> exists i :: 0 <= i < |tokens| - 1 && TokenOrder(tokens[1..][i]) == Err(rest.error)
                                   && forall j :: 0 <= j < i ==> TokenOrder(tokens[1..][j]).Ok?
    ensures r.Ok? ==> |r.value| == |tokens| && forall i :: 0 <= i < |tokens| ==> TokenOrder(tokens[i]) == Ok(r.value[i])
    ensures r.Err? ==> exists i :: 0 <= i < |tokens| && TokenOrder(tokens[i]) == Err(r.error)
                                   && forall j :: 0 <= j < i ==> TokenOrder(tokens[j]).Ok?
  {
    var head := TokenOrder(tokens[0]);
    if head.Err? {
      assert TokenOrder(tokens[0]) == Err(r.error);
    } else if rest.Err? {
      var i :| 0 <= i < |tokens| - 1 && TokenOrder(tokens[1..][i]) == Err(rest.error)
               && forall j :: 0 <= j < i ==> TokenOrder(tokens[1..][j]).Ok?;
      assert TokenOrder(tokens[i + 1]) == Err(r.error);
      forall j | 0 <= j < i + 1 ensures TokenOrder(tokens[j]).Ok? {
        if j > 0 { assert tokens[j] == tokens[1..][j - 1]; }
      }
    } else {
      forall i | 0 <= i < |tokens| ensures TokenOrder(tokens[i]) == Ok(r.value[i]) {
        if i > 0 { assert tokens[i] == tokens[1..][i - 1]; }
      }
    }
  }

  /** mapSortingField for one order: the order rebuilt from its direction
      and property, and a rejected property reported as a HiperBoot error. */
  function MapSortingField(o: Order): (r: Result<Order>)
    ensures HasText(o.property) <==> r == Ok(o)
    ensures !HasText(o.property) ==> r == Err(HiperBoot("Wrong sorting parameter " + o.property))
  {
    var m := NewOrder(o.direction, o.property);
    if m.Ok? then Ok(m.value) else Err(HiperBoot("Wrong sorting parameter " + o.property))
  }

  /** mapSortingFields as a value: the orders rebuilt one by one, front to
      back, stopping at the first that fails. */
  function MappedSortingFields(orders: seq<Order>): (r: Result<seq<Order>>)
    ensures r.Ok? <==> forall i :: 0 <= i < |orders| ==> HasText(orders[i].property)
    ensures r.Ok? ==> r.value == orders
    decreases |orders|
  {
    if orders == [] then Ok([])
    else
      var r := Prepend(Unit(MapSortingField(orders[0])), MappedSortingFields(orders[1..]));
      assert r.Ok? ==> r.value == orders by {
        if r.Ok? { assert orders == [orders[0]] + orders[1..]; }
      }
      assert (forall i :: 0 <= i < |orders| ==> HasText(orders[i].property)) ==> r.Ok? by {
        if forall i :: 0 <= i < |orders| ==> HasText(orders[i].property) {
          assert forall i :: 0 <= i < |orders[1..]| ==> HasText(orders[1..][i].property) by {
            forall i | 0 <= i < |orders[1..]| ensures HasText(orders[1..][i].property) {
              assert orders[1..][i] == orders[i + 1];
            }
          }
        }
      }
      r
  }

  /** The first order without text is the one reported. */
  lemma {:induction false} MappedSortingFieldsError(orders: seq<Order>)
    requires MappedSortingFields(orders).Err?
    ensures exists i :: (0 <= i < |orders| && !HasText(orders[i].property)
      && (forall j :: 0 <= j < i ==> HasText(orders[j].property))
      && MappedSortingFields(orders).error == HiperBoot("Wrong sorting parameter " + orders[i].property))
    decreases |orders|
  {
    if HasText(orders[0].property) {
      MappedSortingFieldsError(orders[1..]);
      var i :| 0 <= i < |orders[1..]| && !HasText(orders[1..][i].property)
        && (forall j :: 0 <= j < i ==> HasText(orders[1..][j].property))
        && MappedSortingFields(orders[1..]).error == HiperBoot("Wrong sorting parameter " + orders[1..][i].property);
      assert orders[i + 1] == orders[1..][i];
      assert forall j :: 0 <= j < i + 1 ==> HasText(orders[j].property) by {
        forall j | 0 <= j < i + 1 ensures HasText(orders[j].property) {
          if j > 0 { assert orders[j] == orders[1..][j - 1]; }
        }
      }
    } else {
      assert !HasText(orders[0].property);
    }
  }

  lemma MappedSortingFieldsAt(orders: seq<Order>, i: nat)
    requires i < |orders|
    ensures MappedSortingFields(orders[i..]) == Prepend(Unit(MapSortingField(orders[i])), MappedSortingFields(orders[i + 1..]))
  {
    assert orders[i..][1..] == orders[i + 1..];
  }

  /** mapSortingFields: the forEach loop that rebuilds each order into a new
      list. */
  method MapSortingFields(sortingFields: seq<Order>) returns (r: Result<seq<Order>>)
    ensures r == MappedSortingFields(sortingFields)
  {
    ghost var all := MappedSortingFields(sortingFields);
    var mapped: seq<Order> := [];
    var i := 0;
    SuffixStart(all);
    while i < |sortingFields|
      invariant 0 <= i <= |sortingFields|
      invariant SuffixInvariant(all, MappedSortingFields(sortingFields[i..]), mapped)
    {
      MappedSortingFieldsAt(sortingFields, i);
      var m := MapSortingField(sortingFields[i]);
      SuffixStep(all, Unit(m), MappedSortingFields(sortingFields[i + 1..]), mapped);
      if m.Err? {
        return Err(m.error);
      }
      mapped := mapped + [m.value];
      i := i + 1;
    }
    assert sortingFields[i..] == [];
    SuffixEnd(all, mapped);
    return Ok(mapped);
  }

  /** Orders made by getOrder always have text, so mapSortingFields hands
      them back unchanged and its error branch is never taken. */
  lemma ParsedOrdersKept(tokens: seq<Value>)
    requires SortOrders(tokens).Ok?
    ensures MappedSortingFields(SortOrders(tokens).value) == SortOrders(tokens)
  {
    var os := SortOrders(tokens).value;
    forall i | 0 <= i < |os| ensures HasText(os[i].property) {
      assert TokenOrder(tokens[i]) == Ok(os[i]);
    }
  }

  // ---------------------------------------------------------------- page requests

  /** getPageRequest(offset, limit, sortingFields): the limit is validated,
      a non-empty sort list becomes the orders (its errors come first), and
      the constructor unboxes and checks the offset. */
  function GetPageRequestSorted(offset: Option<int>, limit: Option<int>, sortingFields: Option<seq<Value>>): (r: Result<PageRequest>)
    requires offset.Some? ==> InInt(offset.value)
    ensures r.Ok? ==> Valid(r.value) && Some(r.value.offset) == offset && r.value.limit == GetValidLimit(limit)
    ensures r.Ok? && sortingFields.Some? ==> SortOrders(sortingFields.value) == Ok(r.value.sort)
    ensures r.Ok? && sortingFields.None? ==> r.value.sort == []
    ensures sortingFields.Some? && SortOrders(sortingFields.value).Err? ==> r == Err(SortOrders(sortingFields.value).error)
    ensures (sortingFields.None? || SortOrders(sortingFields.value).Ok?) ==>
      (r.Ok? <==> offset.Some? && offset.value >= MIN_OFFSET)
      && (offset.None? ==> r == Err(NullPointer))
      && (offset.Some? && offset.value < MIN_OFFSET ==> r == Err(IllegalArgument(OFFSET_MESSAGE)))
  {
    var validLimit := GetValidLimit(limit);
    var sort :-
      if sortingFields.Some? && |sortingFields.value| > 0 then
        var orders :- SortOrders(sortingFields.value);
        ParsedOrdersKept(sortingFields.value);
        MappedSortingFields(orders)
      else Ok([]);
    if offset.None? then Err(NullPointer)
    else NewPageRequest(offset.value, validLimit, sort)
  }

  /** getPageRequest(offset, limit): the same request with no sort list. */
  function GetPageRequestUnsorted(offset: Option<int>, limit: Option<int>): (r: Result<PageRequest>)
    requires offset.Some? ==> InInt(offset.value)
    ensures r == GetPageRequestSorted(offset, limit, None)
  {
    var validLimit := GetValidLimit(limit);
    if offset.None? then Err(NullPointer)
    else NewPageRequest(offset.value, validLimit, [])
  }

  /** (Integer) map.get(key), unboxed to an int. */
  function UnboxInteger(v: Value): Result<int> {
    match v
    case Int(i) => Ok(i)
    case Null => Err(NullPointer)
    case _ => Err(ClassCast)
  }

  /** (List<String>) map.get("sort"): a list or null; the element type is
      not checked here. */
  function SortList(v: Value): Result<Option<seq<Value>>> {
    match v
    case Null => Ok(None)
    case List(items) => Ok(Some(items))
    case _ => Err(ClassCast)
  }

  /** A java.lang.Integer stored in the map is within the int range. */
  predicate IntegerValue(v: Value) {
    v.Int? ==> InInt(v.i)
  }

  /** getPageRequest(page map): null for a null map; the limit, then the
      offset, must be Integers, the sort a list or null. */
  function GetPageRequest(filter: Option<Entries>): (r: Result<Option<PageRequest>>)
    requires filter.Some? ==> IntegerValue(Get(filter.value, OFFSET))
    ensures filter.None? <==> r == Ok(None)
    ensures r.Ok? && r.value.Some? ==>
      var f := filter.value;
      Get(f, LIMIT).Int? && Get(f, OFFSET) == Int(r.value.value.offset)
      && r.value.value.limit == GetValidLimit(Some(Get(f, LIMIT).i))
    ensures filter.Some? && !Get(filter.value, LIMIT).Int? ==> r == Err(UnboxInteger(Get(filter.value, LIMIT)).error)
  {
    if filter.None? then Ok(None)
    else
      var f := filter.value;
      var limit :- UnboxInteger(Get(f, LIMIT));
      var offset :- UnboxInteger(Get(f, OFFSET));
      var sort :- SortList(Get(f, SORT));
      var p :- GetPageRequestSorted(Some(offset), Some(limit), sort);
      Ok(Some(p))
  }

  // ---------------------------------------------------------------- extracting the page

  /** The page map createDefaultPage nests under "_page". */
  function DefaultPage(): Entries {
    [(LIMIT, Int(DEFAULT_LIMIT)), (OFFSET, Int(MIN_OFFSET))]
  }

  /** createDefaultPage: a map holding only "_page", whose value is the
      default page (limit 10000, offset 0). */
  function CreateDefaultPage(): (head: Entries)
    ensures Keys(head) == [PAGE_PAR] && Get(head, PAGE_PAR) == Map(false, DefaultPage())
    ensures Get(DefaultPage(), LIMIT) == Int(DEFAULT_LIMIT) && Get(DefaultPage(), OFFSET) == Int(MIN_OFFSET)
  {
    [(PAGE_PAR, Map(false, DefaultPage()))]
  }

  /** The sort entry as extractPagination leaves it: a String is split on
      ",", untrimmed, into a list; anything else stays. */
  function SplitSort(v: Value): (r: Value)
    ensures v.Str? ==> r == List(Strs(JavaSplit(v.s, ',')))
    ensures !v.Str? ==> r == v
  {
    if v.Str? then List(Strs(JavaSplit(v.s, ','))) else v
  }

  /** The page map after extractPagination has filled in its defaults. */
  function CompletedPage(page: Entries): Entries {
    var p1 := if Get(page, LIMIT).Null? then Put(page, LIMIT, Int(DEFAULT_LIMIT)) else page;
    var p2 := if Get(p1, OFFSET).Null? then Put(p1, OFFSET, Int(MIN_OFFSET)) else p1;
    var s := Get(p2, SORT);
    if s.Str? then Put(p2, SORT, SplitSort(s)) else p2
  }

  /** What the completed page holds: a missing (or null) limit is the
      default, a missing offset is 0, a String sort is split, and every other
      entry is as it was. */
  lemma CompletedPageReads(page: Entries, q: string)
    ensures Get(CompletedPage(page), q) ==
      if q == LIMIT then (if Get(page, LIMIT).Null? then Int(DEFAULT_LIMIT) else Get(page, LIMIT))
      else if q == OFFSET then (if Get(page, OFFSET).Null? then Int(MIN_OFFSET) else Get(page, OFFSET))
      else if q == SORT then SplitSort(Get(page, SORT))
      else Get(page, q)
  {
    var p1 := if Get(page, LIMIT).Null? then Put(page, LIMIT, Int(DEFAULT_LIMIT)) else page;
    var p2 := if Get(p1, OFFSET).Null? then Put(p1, OFFSET, Int(MIN_OFFSET)) else p1;
    GetPut(page, LIMIT, Int(DEFAULT_LIMIT), q);
    GetPut(page, LIMIT, Int(DEFAULT_LIMIT), OFFSET);
    GetPut(page, LIMIT, Int(DEFAULT_LIMIT), SORT);
    GetPut(p1, OFFSET, Int(MIN_OFFSET), q);
    GetPut(p1, OFFSET, Int(MIN_OFFSET), SORT);
    GetPut(p2, SORT, SplitSort(Get(p2, SORT)), q);
  }

  /** The filter map after extractPagination: "_page" removed, and "sort"
      too when there was no page. */
  function FilterAfterExtraction(filter: Entries): Entries {
    var rest := Remove(filter, PAGE_PAR);
    if Get(filter, PAGE_PAR).Null? then Remove(rest, SORT) else rest
  }

  /** The page map extractPagination returns: the "_page" map completed, or,
      without one, the map createDefaultPage returns with the filter's sort
      moved into it and then completed; a "_page" that is not a map fails
      the cast. */
  function ExtractedPage(filter: Entries): Result<Entries> {
    var page := Get(filter, PAGE_PAR);
    if page.Null? then Ok(CompletedPage(Put(CreateDefaultPage(), SORT, Get(filter, SORT))))
    else if page.Map? then Ok(CompletedPage(page.entries))
    else Err(ClassCast)
  }

  /** extractPagination fills in the page defaults: on success the page has
      a limit and an offset, and no String sort. */
  lemma ExtractedPageComplete(filter: Entries)
    requires ExtractedPage(filter).Ok?
    ensures var page := ExtractedPage(filter).value;
      !Get(page, LIMIT).Null? && !Get(page, OFFSET).Null? && !Get(page, SORT).Str?
  {
    var p := Get(filter, PAGE_PAR);
    var raw := if p.Null? then Put(CreateDefaultPage(), SORT, Get(filter, SORT)) else p.entries;
    CompletedPageReads(raw, LIMIT);
    CompletedPageReads(raw, OFFSET);
    CompletedPageReads(raw, SORT);
  }

  /** Without "_page" the page has limit 10000, offset 0 and the filter's
      sort entry (split when a String); it also keeps the stray "_page" entry
      of the map createDefaultPage returns. */
  lemma DefaultExtraction(filter: Entries)
    requires Get(filter, PAGE_PAR).Null?
    ensures ExtractedPage(filter).Ok?
    ensures var page := ExtractedPage(filter).value;
      Get(page, LIMIT) == Int(DEFAULT_LIMIT) && Get(page, OFFSET) == Int(MIN_OFFSET)
      && Get(page, SORT) == SplitSort(Get(filter, SORT))
      && Get(page, PAGE_PAR) == Map(false, DefaultPage())
  {
    var raw := Put(CreateDefaultPage(), SORT, Get(filter, SORT));
    GetPut(CreateDefaultPage(), SORT, Get(filter, SORT), LIMIT);
    GetPut(CreateDefaultPage(), SORT, Get(filter, SORT), OFFSET);
    GetPut(CreateDefaultPage(), SORT, Get(filter, SORT), SORT);
    GetPut(CreateDefaultPage(), SORT, Get(filter, SORT), PAGE_PAR);
    CompletedPageReads(raw, LIMIT);
    CompletedPageReads(raw, OFFSET);
    CompletedPageReads(raw, SORT);
    CompletedPageReads(raw, PAGE_PAR);
  }

  /** The filter loses "_page" (and, without a page, "sort"); every other
      entry is untouched. */
  lemma ExtractionRemovesPage(filter: Entries)
    ensures !ContainsKey(FilterAfterExtraction(filter), PAGE_PAR)
    ensures Get(filter, PAGE_PAR).Null? ==> !ContainsKey(FilterAfterExtraction(filter), SORT)
    ensures forall q :: q != PAGE_PAR && (q != SORT || !Get(filter, PAGE_PAR).Null?) ==>
      Get(FilterAfterExtraction(filter), q) == Get(filter, q)
  {
    var rest := Remove(filter, PAGE_PAR);
    GetRemove(filter, PAGE_PAR, PAGE_PAR);
    GetRemove(rest, SORT, PAGE_PAR);
    GetRemove(rest, SORT, SORT);
    forall q | q != PAGE_PAR && (q != SORT || !Get(filter, PAGE_PAR).Null?)
      ensures Get(FilterAfterExtraction(filter), q) == Get(filter, q)
    {
      GetRemove(filter, PAGE_PAR, q);
      GetRemove(rest, SORT, q);
    }
  }

  /** The three if-statements of extractPagination on the page map. */
  method CompletePage(page: MapObject)
    modifies page
    ensures page.entries == CompletedPage(old(page.entries)) && page.linked == old(page.linked)
  {
    if page.Get(LIMIT).Null? {
      page.Put(LIMIT, Int(DEFAULT_LIMIT));
    }
    if page.Get(OFFSET).Null? {
      page.Put(OFFSET, Int(MIN_OFFSET));
    }
    var sort := page.Get(SORT);
    if sort.Str? {
      page.Put(SORT, List(Strs(JavaSplit(sort.s, ','))));
    }
  }

  /** extractPagination: removes the page from the filter map in place and
      returns it completed. */
  method ExtractPagination(filter: MapObject) returns (r: Result<Entries>)
    modifies filter
    ensures filter.entries == FilterAfterExtraction(old(filter.entries)) && filter.linked == old(filter.linked)
    ensures r == ExtractedPage(old(filter.entries))
  {
    ghost var original := filter.entries;
    var p := filter.Remove(PAGE_PAR);
    var page: MapObject;
    if p.Null? {
      var head := CreateDefaultPage();
      page := new MapObject(false, head);
      GetRemove(original, PAGE_PAR, SORT);
      var sort := filter.Remove(SORT);
      page.Put(SORT, sort);
    } else if p.Map? {
      page := new MapObject(p.linked, p.entries);
    } else {
      return Err(ClassCast);
    }
    CompletePage(page);
    return Ok(page.entries);
  }

  /** getPagination: extractPagination on a copy, so the caller's map is
      not changed. */
  method GetPagination(filter: MapObject) returns (r: Result<Entries>)
    ensures r == ExtractedPage(filter.entries)
  {
    var copy := new MapObject(true, filter.entries);
    r := ExtractPagination(copy);
  }

  /** The request read from a page map holding an Integer limit and offset:
      the three-argument overload on those values and the sort list. */
  lemma PageRequestOf(page: Entries, limit: int, offset: int)
    requires Get(page, LIMIT) == Int(limit) && Get(page, OFFSET) == Int(offset) && InInt(offset)
    requires SortList(Get(page, SORT)).Ok?
    ensures var p := GetPageRequestSorted(Some(offset), Some(limit), SortList(Get(page, SORT)).value);
      (GetPageRequest(Some(page)).Ok? <==> p.Ok?)
      && (p.Ok? ==> GetPageRequest(Some(page)).value == Some(p.value))
  {
    assert UnboxInteger(Get(page, LIMIT)) == Ok(limit);
    assert UnboxInteger(Get(page, OFFSET)) == Ok(offset);
  }

  /** Without "_page" the request starts at offset 0 with the default limit
      (the stray "_page" entry of the default page is never read) and is
      sorted by the filter's own sort entry. */
  lemma DefaultPageRequest(filter: Entries)
    requires Get(filter, PAGE_PAR).Null?
    requires SortList(SplitSort(Get(filter, SORT))).Ok?
    ensures ExtractedPage(filter).Ok?
    ensures IntegerValue(Get(ExtractedPage(filter).value, OFFSET))
    ensures var p := GetPageRequestSorted(Some(MIN_OFFSET), Some(DEFAULT_LIMIT), SortList(SplitSort(Get(filter, SORT))).value);
      var r := GetPageRequest(Some(ExtractedPage(filter).value));
      (r.Ok? <==> p.Ok?) && (p.Ok? ==> r.value == Some(p.value))
  {
    DefaultExtraction(filter);
    PageRequestOf(ExtractedPage(filter).value, DEFAULT_LIMIT, MIN_OFFSET);
  }

  /** Two tokens that each give an order give the two orders in turn. */
  lemma SortOrdersTwo(a: Value, b: Value, oa: Order, ob: Order)
    requires TokenOrder(a) == Ok(oa) && TokenOrder(b) == Ok(ob)
    ensures SortOrders([a, b]) == Ok([oa, ob])
  {
    assert [a, b][1..] == [b];
    assert [b][1..] == [];
    assert SortOrders([]) == Ok([]);
    assert SortOrders([b]) == Prepend(Unit(TokenOrder(b)), SortOrders([]));
    assert [ob] + [] == [ob];
    assert SortOrders([a, b]) == Prepend(Unit(TokenOrder(a)), SortOrders([b]));
    assert [oa] + [ob] == [oa, ob];
  }

  lemma TitlePublishedText()
    ensures "title" + [','] + " published" == "title, published"
  {
  }

  /** A sort string made of two comma-free tokens is split into them. */
  lemma SplitSortTwo(s: string, a: string, b: string)
    requires s == a + [','] + b && ',' !in a && ',' !in b && b != ""
    ensures JavaSplit(s, ',') == [a, b]
    ensures SplitSort(Str(s)) == List([Str(a), Str(b)])
  {
    JavaSplitTwo(a, ',', b);
    assert Strs([a, b]) == [Str(a), Str(b)];
  }

  /** "title, published" splits into "title" and " published". */
  lemma SplitTitlePublished()
    ensures JavaSplit("title, published", ',') == ["title", " published"]
    ensures SplitSort(Str("title, published")) == List([Str("title"), Str(" published")])
  {
    TitlePublishedText();
    SplitSortTwo("title, published", "title", " published");
  }

  lemma TitleOrder()
    ensures GetOrder("title") == Ok(Order(ASC, "title"))
  {
    assert '_' !in "title";
    assert "title"[..1] == "t";
    assert HasText("title") by { assert !IsWhitespace("title"[0]); }
    GetOrderRules("title");
  }

  /** The untrimmed token " published" is trimmed by getOrder. */
  lemma PublishedOrder()
    ensures GetOrder(" published") == Ok(Order(ASC, "published"))
  {
    assert '_' !in " published";
    assert " published"[..1] == " ";
    assert Trim(" published") == "published";
    assert HasText("published") by { assert !IsWhitespace("published"[0]); }
    GetOrderRules(" published");
  }

  /** The tokens give title and published, both ascending. */
  lemma TitlePublishedOrders()
    ensures SortOrders([Str("title"), Str(" published")]) == Ok([Order(ASC, "title"), Order(ASC, "published")])
  {
    TitleOrder();
    PublishedOrder();
    SortOrdersTwo(Str("title"), Str(" published"), Order(ASC, "title"), Order(ASC, "published"));
  }

  /** The two orders print as "title: ASC,published: ASC". */
  lemma TitlePublishedString()
    ensures SortString([Order(ASC, "title"), Order(ASC, "published")]) == "title: ASC,published: ASC"
  {
    SortStringTwo(Order(ASC, "title"), Order(ASC, "published"));
    assert OrderString(Order(ASC, "title")) == "title: ASC";
    assert OrderString(Order(ASC, "published")) == "published: ASC";
    assert "title: ASC" + "," + "published: ASC" == "title: ASC,published: ASC";
  }

  /** A valid offset and limit with the two parsed orders build a request. */
  lemma TitlePublishedSorted(offset: int, limit: int)
    requires 0 <= offset <= MAX_INT && MIN_LIMIT <= limit <= MAX_LIMIT
    ensures GetPageRequestSorted(Some(offset), Some(limit), Some([Str("title"), Str(" published")]))
      == Ok(PageRequest(offset, limit, [Order(ASC, "title"), Order(ASC, "published")]))
  {
    TitlePublishedOrders();
  }

  /** A filter without "_page" whose sort entry yields `tokens` is paged with
      the defaults and gives the request the defaults build with those
      tokens. */
  lemma DefaultSortedRequest(filter: Entries, tokens: seq<Value>, req: PageRequest)
    requires Get(filter, PAGE_PAR).Null?
    requires SortList(SplitSort(Get(filter, SORT))) == Ok(Some(tokens))
    requires GetPageRequestSorted(Some(MIN_OFFSET), Some(DEFAULT_LIMIT), Some(tokens)) == Ok(req)
    ensures ExtractedPage(filter).Ok? && IntegerValue(Get(ExtractedPage(filter).value, OFFSET))
    ensures GetPageRequest(Some(ExtractedPage(filter).value)) == Ok(Some(req))
  {
    DefaultPageRequest(filter);
  }

  /** The filter holding only sort "title, published" has no "_page". */
  lemma TitlePublishedNoPage(filter: Entries)
    requires filter == [(SORT, Str("title, published"))]
    ensures Get(filter, PAGE_PAR).Null?
  {
    GetSingle(SORT, Str("title, published"), PAGE_PAR);
    assert SORT[0] != PAGE_PAR[0];
  }

  /** Its sort entry splits into the two tokens. */
  lemma TitlePublishedTokens(v: Value, tokens: seq<Value>)
    requires v == Str("title, published")
    requires tokens == [Str("title"), Str(" published")]
    ensures SortList(SplitSort(v)) == Ok(Some(tokens))
  {
    SplitTitlePublished();
  }

  /** A filter holding only sort "title, published" is paged with the
      defaults (offset 0, limit 10000) and sorted by title, then published. */
  lemma TitlePublishedRequest(filter: Entries)
    requires filter == [(SORT, Str("title, published"))]
    ensures ExtractedPage(filter).Ok? && IntegerValue(Get(ExtractedPage(filter).value, OFFSET))
    ensures GetPageRequest(Some(ExtractedPage(filter).value))
      == Ok(Some(PageRequest(MIN_OFFSET, DEFAULT_LIMIT, [Order(ASC, "title"), Order(ASC, "published")])))
  {
    var tokens := [Str("title"), Str(" published")];
    TitlePublishedNoPage(filter);
    assert Get(filter, SORT) == Str("title, published") by {
      GetSingle(SORT, Str("title, published"), SORT);
    }
    TitlePublishedTokens(Get(filter, SORT), tokens);
    var req := PageRequest(MIN_OFFSET, DEFAULT_LIMIT, [Order(ASC, "title"), Order(ASC, "published")]);
    assert GetPageRequestSorted(Some(MIN_OFFSET), Some(DEFAULT_LIMIT), Some(tokens)) == Ok(req) by {
      TitlePublishedSorted(MIN_OFFSET, DEFAULT_LIMIT);
    }
    DefaultSortedRequest(filter, tokens, req);
  }
}
