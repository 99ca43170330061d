/** HBUtil: static helpers that build the filter maps the compiler reads
    (an equality, a null test, a negation, a range, a nested sub-entity path)
    and the "_page" entry the pagination code extracts. */
module HBUtil {
  import opened Results
  import opened Text
  import opened Values
  import opened JavaNumbers
  import opened OffsetBasedPageRequest
  import opened PageRequestBuilder

  const NOT: string := "NOT"
  const FROM: string := "from"
  const TO: string := "to"

  /** The value a column is compared with: the one string itself, or the
      list of all of them, in order (List.of(values)). */
  function EqualValue(values: seq<string>): (v: Value)
    ensures |values| == 1 ==> v == Str(values[0])
    ensures |values| != 1 ==> v.List? && |v.items| == |values|
    ensures |values| != 1 ==> forall i :: 0 <= i < |values| ==> v.items[i] == Str(values[i])
  {
    if |values| == 1 then Str(values[0]) else List(Strs(values))
  }

  /** columnEqualValues: one entry, the column with its value or values. */
  function ColumnEqualValues(column: string, values: seq<string>): (es: Entries)
    ensures Keys(es) == [column] && Get(es, column) == EqualValue(values)
  {
    [(column, EqualValue(values))]
  }

  /** columnIsNull: one entry, the column with null. */
  function ColumnIsNull(column: string): (es: Entries)
    ensures Keys(es) == [column] && ContainsKey(es, column) && Get(es, column) == Null
  {
    Put([], column, Null)
  }

  /** columnNotEqualValues: the equality map nested under "NOT". */
  function ColumnNotEqualValues(column: string, values: seq<string>): (es: Entries)
    ensures Keys(es) == [NOT] && Get(es, NOT) == Map(false, ColumnEqualValues(column, values))
  {
    [(NOT, Map(false, ColumnEqualValues(column, values)))]
  }

  /** columnGreaterThan: {column: {from: value}}. */
  function ColumnGreaterThan(column: string, value: string): (es: Entries)
    ensures Keys(es) == [column] && Get(es, column).Map?
    ensures Keys(Get(es, column).entries) == [FROM] && Get(Get(es, column).entries, FROM) == Str(value)
  {
    [(column, Map(true, ColumnEqualValues(FROM, [value])))]
  }

  /** columnSmallerThan: {column: {to: value}}. */
  function ColumnSmallerThan(column: string, value: string): (es: Entries)
    ensures Keys(es) == [column] && Get(es, column).Map?
    ensures Keys(Get(es, column).entries) == [TO] && Get(Get(es, column).entries, TO) == Str(value)
  {
    [(column, Map(true, ColumnEqualValues(TO, [value])))]
  }

  /** columnBetween: {column: {from: from, to: to}}. */
  function ColumnBetween(column: string, from: string, to: string): (es: Entries)
    ensures Keys(es) == [column] && Get(es, column).Map?
    ensures Keys(Get(es, column).entries) == [FROM, TO]
    ensures Get(Get(es, column).entries, FROM) == Str(from) && Get(Get(es, column).entries, TO) == Str(to)
  {
    [(column, Map(true, [(FROM, Str(from)), (TO, Str(to))]))]
  }

  /** The page keys differ from each other (they differ in their first
      letter). */
  lemma PageKeysDistinct()
    ensures LIMIT != OFFSET && LIMIT != SORT && OFFSET != SORT
  {
    assert LIMIT[0] == 'l' && OFFSET[0] == 'o' && SORT[0] == 's';
  }

  /** The page map of getPageWithStartSizeSort: the limit, the offset and,
      only when given, the sort. */
  function StartSizeSortPage(start: Option<int>, size: Option<int>, sort: Option<string>): (es: Entries)
    ensures Get(es, LIMIT) == Int(if size.None? then DEFAULT_LIMIT else size.value)
    ensures Get(es, OFFSET) == Int(if start.None? then MIN_OFFSET else start.value)
    ensures Get(es, SORT) == if sort.None? then Null else Str(sort.value)
    ensures Keys(es) == [LIMIT, OFFSET] + if sort.None? then [] else [SORT]
  {
    PageKeysDistinct();
    var limit := Int(if size.None? then DEFAULT_LIMIT else size.value);
    var offset := Int(if start.None? then MIN_OFFSET else start.value);
    if sort.None? then [(LIMIT, limit), (OFFSET, offset)]
    else
      var es := [(LIMIT, limit), (OFFSET, offset), (SORT, Str(sort.value))];
      assert Get(es[2..], SORT) == Str(sort.value);
      assert Get(es[1..], SORT) == Get(es[2..], SORT);
      es
  }

  /** getPageWithStartSizeSort: a head map holding only "_page". */
  function GetPageWithStartSizeSort(start: Option<int>, size: Option<int>, sort: Option<string>): (head: Entries)
    ensures Keys(head) == [PAGE_PAR]
    ensures Get(head, PAGE_PAR) == Map(false, StartSizeSortPage(start, size, sort))
  {
    [(PAGE_PAR, Map(false, StartSizeSortPage(start, size, sort)))]
  }

  /** The map columnSubEntity builds for keys k0, ..., kn: {k0: {... {kn: leaf}}},
      every level a LinkedHashMap with a single entry. */
  function Nested(keys: seq<string>, leaf: Value): (v: Value)
    requires |keys| >= 1
    ensures v.Map? && v.linked && |v.entries| == 1 && v.entries[0].0 == keys[0]
    decreases |keys|
  {
    if |keys| == 1 then Map(true, [(keys[0], leaf)])
    else Map(true, [(keys[0], Nested(keys[1..], leaf))])
  }

  /** Following a path of keys down nested maps; None once a step is not a
      map or lacks the key. */
  function Lookup(v: Value, path: seq<string>): Option<Value>
    decreases |path|
  {
    if path == [] then Some(v)
    else if v.Map? && ContainsKey(v.entries, path[0]) then Lookup(Get(v.entries, path[0]), path[1..])
    else None
  }

  /** The keys along a chain of single-entry maps, outermost first. */
  function Path(v: Value): seq<string>
    decreases v
  {
    if v.Map? && |v.entries| == 1 && v.entries[0].1.Map? then
      assert v.entries[0] in v.entries;
      [v.entries[0].0] + Path(v.entries[0].1)
    else if v.Map? && |v.entries| == 1 then [v.entries[0].0]
    else []
  }

  /** Following the keys down the nested map reaches the leaf. */
  lemma {:induction false} LookupNested(keys: seq<string>, leaf: Value)
    requires |keys| >= 1
    ensures Lookup(Nested(keys, leaf), keys) == Some(leaf)
    decreases |keys|
  {
    var v := Nested(keys, leaf);
    assert Keys(v.entries) == [keys[0]];
    if |keys| > 1 {
      LookupNested(keys[1..], leaf);
    }
  }

  /** The chain of keys of the nested map is the key sequence itself (when
      the leaf is not a map itself). */
  lemma {:induction false} PathNested(keys: seq<string>, leaf: Value)
    requires |keys| >= 1 && !leaf.Map?
    ensures Path(Nested(keys, leaf)) == keys
    decreases |keys|
  {
    if |keys| > 1 {
      PathNested(keys[1..], leaf);
      assert keys == [keys[0]] + keys[1..];
    }
  }

  /** What columnSubEntity returns: keyString split on "." (trailing empty
      segments dropped, as String.split does), nested around the value; a
      key of dots alone splits into nothing, and keys[keys.length - 1] fails. */
  function SubEntity(keyString: string, value: Value): (r: Result<Value>)
    ensures r.Err? <==> JavaSplit(keyString, '.') == []
    ensures r.Err? ==> r.error == IndexOutOfBounds
    ensures r.Ok? ==> r.value.Map? && Lookup(r.value, JavaSplit(keyString, '.')) == Some(value)
    ensures '.' !in keyString ==> r == Ok(Map(true, [(keyString, value)]))
  {
    var keys := JavaSplit(keyString, '.');
    if keys == [] then Err(IndexOutOfBounds)
    else
      LookupNested(keys, value);
      Ok(Nested(keys, value))
  }

  /** columnSubEntity: the innermost map is built first, then wrapped in one
      map per remaining key, from the last key to the first. */
  method ColumnSubEntity(keyString: string, value: Value) returns (r: Result<Value>)
    ensures r == SubEntity(keyString, value)
  {
    var keys := JavaSplit(keyString, '.');
    if |keys| == 0 {
      return Err(IndexOutOfBounds);
    }
    var current := Map(true, [(keys[|keys| - 1], value)]);
    var i := |keys| - 2;
    while i >= 0
      invariant -1 <= i <= |keys| - 2
      invariant current == Nested(keys[i + 1..], value)
      decreases i + 1
    {
      assert keys[i..][1..] == keys[i + 1..];
      current := Map(true, [(keys[i], current)]);
      i := i - 1;
    }
    assert keys[0..] == keys;
    return Ok(current);
  }

  /** "a.b" with value v gives {a: {b: v}}. */
  lemma TwoSegments(a: string, b: string, v: Value)
    requires '.' !in a && '.' !in b && b != ""
    ensures SubEntity(a + "." + b, v) == Ok(Map(true, [(a, Map(true, [(b, v)]))]))
  {
    assert a + "." + b == a + ['.'] + b;
    JavaSplitTwo(a, '.', b);
    assert [a, b][1..] == [b];
    assert Nested([b], v) == Map(true, [(b, v)]);
    assert Nested([a, b], v) == Map(true, [(a, Nested([b], v))]);
  }

  /** A key made of dots alone fails with an index out of bounds. */
  lemma DotsOnly(v: Value)
    ensures SubEntity(".", v) == Err(IndexOutOfBounds)
  {
    assert "."[0] == '.';
    assert SplitAll(".", '.') == ["", ""] by {
      assert "."[1..] == [];
      assert SplitAll([], '.') == [""];
    }
  }

  /** addPageToFilter: a LinkedHashMap copy of the filter (empty when null)
      with "_page" set to the page map's "_page" value; a null page map
      fails on page.get. */
  function AddPageToFilter(filter: Option<Entries>, page: Option<Entries>): (r: Result<Entries>)
    ensures r.Ok? <==> page.Some?
    ensures r.Err? ==> r.error == NullPointer
    ensures r.Ok? ==> ContainsKey(r.value, PAGE_PAR) && Get(r.value, PAGE_PAR) == Get(page.value, PAGE_PAR)
    ensures r.Ok? ==> forall q :: q != PAGE_PAR ==> Get(r.value, q) == Get(if filter.None? then [] else filter.value, q)
  {
    var copy := if filter.None? then [] else filter.value;
    if page.None? then Err(NullPointer)
    else
      var v := Get(page.value, PAGE_PAR);
      GetPut(copy, PAGE_PAR, v, PAGE_PAR);
      assert forall q :: q != PAGE_PAR ==> Get(Put(copy, PAGE_PAR, v), q) == Get(copy, q) by {
        forall q | q != PAGE_PAR ensures Get(Put(copy, PAGE_PAR, v), q) == Get(copy, q) {
          GetPut(copy, PAGE_PAR, v, q);
        }
      }
      Ok(Put(copy, PAGE_PAR, v))
  }

  /** A filter paged with getPageWithStartSizeSort is read back by
      extractPagination with that start, size and sort (the sort split on
      ","). */
  lemma StartSizeSortExtracted(filter: Option<Entries>, start: Option<int>, size: Option<int>, sort: Option<string>)
    ensures AddPageToFilter(filter, Some(GetPageWithStartSizeSort(start, size, sort))).Ok?
    ensures var f := AddPageToFilter(filter, Some(GetPageWithStartSizeSort(start, size, sort))).value;
      ExtractedPage(f) == Ok(CompletedPage(StartSizeSortPage(start, size, sort)))
  {
  }

  /** ... and the page it holds reads as the limit, the offset and the split
      sort that were given. */
  lemma StartSizeSortReads(start: Option<int>, size: Option<int>, sort: Option<string>)
    ensures var page := CompletedPage(StartSizeSortPage(start, size, sort));
      Get(page, LIMIT) == Int(if size.None? then DEFAULT_LIMIT else size.value)
      && Get(page, OFFSET) == Int(if start.None? then MIN_OFFSET else start.value)
      && Get(page, SORT) == if sort.None? then Null else SplitSort(Str(sort.value))
  {
    var raw := StartSizeSortPage(start, size, sort);
    CompletedPageReads(raw, LIMIT);
    CompletedPageReads(raw, OFFSET);
    CompletedPageReads(raw, SORT);
  }

  /** Without a sort, the request read back has the given offset (0 when
      null) and the valid limit for the given size. */
  lemma StartSizeRequest(filter: Option<Entries>, start: Option<int>, size: Option<int>)
    requires start.Some? ==> InInt(start.value) && start.value >= 0
    requires size.Some? ==> InInt(size.value)
    ensures AddPageToFilter(filter, Some(GetPageWithStartSizeSort(start, size, None))).Ok?
    ensures var f := AddPageToFilter(filter, Some(GetPageWithStartSizeSort(start, size, None))).value;
      ExtractedPage(f).Ok?
    ensures var f := AddPageToFilter(filter, Some(GetPageWithStartSizeSort(start, size, None))).value;
      var page := ExtractedPage(f).value;
      IntegerValue(Get(page, OFFSET))
      && GetPageRequest(Some(page)) == Ok(Some(PageRequest(if start.None? then MIN_OFFSET else start.value, GetValidLimit(Some(if size.None? then DEFAULT_LIMIT else size.value)), [])))
  {
    StartSizeSortExtracted(filter, start, size, None);
    StartSizeSortReads(start, size, None);
    var page := CompletedPage(StartSizeSortPage(start, size, None));
    var offset := if start.None? then MIN_OFFSET else start.value;
    var limit := if size.None? then DEFAULT_LIMIT else size.value;
    PageRequestOf(page, limit, offset);
  }

  /** A page map holding an Integer limit and offset and a sort list is
      read as the sorted three-argument request on them. */
  lemma SortedRequestOf(page: Entries, limit: int, offset: int, tokens: seq<Value>)
    requires Get(page, LIMIT) == Int(limit) && Get(page, OFFSET) == Int(offset) && InInt(offset)
    requires Get(page, SORT) == List(tokens)
    ensures IntegerValue(Get(page, OFFSET))
    ensures var p := GetPageRequestSorted(Some(offset), Some(limit), Some(tokens));
      (GetPageRequest(Some(page)).Ok? <==> p.Ok?)
      && (p.Ok? ==> GetPageRequest(Some(page)).value == Some(p.value))
  {
    assert SortList(Get(page, SORT)) == Ok(Some(tokens));
    PageRequestOf(page, limit, offset);
  }

  /** With a sort, the request read back is the one built from the given
      offset and limit and the sort split on "," into tokens. */
  lemma StartSizeSortRequest(start: Option<int>, size: Option<int>, sort: string)
    requires start.Some? ==> InInt(start.value)
    ensures var page := CompletedPage(StartSizeSortPage(start, size, Some(sort)));
      var p := GetPageRequestSorted(Some(if start.None? then MIN_OFFSET else start.value),
        Some(if size.None? then DEFAULT_LIMIT else size.value), Some(Strs(JavaSplit(sort, ','))));
      IntegerValue(Get(page, OFFSET))
      && (GetPageRequest(Some(page)).Ok? <==> p.Ok?)
      && (p.Ok? ==> GetPageRequest(Some(page)).value == Some(p.value))
  {
    var page := CompletedPage(StartSizeSortPage(start, size, Some(sort)));
    var offset := if start.None? then MIN_OFFSET else start.value;
    var limit := if size.None? then DEFAULT_LIMIT else size.value;
    var tokens := Strs(JavaSplit(sort, ','));
    assert Get(page, LIMIT) == Int(limit) && Get(page, OFFSET) == Int(offset) && Get(page, SORT) == List(tokens) by {
      StartSizeSortReads(start, size, Some(sort));
    }
    SortedRequestOf(page, limit, offset, tokens);
  }
}
