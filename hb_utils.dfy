/** HBUtils: the fluent filter builder. HBUtilBuilder is an ordered map that
    its setters change in place, adding the default "_page" entry on first
    use and then setting the sort, offset or limit inside it; the static
    builders start a builder from one filter entry. */
module HBUtils {
  import opened Results
  import opened Text
  import opened Values
  import opened JavaNumbers
  import opened PageRequestBuilder
  import HBUtil

  /** The entries after createPage: the default "_page" entry appended when
      "_page" is absent; nothing else changes. */
  function WithPage(es: Entries): (r: Entries)
    ensures ContainsKey(r, PAGE_PAR)
    ensures ContainsKey(es, PAGE_PAR) ==> r == es
    ensures !ContainsKey(es, PAGE_PAR) ==> Keys(r) == Keys(es) + [PAGE_PAR] && Get(r, PAGE_PAR) == Map(false, DefaultPage())
    ensures forall q :: q != PAGE_PAR ==> Get(r, q) == Get(es, q)
  {
    if ContainsKey(es, PAGE_PAR) then es
    else
      var v := Map(false, DefaultPage());
      KeysPut(es, PAGE_PAR, v);
      GetPut(es, PAGE_PAR, v, PAGE_PAR);
      assert forall q :: q != PAGE_PAR ==> Get(Put(es, PAGE_PAR, v), q) == Get(es, q) by {
        forall q | q != PAGE_PAR ensures Get(Put(es, PAGE_PAR, v), q) == Get(es, q) {
          GetPut(es, PAGE_PAR, v, q);
        }
      }
      Put(es, PAGE_PAR, v)
  }

  /** createPage twice is createPage once. */
  lemma WithPageIdempotent(es: Entries)
    ensures WithPage(WithPage(es)) == WithPage(es)
  {
  }

  /** The entries after a setter has put k into the "_page" map: when "_page"
      holds a map, that map gains or changes k and keeps its other keys in
      place; otherwise nothing changes. */
  function SetInPage(es: Entries, k: string, v: Value): (r: Entries)
    ensures Keys(r) == Keys(es)
    ensures forall q :: q != PAGE_PAR ==> Get(r, q) == Get(es, q)
    ensures !Get(es, PAGE_PAR).Map? ==> r == es
    ensures Get(es, PAGE_PAR).Map? ==> Get(r, PAGE_PAR) == Map(Get(es, PAGE_PAR).linked, Put(Get(es, PAGE_PAR).entries, k, v))
    ensures Get(es, PAGE_PAR).Map? ==> Get(Get(r, PAGE_PAR).entries, k) == v
    ensures Get(es, PAGE_PAR).Map? ==>
      Keys(Get(r, PAGE_PAR).entries) == Keys(Get(es, PAGE_PAR).entries) + if ContainsKey(Get(es, PAGE_PAR).entries, k) then [] else [k]
    ensures Get(es, PAGE_PAR).Map? ==>
      forall q :: q != k ==> Get(Get(r, PAGE_PAR).entries, q) == Get(Get(es, PAGE_PAR).entries, q)
  {
    var p := Get(es, PAGE_PAR);
    if !p.Map? then es
    else
      var inner := Put(p.entries, k, v);
      var page := Map(p.linked, inner);
      KeysPut(p.entries, k, v);
      GetPut(p.entries, k, v, k);
      assert ContainsKey(es, PAGE_PAR);
      KeysPut(es, PAGE_PAR, page);
      GetPut(es, PAGE_PAR, page, PAGE_PAR);
      assert forall q :: q != k ==> Get(inner, q) == Get(p.entries, q) by {
        forall q | q != k ensures Get(inner, q) == Get(p.entries, q) {
          GetPut(p.entries, k, v, q);
        }
      }
      assert forall q :: q != PAGE_PAR ==> Get(Put(es, PAGE_PAR, page), q) == Get(es, q) by {
        forall q | q != PAGE_PAR ensures Get(Put(es, PAGE_PAR, page), q) == Get(es, q) {
          GetPut(es, PAGE_PAR, page, q);
        }
      }
      Put(es, PAGE_PAR, page)
  }

  class HBUtilBuilder {
    var entries: Entries

    /** The private constructor: a LinkedHashMap copy of the initial map. */
    constructor (initial: Entries)
      ensures entries == initial
    {
      entries := initial;
    }

    /** of(map) */
    static method Of(m: Entries) returns (b: HBUtilBuilder)
      ensures fresh(b) && b.entries == m
    {
      b := new HBUtilBuilder(m);
    }

    /** of(key, value): a builder over a one-entry map. */
    static method OfEntry(key: string, value: Value) returns (b: HBUtilBuilder)
      ensures fresh(b) && b.entries == [(key, value)]
    {
      var m := Put([], key, value);
      b := new HBUtilBuilder(m);
    }

    /** createPage: putAll of createDefaultPage when "_page" is absent. */
    method CreatePage()
      modifies this
      ensures entries == WithPage(old(entries))
    {
      if !ContainsKey(entries, PAGE_PAR) {
        var head := CreateDefaultPage();
        entries := Put(entries, PAGE_PAR, Get(head, PAGE_PAR));
      }
    }

    /** The shared body of sortedBy, offset and limit: createPage, then put
        the key into the "_page" value when it is a map. */
    method PutInPage(k: string, v: Value)
      modifies this
      ensures entries == SetInPage(WithPage(old(entries)), k, v)
    {
      CreatePage();
      var pageParams := Get(entries, PAGE_PAR);
      if pageParams.Map? {
        entries := Put(entries, PAGE_PAR, Map(pageParams.linked, Put(pageParams.entries, k, v)));
      }
    }

    /** sortedBy(order) */
    method SortedBy(order: string) returns (self: HBUtilBuilder)
      modifies this
      ensures self == this && entries == SetInPage(WithPage(old(entries)), SORT, Str(order))
    {
      PutInPage(SORT, Str(order));
      self := this;
    }

    /** offset(offset) */
    method Offset(offset: int) returns (self: HBUtilBuilder)
      requires InInt(offset)
      modifies this
      ensures self == this && entries == SetInPage(WithPage(old(entries)), OFFSET, Int(offset))
    {
      PutInPage(OFFSET, Int(offset));
      self := this;
    }

    /** limit(limit) */
    method Limit(limit: int) returns (self: HBUtilBuilder)
      requires InInt(limit)
      modifies this
      ensures self == this && entries == SetInPage(WithPage(old(entries)), LIMIT, Int(limit))
    {
      PutInPage(LIMIT, Int(limit));
      self := this;
    }
  }

  /** What the static sortedBy, offset and limit hold: the default page with
      the one key set. */
  lemma DefaultPageWith(k: string, v: Value)
    ensures Get(SetInPage(WithPage(CreateDefaultPage()), k, v), PAGE_PAR) == Map(false, Put(DefaultPage(), k, v))
  {
  }

  /** The static sortedBy: a builder over createDefaultPage, then sortedBy. */
  method SortedBy(order: string) returns (b: HBUtilBuilder)
    ensures fresh(b) && b.entries == SetInPage(WithPage(CreateDefaultPage()), SORT, Str(order))
  {
    var h := new HBUtilBuilder(CreateDefaultPage());
    b := h.SortedBy(order);
  }

  /** The static offset. */
  method Offset(offset: int) returns (b: HBUtilBuilder)
    requires InInt(offset)
    ensures fresh(b) && b.entries == SetInPage(WithPage(CreateDefaultPage()), OFFSET, Int(offset))
  {
    var h := new HBUtilBuilder(CreateDefaultPage());
    b := h.Offset(offset);
  }

  /** The static limit. */
  method Limit(limit: int) returns (b: HBUtilBuilder)
    requires InInt(limit)
    ensures fresh(b) && b.entries == SetInPage(WithPage(CreateDefaultPage()), LIMIT, Int(limit))
  {
    var h := new HBUtilBuilder(CreateDefaultPage());
    b := h.Limit(limit);
  }

  /** The entries hbEquals starts from: a dotted column is a path of nested
      maps around the value (columnSubEntity), any other column one entry. */
  function EqualsEntries(column: string, values: seq<string>): (r: Result<Entries>)
    ensures r.Err? <==> JavaSplit(column, '.') == []
    ensures r.Err? ==> r.error == IndexOutOfBounds
    ensures r.Ok? ==> HBUtil.Lookup(Map(true, r.value), JavaSplit(column, '.')) == Some(HBUtil.EqualValue(values))
    ensures '.' !in column ==> r == Ok(HBUtil.ColumnEqualValues(column, values))
  {
    if '.' in column then
      var v :- HBUtil.SubEntity(column, HBUtil.EqualValue(values));
      Ok(v.entries)
    else
      assert Keys([(column, HBUtil.EqualValue(values))]) == [column];
      Ok([(column, HBUtil.EqualValue(values))])
  }

  /** columnSubEntity: the nested path (the same loop as HBUtil's) wrapped in
      a builder. */
  method ColumnSubEntity(keyString: string, values: seq<string>) returns (r: Result<HBUtilBuilder>)
    ensures r.Ok? <==> EqualsEntries(keyString, values).Ok?
    ensures r.Err? ==> r.error == IndexOutOfBounds
    ensures r.Ok? ==> fresh(r.value) && r.value.entries == EqualsEntries(keyString, values).value
  {
    var nested := HBUtil.ColumnSubEntity(keyString, HBUtil.EqualValue(values));
    if nested.Err? {
      return Err(nested.error);
    }
    var b := HBUtilBuilder.Of(nested.value.entries);
    return Ok(b);
  }

  /** hbEquals */
  method HbEquals(column: string, values: seq<string>) returns (r: Result<HBUtilBuilder>)
    ensures r.Ok? <==> EqualsEntries(column, values).Ok?
    ensures r.Err? ==> r.error == IndexOutOfBounds
    ensures r.Ok? ==> fresh(r.value) && r.value.entries == EqualsEntries(column, values).value
  {
    if '.' in column {
      r := ColumnSubEntity(column, values);
      return;
    }
    var b;
    if |values| == 1 {
      b := HBUtilBuilder.OfEntry(column, Str(values[0]));
    } else {
      b := HBUtilBuilder.OfEntry(column, List(Strs(values)));
    }
    return Ok(b);
  }

  /** hbIsNull: the same one-entry map as HBUtil.columnIsNull. */
  method HbIsNull(column: string) returns (b: HBUtilBuilder)
    ensures fresh(b) && b.entries == HBUtil.ColumnIsNull(column)
  {
    b := HBUtilBuilder.OfEntry(column, Null);
  }

  /** hbNotEquals: the same map as HBUtil.columnNotEqualValues. */
  method HbNotEquals(column: string, values: seq<string>) returns (b: HBUtilBuilder)
    ensures fresh(b) && b.entries == HBUtil.ColumnNotEqualValues(column, values)
  {
    if |values| == 1 {
      b := HBUtilBuilder.OfEntry(HBUtil.NOT, Map(false, [(column, Str(values[0]))]));
    } else {
      b := HBUtilBuilder.OfEntry(HBUtil.NOT, Map(false, [(column, List(Strs(values)))]));
    }
  }

  /** greaterThan: {column: {from: value}}, as HBUtil.columnGreaterThan. */
  method GreaterThan(column: string, value: string) returns (b: HBUtilBuilder)
    ensures fresh(b) && b.entries == HBUtil.ColumnGreaterThan(column, value)
  {
    assert '.' !in HBUtil.FROM;
    var from := HbEquals(HBUtil.FROM, [value]);
    b := HBUtilBuilder.OfEntry(column, Map(true, from.value.entries));
  }

  /** smallerThan: {column: {to: value}}, as HBUtil.columnSmallerThan. */
  method SmallerThan(column: string, value: string) returns (b: HBUtilBuilder)
    ensures fresh(b) && b.entries == HBUtil.ColumnSmallerThan(column, value)
  {
    assert '.' !in HBUtil.TO;
    var to := HbEquals(HBUtil.TO, [value]);
    b := HBUtilBuilder.OfEntry(column, Map(true, to.value.entries));
  }

  /** between: {column: {from: from, to: to}}, as HBUtil.columnBetween. */
  method Between(column: string, from: string, to: string) returns (b: HBUtilBuilder)
    ensures fresh(b) && b.entries == HBUtil.ColumnBetween(column, from, to)
  {
    b := HBUtilBuilder.OfEntry(column, Map(true, [(HBUtil.FROM, Str(from)), (HBUtil.TO, Str(to))]));
  }

  /** sortedBy(s).offset(o).limit(l) on a builder without a page: the page
      holds what getPageWithStartSizeSort(o, l, s) builds, and the filter
      entries are untouched. */
  function Chain(es: Entries, sort: string, offset: int, limit: int): Entries {
    var e1 := SetInPage(WithPage(es), SORT, Str(sort));
    var e2 := SetInPage(WithPage(e1), OFFSET, Int(offset));
    SetInPage(WithPage(e2), LIMIT, Int(limit))
  }

  /** The default page after putting the sort, the offset and the limit. */
  lemma ChainedDefaultPage(sort: string, offset: int, limit: int)
    ensures Put(Put(Put(DefaultPage(), SORT, Str(sort)), OFFSET, Int(offset)), LIMIT, Int(limit))
      == HBUtil.StartSizeSortPage(Some(offset), Some(limit), Some(sort))
  {
    HBUtil.PageKeysDistinct();
    var p1 := Put(DefaultPage(), SORT, Str(sort));
    assert p1 == [(LIMIT, Int(DEFAULT_LIMIT)), (OFFSET, Int(MIN_OFFSET)), (SORT, Str(sort))] by {
      assert Put(DefaultPage()[1..], SORT, Str(sort)) == [(OFFSET, Int(MIN_OFFSET)), (SORT, Str(sort))];
    }
    var p2 := Put(p1, OFFSET, Int(offset));
    assert p2 == [(LIMIT, Int(DEFAULT_LIMIT)), (OFFSET, Int(offset)), (SORT, Str(sort))] by {
      assert Put(p1[1..], OFFSET, Int(offset)) == [(OFFSET, Int(offset))] + p1[2..];
    }
  }

  lemma ChainPage(es: Entries, sort: string, offset: int, limit: int)
    requires !ContainsKey(es, PAGE_PAR)
    ensures Get(Chain(es, sort, offset, limit), PAGE_PAR) == Map(false, HBUtil.StartSizeSortPage(Some(offset), Some(limit), Some(sort)))
    ensures forall q :: q != PAGE_PAR ==> Get(Chain(es, sort, offset, limit), q) == Get(es, q)
  {
    ChainedDefaultPage(sort, offset, limit);
  }
}
