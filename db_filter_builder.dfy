/** DbFilterBuilder: walks a filter map in iteration order and turns each
    entry into a DbFilter, checking its camel-cased key against the field
    schema of the entity class and inferring the operator from the shape of
    the value. Unknown keys are collected and reported together. */
module DbFilterBuilder {
  import opened Results
  import opened Text
  import opened Values
  import opened JavaTypes
  import opened DbFilters
  import opened StringUtils
  import PageRequestBuilder

  // ---------------------------------------------------------------------
  // The field schema (getFieldList / getClassHierarchy)

  /** A field-list value: the field's Class, or the (name, type) pairs of an
      @Entity-typed field's own fields. */
  datatype FieldEntry = ClassEntry(t: TypeTag) | NestedEntry(pairs: seq<(string, TypeTag)>)

  type FieldList = map<string, FieldEntry>

  /** The class chain from c upwards, stopping before Object or at a missing
      superclass. */
  function Hierarchy(c: Option<ClassDecl>): seq<ClassDecl>
    decreases c
  {
    match c
    case None => []
    case Some(k) => if k.name == OBJECT_CLASS_NAME then [] else [k] + Hierarchy(k.superclass)
  }

  /** DbFilterBuilder.getClassHierarchy */
  method GetClassHierarchy(clazz: ClassDecl) returns (classes: seq<ClassDecl>)
    ensures classes == Hierarchy(Some(clazz))
  {
    classes := [];
    var currentClass := Some(clazz);
    while currentClass.Some? && currentClass.value.name != OBJECT_CLASS_NAME
      invariant classes + Hierarchy(currentClass) == Hierarchy(Some(clazz))
      decreases currentClass
    {
      classes := classes + [currentClass.value];
      currentClass := currentClass.value.superclass;
    }
  }

  /** The hierarchy is the class followed by its superclasses, each the
      superclass of the one before, Object never included. */
  lemma {:induction false} HierarchyShape(c: Option<ClassDecl>)
    ensures forall i :: 0 <= i < |Hierarchy(c)| ==> Hierarchy(c)[i].name != OBJECT_CLASS_NAME
    ensures forall i :: 0 <= i < |Hierarchy(c)| - 1 ==> Hierarchy(c)[i].superclass == Some(Hierarchy(c)[i + 1])
    ensures |Hierarchy(c)| > 0 ==> Some(Hierarchy(c)[0]) == c
    ensures |Hierarchy(c)| == 0 <==> c.None? || c.value.name == OBJECT_CLASS_NAME
    ensures |Hierarchy(c)| > 0 ==>
      var last := Hierarchy(c)[|Hierarchy(c)| - 1];
      last.superclass.None? || last.superclass.value.name == OBJECT_CLASS_NAME
    decreases c
  {
    if c.Some? && c.value.name != OBJECT_CLASS_NAME {
      HierarchyShape(c.value.superclass);
    }
  }

  /** What one declared field puts into the field list. */
  function EntryOf(fd: FieldDecl): FieldEntry {
    match fd.kind
    case EntityField(nested) => NestedEntry(nested)
    case PlainField(t) => ClassEntry(t)
  }

  /** The declared fields of the classes, class by class in order. */
  function DeclaredFields(classes: seq<ClassDecl>): seq<FieldDecl>
    decreases |classes|
  {
    if |classes| == 0 then []
    else DeclaredFields(classes[..|classes| - 1]) + classes[|classes| - 1].fields
  }

  /** HashMap.put of each field in turn into m: a later field of the same
      name replaces an earlier one. */
  function PutFields(m: FieldList, fs: seq<FieldDecl>): FieldList
    decreases |fs|
  {
    if |fs| == 0 then m
    else PutFields(m, fs[..|fs| - 1])[fs[|fs| - 1].name := EntryOf(fs[|fs| - 1])]
  }

  function FieldsMap(fs: seq<FieldDecl>): FieldList {
    PutFields(map[], fs)
  }

  lemma {:induction false} PutFieldsAppend(m: FieldList, a: seq<FieldDecl>, b: seq<FieldDecl>)
    ensures PutFields(m, a + b) == PutFields(PutFields(m, a), b)
    decreases |b|
  {
    if |b| == 0 {
      assert a + b == a;
    } else {
      PutFieldsAppend(m, a, b[..|b| - 1]);
      assert (a + b)[..|a + b| - 1] == a + b[..|b| - 1];
    }
  }

  /** DbFilterBuilder.getFieldList */
  method GetFieldList(clazz: ClassDecl) returns (fieldsMap: FieldList)
    ensures fieldsMap == FieldsMap(DeclaredFields(Hierarchy(Some(clazz))))
  {
    fieldsMap := map[];
    var classHierarchy := GetClassHierarchy(clazz);
    for i := 0 to |classHierarchy|
      invariant fieldsMap == FieldsMap(DeclaredFields(classHierarchy[..i]))
    {
      var currentClass := classHierarchy[i];
      ghost var before := fieldsMap;
      for k := 0 to |currentClass.fields|
        invariant fieldsMap == PutFields(before, currentClass.fields[..k])
      {
        var field := currentClass.fields[k];
        match field.kind {
          case EntityField(nestedFields) =>
            fieldsMap := fieldsMap[field.name := NestedEntry(nestedFields)];
          case PlainField(fieldType) =>
            fieldsMap := fieldsMap[field.name := ClassEntry(fieldType)];
        }
        assert currentClass.fields[..k + 1][..k] == currentClass.fields[..k];
      }
      assert currentClass.fields[..|currentClass.fields|] == currentClass.fields;
      PutFieldsAppend(map[], DeclaredFields(classHierarchy[..i]), currentClass.fields);
      assert classHierarchy[..i + 1][..i] == classHierarchy[..i];
    }
    assert classHierarchy[..|classHierarchy|] == classHierarchy;
  }

  /** The last field is put last. */
  lemma FieldsMapSnoc(fs: seq<FieldDecl>)
    requires |fs| > 0
    ensures FieldsMap(fs) == FieldsMap(fs[..|fs| - 1])[fs[|fs| - 1].name := EntryOf(fs[|fs| - 1])]
  {
  }

  /** A name is in the field list exactly when some class of the hierarchy
      declares it. */
  lemma {:induction false} FieldsMapKeys(fs: seq<FieldDecl>, name: string)
    ensures name in FieldsMap(fs) <==> exists i :: 0 <= i < |fs| && fs[i].name == name
    decreases |fs|
  {
    if |fs| > 0 {
      var n := |fs| - 1;
      var init := fs[..n];
      FieldsMapKeys(init, name);
      FieldsMapSnoc(fs);
      if fs[n].name != name {
        if name in FieldsMap(fs) {
          var i :| 0 <= i < |init| && init[i].name == name;
          assert fs[i] == init[i];
        } else {
          forall i | 0 <= i < |fs| ensures fs[i].name != name {
            if i < n { assert fs[i] == init[i]; }
          }
        }
      }
    }
  }

  /** The entry for a name is the one of its last declaration: the topmost
      superclass declaring the name wins. */
  lemma {:induction false} FieldsMapLastWins(fs: seq<FieldDecl>, i: nat)
    requires i < |fs| && forall j :: i < j < |fs| ==> fs[j].name != fs[i].name
    ensures fs[i].name in FieldsMap(fs) && FieldsMap(fs)[fs[i].name] == EntryOf(fs[i])
    decreases |fs|
  {
    var n := |fs| - 1;
    FieldsMapSnoc(fs);
    if i < n {
      var init := fs[..n];
      assert forall j :: i <= j < n ==> init[j] == fs[j];
      FieldsMapLastWins(init, i);
    }
  }

  // ---------------------------------------------------------------------
  // Classifying a field and a value

  /** isFieldEntity applied to a field-list entry: a nested field list is a
      Collection; a Class is a relation when List or Set is assignable to it. */
  predicate IsEntryEntity(e: FieldEntry) {
    match e
    case NestedEntry(_) => true
    case ClassEntry(t) => IsListOrSetSupertype(t)
  }

  /** getFieldType: the List marker for a relation, the entry's Class otherwise. */
  function FieldType(e: FieldEntry): (t: TypeTag)
    ensures IsEntryEntity(e) ==> t == ListT
    ensures !IsEntryEntity(e) ==> e.ClassEntry? && t == e.t
  {
    if IsEntryEntity(e) then ListT else e.t
  }

  /** hasAnnotation(fieldList.get(key).toString(), Entity.class): the class
      named by the entry's text carries @Entity. The text of a nested field
      list names no class, so Class.forName fails and the answer is false. */
  predicate HasEntityAnnotation(e: FieldEntry) {
    e.ClassEntry? && e.t.ClassT? && e.t.entity
  }

  /** isFieldEntity applied to a filter value: a collection, or a map that
      is not a from/to range. */
  predicate IsValueEntity(v: Value) {
    match v
    case List(_) => true
    case Map(_, es) => !ContainsKey(es, "from") && !ContainsKey(es, "to")
    case _ => false
  }

  /** DbFilterBuilder.identifyOperator */
  function IdentifyOperator(v: Value): (op: QueryOperator)
    ensures op == EQUALS || op == LIKE
    ensures op == LIKE <==> !v.Null? && (StartsWith(ToString(v), "%") || EndsWith(ToString(v), "%"))
  {
    if v.Null? then EQUALS
    else if IsLikeString(Some(ToString(v))) then LIKE
    else EQUALS
  }

  // ---------------------------------------------------------------------
  // convertToList

  /** The forEach of s.toUpperCase() over a List<String> holding arbitrary
      objects: a null item throws NullPointerException, any other non-string
      the ClassCastException of the implicit cast; the first bad item wins. */
  function UpperItems(items: seq<Value>): (r: Result<seq<Value>>)
    ensures r.Ok? <==> forall i :: 0 <= i < |items| ==> items[i].Str?
    ensures r.Ok? ==> |r.value| == |items| && forall i :: 0 <= i < |items| ==> r.value[i] == Str(Upper(items[i].s))
    ensures r.Err? ==> exists i :: 0 <= i < |items| && !items[i].Str? && (forall j :: 0 <= j < i ==> items[j].Str?)
                                   && r.error == (if items[i].Null? then NullPointer else ClassCast)
    decreases |items|
  {
    if |items| == 0 then Ok([])
    else match items[0]
      case Str(s) =>
        var rest := UpperItems(items[1..]);
        if rest.Err? then
          assert exists i :: 0 <= i < |items| - 1 && !items[1..][i].Str? && (forall j :: 0 <= j < i ==> items[1..][j].Str?)
                             && rest.error == (if items[1..][i].Null? then NullPointer else ClassCast);
          Err(rest.error)
        else Ok([Str(Upper(s))] + rest.value)
      case Null => Err(NullPointer)
      case _ => Err(ClassCast)
  }

  /** Long.valueOf on every Integer of the list; other items are kept. */
  function WidenInts(vs: seq<Value>): (r: seq<Value>)
    ensures |r| == |vs|
    ensures forall i :: 0 <= i < |vs| ==> r[i] == if vs[i].Int? then Long(vs[i].i) else vs[i]
  {
    seq(|vs|, i requires 0 <= i < |vs| => if vs[i].Int? then Long(vs[i].i) else vs[i])
  }

  /** The list the IN filter is built from, before the Integer check: a
      map's values, the upper-cased items of a list for a String field, or a
      copy of the list. Any other object fails the cast to List. */
  function ListSource(f: DbFilter, value: Value): (r: Result<seq<Value>>)
    requires !value.Null?
    ensures value.Map? ==> r == Ok(ValuesOf(value.entries))
    ensures value.List? && !IsString(f.fieldType) ==> r == Ok(value.items)
    ensures value.List? && IsString(f.fieldType) ==> r == UpperItems(value.items)
    ensures !value.Map? && !value.List? ==> r == Err(ClassCast)
  {
    match value
    case Map(_, es) => Ok(ValuesOf(es))
    case List(items) => if IsString(f.fieldType) then UpperItems(items) else Ok(items)
    case _ => Err(ClassCast)
  }

  /** DbFilterBuilder.convertToList as the Integer check evidently intends
      it: a list whose first item is an Integer has every Integer widened
      to Long. A null first item throws at getClass(). */
  function ConvertToList(f: DbFilter, value: Value): (r: Result<seq<Value>>)
    ensures value.Null? ==> r == Ok([])
    ensures !value.Null? && ListSource(f, value).Err? ==> r == Err(ListSource(f, value).error)
    ensures !value.Null? && ListSource(f, value).Ok? ==>
      var src := ListSource(f, value).value;
      (|src| > 0 && src[0].Null? ==> r == Err(NullPointer))
      && (!(|src| > 0 && src[0].Null?) ==>
            r.Ok? && |r.value| == |src|
            && forall i :: 0 <= i < |src| ==> r.value[i] == if src[0].Int? && src[i].Int? then Long(src[i].i) else src[i])
  {
    if value.Null? then Ok([])
    else
      var converted :- ListSource(f, value);
      if |converted| > 0 && converted[0].Null? then Err(NullPointer)
      else if |converted| > 0 && converted[0].Int? then Ok(WidenInts(converted))
      else Ok(converted)
  }

  /** convertToList reads nothing of the filter but its field type. */
  lemma ConvertToListByFieldType(f: DbFilter, g: DbFilter, value: Value)
    requires f.fieldType == g.fieldType
    ensures ConvertToList(f, value) == ConvertToList(g, value)
  {
  }

  /** DbFilterBuilder.convertToList as written: the widening maps over an
      ArrayList<String>, so Long::valueOf is Long.valueOf(String) and the
      first Integer fails its cast to String. */
  function ConvertToListAsWritten(f: DbFilter, value: Value): (r: Result<seq<Value>>)
    ensures ConvertToList(f, value).Err? ==> r == ConvertToList(f, value)
    ensures ConvertToList(f, value).Ok? ==>
      r == if !value.Null? && |ListSource(f, value).value| > 0 && ListSource(f, value).value[0].Int? then Err(ClassCast)
           else ConvertToList(f, value)
  {
    if value.Null? then Ok([])
    else
      var converted :- ListSource(f, value);
      if |converted| > 0 && converted[0].Null? then Err(NullPointer)
      else if |converted| > 0 && converted[0].Int? then Err(ClassCast)
      else Ok(converted)
  }

  /** The discrepancy: an IN list of Integers for a non-String field. */
  lemma IntegerListAsWritten(f: DbFilter)
    requires !IsString(f.fieldType)
    ensures ConvertToListAsWritten(f, List([Int(1), Int(2)])) == Err(ClassCast)
    ensures ConvertToList(f, List([Int(1), Int(2)])) == Ok([Long(1), Long(2)])
  {
    var r := ConvertToList(f, List([Int(1), Int(2)]));
    assert r.Ok? && |r.value| == 2 && r.value[0] == Long(1) && r.value[1] == Long(2);
    assert r.value == [Long(1), Long(2)];
  }

  // ---------------------------------------------------------------------
  // betweenFilter

  /** DbFilterBuilder.betweenFilter: a from/to map sets values = [from, to]
      and picks the range operator; with neither bound the filter is kept. */
  function BetweenFilter(es: Entries, f: DbFilter): (g: DbFilter)
    ensures var from, to := Get(es, "from"), Get(es, "to");
      (!from.Null? && !to.Null? ==> g == f.(operator := BETWEEN, values := Some([from, to])))
      && (!from.Null? && to.Null? ==> g == f.(operator := GREATER_THAN, values := Some([from, to])))
      && (from.Null? && !to.Null? ==> g == f.(operator := LESS_THAN, values := Some([from, to])))
      && (from.Null? && to.Null? ==> g == f)
  {
    var from := Get(es, "from");
    var to := Get(es, "to");
    if !from.Null? || !to.Null? then
      var g := f.(values := Some([from, to]), operator := BETWEEN);
      if from.Null? then g.(operator := LESS_THAN)
      else if to.Null? then g.(operator := GREATER_THAN)
      else g
    else f
  }

  // ---------------------------------------------------------------------
  // processFilterItem

  /** What processing one item does: append a filter, or append the key to
      the error list. */
  datatype Outcome = Filtered(filter: DbFilter) | Rejected(key: string)

  /** The filter as the builder first creates it. */
  function Initial(fieldList: FieldList, k: string, value: Value, op: LogicalOperator,
                   wrapper: Option<LogicalOperator>, clazz: TypeTag): DbFilter
    requires k in fieldList
  {
    DbFilter(k, IdentifyOperator(value), value, None, IsEntryEntity(fieldList[k]),
             FieldType(fieldList[k]), clazz, op, wrapper, None)
  }

  /** Whether the field is a JOIN: a relation given a map, or an @Entity class. */
  predicate JoinsOn(e: FieldEntry, value: Value) {
    (IsEntryEntity(e) && value.Map?) || HasEntityAnnotation(e)
  }

  /** Whether the value is an IN list: a collection or a non-range map, for a
      field that is neither a relation nor an @Entity class. */
  predicate InList(e: FieldEntry, value: Value) {
    !IsEntryEntity(e) && IsValueEntity(value) && !HasEntityAnnotation(e)
  }

  /** The outcome of processFilterItem for one (key, value). */
  function ItemOutcome(fieldList: FieldList, op: LogicalOperator, key: string, value: Value,
                       wrapper: Option<LogicalOperator>, clazz: TypeTag): (r: Result<Outcome>)
    ensures CamelCase(key) !in fieldList <==> r == Ok(Rejected(CamelCase(key)))
    ensures r.Ok? && r.value.Filtered? ==>
      var f := r.value.filter;
      var e := fieldList[CamelCase(key)];
      f.field == CamelCase(key) && f.logicalOperator == op && f.wrappedLogicalOperator == wrapper
      && f.originalClass == clazz && f.controlFlag.None?
      && f.entity == IsEntryEntity(e) && f.fieldType == FieldType(e)
      && (f.value == value || f.value.Null?)
    ensures r.Err? ==> CamelCase(key) in fieldList && InList(fieldList[CamelCase(key)], value)
  {
    var k := CamelCase(key);
    if k !in fieldList then Ok(Rejected(k))
    else
      var e := fieldList[k];
      var f0 := Initial(fieldList, k, value, op, wrapper, clazz);
      var f1 := if JoinsOn(e, value) then f0.(operator := JOIN) else f0;
      if InList(e, value) then
        var vs :- ConvertToList(f1, value);
        Ok(Filtered(f1.(operator := IN, value := Null, values := Some(vs))))
      else if value.Map? && value.linked then Ok(Filtered(BetweenFilter(value.entries, f1)))
      else Ok(Filtered(f1))
  }

  /** The operator the item ends with, as the source decides it. */
  lemma ItemOperator(fieldList: FieldList, op: LogicalOperator, key: string, value: Value,
                     wrapper: Option<LogicalOperator>, clazz: TypeTag)
    requires CamelCase(key) in fieldList
    ensures var e := fieldList[CamelCase(key)];
      var r := ItemOutcome(fieldList, op, key, value, wrapper, clazz);
      var f0 := Initial(fieldList, CamelCase(key), value, op, wrapper, clazz);
      var f1 := if JoinsOn(e, value) then f0.(operator := JOIN) else f0;
      (InList(e, value) ==>
         (r.Ok? <==> ConvertToList(f1, value).Ok?)
         && (r.Ok? ==> r.value.Filtered? && r.value.filter.operator == IN && r.value.filter.value == Null
                       && r.value.filter.values == Some(ConvertToList(f1, value).value))
         && (r.Err? ==> r.error == ConvertToList(f1, value).error))
      && (!InList(e, value) && value.Map? && value.linked ==> r == Ok(Filtered(BetweenFilter(value.entries, f1))))
      && (!InList(e, value) && !(value.Map? && value.linked) ==>
            r == Ok(Filtered(f1)) && f1.value == value && f1.values.None?
            && f1.operator == if JoinsOn(e, value) then JOIN else IdentifyOperator(value))
  {
  }

  /** A relation field given a map value, or an @Entity field, becomes a
      JOIN of type List (or keeps its Class when @Entity), unless the map is
      a from/to range, which betweenFilter then takes over. */
  lemma RelationMapIsJoin(fieldList: FieldList, op: LogicalOperator, key: string, es: Entries, linked: bool,
                          wrapper: Option<LogicalOperator>, clazz: TypeTag)
    requires CamelCase(key) in fieldList && IsEntryEntity(fieldList[CamelCase(key)])
    requires !ContainsKey(es, "from") && !ContainsKey(es, "to")
    ensures var r := ItemOutcome(fieldList, op, key, Map(linked, es), wrapper, clazz);
      r.Ok? && r.value.Filtered?
      && r.value.filter.operator == JOIN && r.value.filter.fieldType == ListT && r.value.filter.value == Map(linked, es)
  {
    var e := fieldList[CamelCase(key)];
    var v := Map(linked, es);
    assert JoinsOn(e, v) && !InList(e, v);
    var f0 := Initial(fieldList, CamelCase(key), v, op, wrapper, clazz);
    assert BetweenFilter(es, f0.(operator := JOIN)) == f0.(operator := JOIN);
  }

  /** DbFilterBuilder.processFilterItem: the filter built step by step, then
      appended (or the camel-cased key appended to the error list). */
  method ProcessFilterItem(errorList: seq<string>, fieldList: FieldList, logicalOperator: LogicalOperator,
                           filters: seq<DbFilter>, key: string, filterValue: Value,
                           logicalWrapper: Option<LogicalOperator>, clazz: TypeTag)
    returns (r: Result<Built>)
    ensures r == Record(Built(filters, errorList), ItemOutcome(fieldList, logicalOperator, key, filterValue, logicalWrapper, clazz))
  {
    var k := ToCamelCase(key);
    if k !in fieldList {
      return Ok(Built(filters, errorList + [k]));
    }
    var entry := fieldList[k];
    var filter := DbFilter(k, IdentifyOperator(filterValue), filterValue, None, IsEntryEntity(entry),
                           FieldType(entry), clazz, logicalOperator, logicalWrapper, None);
    assert filter == Initial(fieldList, k, filterValue, logicalOperator, logicalWrapper, clazz);
    if (filter.entity && filterValue.Map?) || HasEntityAnnotation(entry) {
      filter := filter.(operator := JOIN);
    }
    ghost var f1 := filter;
    if !filter.entity && IsValueEntity(filterValue) && !HasEntityAnnotation(entry) {
      assert InList(entry, filterValue);
      filter := filter.(operator := IN);
      filter := filter.(value := Null);
      ConvertToListByFieldType(filter, f1, filterValue);
      var listValues :- ConvertToList(filter, filterValue);
      filter := filter.(values := Some(listValues));
    } else if filterValue.Map? && filterValue.linked {
      filter := BetweenFilter(filterValue.entries, filter);
    }
    return Ok(Built(filters + [filter], errorList));
  }

  // ---------------------------------------------------------------------
  // buildFilter

  /** The two lists buildFilter appends to. */
  datatype Built = Built(filters: seq<DbFilter>, errors: seq<string>)

  /** Appending one outcome to the lists. */
  function Append(b: Built, o: Outcome): (c: Built)
    ensures o.Filtered? ==> c == Built(b.filters + [o.filter], b.errors)
    ensures o.Rejected? ==> c == Built(b.filters, b.errors + [o.key])
  {
    match o
    case Filtered(f) => Built(b.filters + [f], b.errors)
    case Rejected(k) => Built(b.filters, b.errors + [k])
  }

  /** The lists after an outcome, or the exception that interrupted it. */
  function Record(b: Built, o: Result<Outcome>): (r: Result<Built>)
    ensures o.Err? ==> r == Err(o.error)
    ensures o.Ok? ==> r == Ok(Append(b, o.value))
  {
    if o.Err? then Err(o.error) else Ok(Append(b, o.value))
  }

  /** The filters among the outcomes, in order. */
  function Filters(os: seq<Outcome>): seq<DbFilter>
    decreases |os|
  {
    if |os| == 0 then []
    else (match os[0] case Filtered(f) => [f] case Rejected(_) => []) + Filters(os[1..])
  }

  /** The rejected keys among the outcomes, in order. */
  function Errors(os: seq<Outcome>): seq<string>
    decreases |os|
  {
    if |os| == 0 then []
    else (match os[0] case Rejected(k) => [k] case Filtered(_) => []) + Errors(os[1..])
  }

  /** The projections keep exactly the filters and the keys of the outcomes. */
  lemma {:induction false} FiltersMembers(os: seq<Outcome>)
    ensures forall f :: f in Filters(os) <==> Filtered(f) in os
    ensures forall k :: k in Errors(os) <==> Rejected(k) in os
    decreases |os|
  {
    if |os| > 0 {
      FiltersMembers(os[1..]);
      assert os == [os[0]] + os[1..];
    }
  }

  /** The filters of a run of outcomes, one piece after another. */
  lemma {:induction false} FiltersAppend(a: seq<Outcome>, b: seq<Outcome>)
    ensures Filters(a + b) == Filters(a) + Filters(b)
    decreases |a|
  {
    if |a| == 0 {
      assert a + b == b;
    } else {
      FiltersAppend(a[1..], b);
      var ab := a + b;
      assert ab[0] == a[0] && ab[1..] == a[1..] + b;
      var h := match a[0] case Filtered(f) => [f] case Rejected(_) => [];
      assert Filters(ab) == h + Filters(a[1..] + b);
      assert Filters(a) == h + Filters(a[1..]);
    }
  }

  /** The rejected keys of a run of outcomes, one piece after another. */
  lemma {:induction false} ErrorsAppend(a: seq<Outcome>, b: seq<Outcome>)
    ensures Errors(a + b) == Errors(a) + Errors(b)
    decreases |a|
  {
    if |a| == 0 {
      assert a + b == b;
    } else {
      ErrorsAppend(a[1..], b);
      var ab := a + b;
      assert ab[0] == a[0] && ab[1..] == a[1..] + b;
      var h := match a[0] case Rejected(k) => [k] case Filtered(_) => [];
      assert Errors(ab) == h + Errors(a[1..] + b);
      assert Errors(a) == h + Errors(a[1..]);
    }
  }

  /** Running two computations in turn: the first exception wins. */
  function Then(x: Result<seq<Outcome>>, y: Result<seq<Outcome>>): (r: Result<seq<Outcome>>)
    ensures x.Err? ==> r == x
    ensures x.Ok? && y.Err? ==> r == y
    ensures x.Ok? && y.Ok? ==> r == Ok(x.value + y.value)
  {
    if x.Err? then x else if y.Err? then y else Ok(x.value + y.value)
  }

  /** extractWrapList: the entries of the NOT key's value when it is a map,
      no entries otherwise. */
  function ExtractWrapList(mapFilter: Entries, key: string): (ws: Entries)
    ensures Get(mapFilter, key).Map? ==> ws == Get(mapFilter, key).entries
    ensures !Get(mapFilter, key).Map? ==> ws == []
  {
    match Get(mapFilter, key)
    case Map(_, es) => es
    case _ => []
  }

  /** One outcome as a list of outcomes. */
  function Single(o: Result<Outcome>): (r: Result<seq<Outcome>>)
    ensures o.Err? ==> r == Err(o.error)
    ensures o.Ok? ==> r == Ok([o.value])
  {
    if o.Err? then Err(o.error) else Ok([o.value])
  }

  /** processFilterItem over the entries ws in order, with one wrapper. */
  function ItemsOutcomes(fieldList: FieldList, op: LogicalOperator, ws: Entries,
                         wrapper: Option<LogicalOperator>, clazz: TypeTag): Result<seq<Outcome>>
    decreases |ws|
  {
    if |ws| == 0 then Ok([])
    else Then(Single(ItemOutcome(fieldList, op, ws[0].0, ws[0].1, wrapper, clazz)),
              ItemsOutcomes(fieldList, op, ws[1..], wrapper, clazz))
  }

  /** What one entry of the filter map contributes: nothing for _page, the
      wrapped items of a NOT key, one item otherwise. */
  function EntryOutcomes(fieldList: FieldList, op: LogicalOperator, mapFilter: Entries,
                         key: string, value: Value, clazz: TypeTag): Result<seq<Outcome>>
  {
    if key == PageRequestBuilder.PAGE_PAR then Ok([])
    else if EqualsIgnoreCase(key, "NOT") then ItemsOutcomes(fieldList, op, ExtractWrapList(mapFilter, key), Some(NOT), clazz)
    else Single(ItemOutcome(fieldList, op, key, value, None, clazz))
  }

  /** The outcomes of the entries es of mapFilter, in iteration order. */
  function Outcomes(fieldList: FieldList, op: LogicalOperator, mapFilter: Entries, es: Entries, clazz: TypeTag): Result<seq<Outcome>>
    decreases |es|
  {
    if |es| == 0 then Ok([])
    else Then(EntryOutcomes(fieldList, op, mapFilter, es[0].0, es[0].1, clazz),
              Outcomes(fieldList, op, mapFilter, es[1..], clazz))
  }

  /** The two lists after a run of outcomes, or its exception. */
  function Apply(b: Built, r: Result<seq<Outcome>>): (c: Result<Built>)
    ensures r.Err? ==> c == Err(r.error)
    ensures r.Ok? ==> c == Ok(Built(b.filters + Filters(r.value), b.errors + Errors(r.value)))
  {
    if r.Err? then Err(r.error) else Ok(Built(b.filters + Filters(r.value), b.errors + Errors(r.value)))
  }

  lemma ThenAssoc(x: Result<seq<Outcome>>, y: Result<seq<Outcome>>, z: Result<seq<Outcome>>)
    ensures Then(Then(x, y), z) == Then(x, Then(y, z))
  {
    if x.Ok? && y.Ok? && z.Ok? {
      assert (x.value + y.value) + z.value == x.value + (y.value + z.value);
    }
  }

  lemma ThenUnit(x: Result<seq<Outcome>>)
    ensures Then(x, Ok([])) == x
    ensures Then(Ok([]), x) == x
  {
    if x.Ok? {
      assert x.value + [] == x.value;
      assert [] + x.value == x.value;
    }
  }

  lemma ApplyThen(b: Built, x: Result<seq<Outcome>>, y: Result<seq<Outcome>>)
    requires x.Ok?
    ensures Apply(b, Then(x, y)) == Apply(Apply(b, x).value, y)
  {
    if y.Ok? {
      FiltersAppend(x.value, y.value);
      ErrorsAppend(x.value, y.value);
      assert b.filters + Filters(x.value + y.value) == (b.filters + Filters(x.value)) + Filters(y.value);
      assert b.errors + Errors(x.value + y.value) == (b.errors + Errors(x.value)) + Errors(y.value);
    }
  }

  lemma ApplySingle(b: Built, o: Result<Outcome>)
    ensures Apply(b, Single(o)) == Record(b, o)
  {
    if o.Ok? {
      var os := [o.value];
      assert os[1..] == [];
      match o.value
      case Filtered(f) =>
        assert Filters(os) == [f] && Errors(os) == [];
        assert b.errors + [] == b.errors;
      case Rejected(k) =>
        assert Filters(os) == [] && Errors(os) == [k];
        assert b.filters + [] == b.filters;
    }
  }

  lemma ApplyEmpty(b: Built)
    ensures Apply(b, Ok([])) == Ok(b)
  {
    assert b.filters + [] == b.filters && b.errors + [] == b.errors;
  }

  lemma {:induction false} ItemsOutcomesSnoc(fieldList: FieldList, op: LogicalOperator, ws: Entries,
                                             wrapper: Option<LogicalOperator>, clazz: TypeTag, i: nat)
    requires i < |ws|
    ensures ItemsOutcomes(fieldList, op, ws[..i + 1], wrapper, clazz)
         == Then(ItemsOutcomes(fieldList, op, ws[..i], wrapper, clazz), Single(ItemOutcome(fieldList, op, ws[i].0, ws[i].1, wrapper, clazz)))
    decreases i
  {
    var head := Single(ItemOutcome(fieldList, op, ws[0].0, ws[0].1, wrapper, clazz));
    var last := Single(ItemOutcome(fieldList, op, ws[i].0, ws[i].1, wrapper, clazz));
    if i == 0 {
      assert ws[..1][1..] == [];
      ThenUnit(head);
    } else {
      ItemsOutcomesSnoc(fieldList, op, ws[1..], wrapper, clazz, i - 1);
      assert ws[..i + 1][1..] == ws[1..][..i];
      assert ws[..i][1..] == ws[1..][..i - 1];
      ThenAssoc(head, ItemsOutcomes(fieldList, op, ws[1..][..i - 1], wrapper, clazz), last);
    }
  }

  lemma {:induction false} OutcomesSnoc(fieldList: FieldList, op: LogicalOperator, mapFilter: Entries, es: Entries, clazz: TypeTag, i: nat)
    requires i < |es|
    ensures Outcomes(fieldList, op, mapFilter, es[..i + 1], clazz)
         == Then(Outcomes(fieldList, op, mapFilter, es[..i], clazz), EntryOutcomes(fieldList, op, mapFilter, es[i].0, es[i].1, clazz))
    decreases i
  {
    var head := EntryOutcomes(fieldList, op, mapFilter, es[0].0, es[0].1, clazz);
    var last := EntryOutcomes(fieldList, op, mapFilter, es[i].0, es[i].1, clazz);
    if i == 0 {
      assert es[..1][1..] == [];
      ThenUnit(head);
    } else {
      OutcomesSnoc(fieldList, op, mapFilter, es[1..], clazz, i - 1);
      assert es[..i + 1][1..] == es[1..][..i];
      assert es[..i][1..] == es[1..][..i - 1];
      ThenAssoc(head, Outcomes(fieldList, op, mapFilter, es[1..][..i - 1], clazz), last);
    }
  }

  /** A nonempty run of items, head first. */
  lemma ItemsOutcomesCons(fieldList: FieldList, op: LogicalOperator, ws: Entries,
                          wrapper: Option<LogicalOperator>, clazz: TypeTag)
    requires |ws| > 0
    ensures ItemsOutcomes(fieldList, op, ws, wrapper, clazz)
         == Then(Single(ItemOutcome(fieldList, op, ws[0].0, ws[0].1, wrapper, clazz)), ItemsOutcomes(fieldList, op, ws[1..], wrapper, clazz))
  {
  }

  /** The first entry of a nonempty a heads the run over a + b. */
  lemma ItemsOutcomesConsAppend(fieldList: FieldList, op: LogicalOperator, a: Entries, b: Entries,
                                wrapper: Option<LogicalOperator>, clazz: TypeTag)
    requires |a| > 0
    ensures ItemsOutcomes(fieldList, op, a + b, wrapper, clazz)
         == Then(Single(ItemOutcome(fieldList, op, a[0].0, a[0].1, wrapper, clazz)), ItemsOutcomes(fieldList, op, a[1..] + b, wrapper, clazz))
  {
    var ab := a + b;
    assert ab[0] == a[0] && ab[1..] == a[1..] + b;
  }

  /** A nonempty run of entries, head first. */
  lemma OutcomesCons(fieldList: FieldList, op: LogicalOperator, mapFilter: Entries, es: Entries, clazz: TypeTag)
    requires |es| > 0
    ensures Outcomes(fieldList, op, mapFilter, es, clazz)
         == Then(EntryOutcomes(fieldList, op, mapFilter, es[0].0, es[0].1, clazz), Outcomes(fieldList, op, mapFilter, es[1..], clazz))
  {
  }

  lemma OutcomesConsAppend(fieldList: FieldList, op: LogicalOperator, mapFilter: Entries, a: Entries, b: Entries, clazz: TypeTag)
    requires |a| > 0
    ensures Outcomes(fieldList, op, mapFilter, a + b, clazz)
         == Then(EntryOutcomes(fieldList, op, mapFilter, a[0].0, a[0].1, clazz), Outcomes(fieldList, op, mapFilter, a[1..] + b, clazz))
  {
    var ab := a + b;
    assert ab[0] == a[0] && ab[1..] == a[1..] + b;
  }

  lemma {:induction false} ItemsOutcomesAppend(fieldList: FieldList, op: LogicalOperator, a: Entries, b: Entries,
                                               wrapper: Option<LogicalOperator>, clazz: TypeTag)
    ensures ItemsOutcomes(fieldList, op, a + b, wrapper, clazz)
         == Then(ItemsOutcomes(fieldList, op, a, wrapper, clazz), ItemsOutcomes(fieldList, op, b, wrapper, clazz))
    decreases |a|
  {
    if |a| == 0 {
      assert a + b == b;
      ThenUnit(ItemsOutcomes(fieldList, op, b, wrapper, clazz));
    } else {
      ItemsOutcomesAppend(fieldList, op, a[1..], b, wrapper, clazz);
      ItemsOutcomesConsAppend(fieldList, op, a, b, wrapper, clazz);
      ThenAssoc(Single(ItemOutcome(fieldList, op, a[0].0, a[0].1, wrapper, clazz)),
                ItemsOutcomes(fieldList, op, a[1..], wrapper, clazz), ItemsOutcomes(fieldList, op, b, wrapper, clazz));
    }
  }

  lemma {:induction false} OutcomesAppend(fieldList: FieldList, op: LogicalOperator, mapFilter: Entries, a: Entries, b: Entries, clazz: TypeTag)
    ensures Outcomes(fieldList, op, mapFilter, a + b, clazz)
         == Then(Outcomes(fieldList, op, mapFilter, a, clazz), Outcomes(fieldList, op, mapFilter, b, clazz))
    decreases |a|
  {
    if |a| == 0 {
      assert a + b == b;
      ThenUnit(Outcomes(fieldList, op, mapFilter, b, clazz));
    } else {
      OutcomesAppend(fieldList, op, mapFilter, a[1..], b, clazz);
      OutcomesConsAppend(fieldList, op, mapFilter, a, b, clazz);
      ThenAssoc(EntryOutcomes(fieldList, op, mapFilter, a[0].0, a[0].1, clazz),
                Outcomes(fieldList, op, mapFilter, a[1..], clazz), Outcomes(fieldList, op, mapFilter, b, clazz));
    }
  }

  /** Recording one more outcome after a run that succeeded. */
  lemma ApplyStep(b0: Built, prefix: Result<seq<Outcome>>, o: Result<Outcome>, built: Built)
    requires Apply(b0, prefix) == Ok(built)
    ensures Apply(b0, Then(prefix, Single(o))) == Record(built, o)
  {
    ApplyThen(b0, prefix, Single(o));
    ApplySingle(built, o);
  }

  /** Before the first wrapped item the lists are as given. */
  lemma ItemsStart(b0: Built, fieldList: FieldList, op: LogicalOperator, ws: Entries,
                   wrapper: Option<LogicalOperator>, clazz: TypeTag)
    ensures Apply(b0, ItemsOutcomes(fieldList, op, ws[..0], wrapper, clazz)) == Ok(b0)
  {
    assert ws[..0] == [];
    ApplyEmpty(b0);
  }

  lemma EntriesSplit(es: Entries, i: nat)
    requires i <= |es|
    ensures es == es[..i] + es[i..]
  {
  }

  /** Once a prefix of the wrapped items fails, the whole list fails the same way. */
  lemma ItemsFailFast(fieldList: FieldList, op: LogicalOperator, ws: Entries, p: Entries, q: Entries,
                      wrapper: Option<LogicalOperator>, clazz: TypeTag)
    requires ws == p + q && ItemsOutcomes(fieldList, op, p, wrapper, clazz).Err?
    ensures ItemsOutcomes(fieldList, op, ws, wrapper, clazz) == ItemsOutcomes(fieldList, op, p, wrapper, clazz)
  {
    ItemsOutcomesAppend(fieldList, op, p, q, wrapper, clazz);
  }

  /** One turn of processNotOperator's loop: recording wrapped item i after
      the first i gives the lists after the first i+1, and an exception at
      item i is the result of the whole list. */
  lemma ItemsStep(b0: Built, fieldList: FieldList, op: LogicalOperator, ws: Entries,
                  wrapper: Option<LogicalOperator>, clazz: TypeTag, i: nat, built: Built, res: Result<Built>)
    requires i < |ws|
    requires Apply(b0, ItemsOutcomes(fieldList, op, ws[..i], wrapper, clazz)) == Ok(built)
    requires res == Record(built, ItemOutcome(fieldList, op, ws[i].0, ws[i].1, wrapper, clazz))
    ensures res.Ok? ==> Apply(b0, ItemsOutcomes(fieldList, op, ws[..i + 1], wrapper, clazz)) == Ok(res.value)
    ensures res.Err? ==> Apply(b0, ItemsOutcomes(fieldList, op, ws, wrapper, clazz)) == Err(res.error)
  {
    var o := ItemOutcome(fieldList, op, ws[i].0, ws[i].1, wrapper, clazz);
    ItemsOutcomesSnoc(fieldList, op, ws, wrapper, clazz, i);
    ApplyStep(b0, ItemsOutcomes(fieldList, op, ws[..i], wrapper, clazz), o, built);
    if o.Err? {
      EntriesSplit(ws, i + 1);
      ItemsFailFast(fieldList, op, ws, ws[..i + 1], ws[i + 1..], wrapper, clazz);
    }
  }

  /** The forEach of processNotOperator: processFilterItem on each wrapped
      entry in order, with NOT as the wrapper. */
  method ProcessWrapList(wrapList: Entries, errorList: seq<string>, fieldList: FieldList,
                         logicalOperator: LogicalOperator, filters: seq<DbFilter>, clazz: TypeTag)
    returns (r: Result<Built>)
    ensures r == Apply(Built(filters, errorList), ItemsOutcomes(fieldList, logicalOperator, wrapList, Some(NOT), clazz))
  {
    var logicalWrapper := Some(NOT);
    var built := Built(filters, errorList);
    ghost var b0 := built;
    ItemsStart(b0, fieldList, logicalOperator, wrapList, logicalWrapper, clazz);
    for i := 0 to |wrapList|
      invariant Apply(b0, ItemsOutcomes(fieldList, logicalOperator, wrapList[..i], logicalWrapper, clazz)) == Ok(built)
    {
      var item := wrapList[i];
      var res := ProcessFilterItem(built.errors, fieldList, logicalOperator, built.filters, item.0, item.1, logicalWrapper, clazz);
      ItemsStep(b0, fieldList, logicalOperator, wrapList, logicalWrapper, clazz, i, built, res);
      if res.Err? {
        return Err(res.error);
      }
      built := res.value;
    }
    assert wrapList[..|wrapList|] == wrapList;
    return Ok(built);
  }

  /** DbFilterBuilder.processNotOperator: the wrapped entries of the NOT key,
      each processed with NOT as the wrapper. */
  method ProcessNotOperator(mapFilter: Entries, key: string, errorList: seq<string>, fieldList: FieldList,
                            logicalOperator: LogicalOperator, filters: seq<DbFilter>, clazz: TypeTag)
    returns (r: Result<Built>)
    ensures r == Apply(Built(filters, errorList), ItemsOutcomes(fieldList, logicalOperator, ExtractWrapList(mapFilter, key), Some(NOT), clazz))
  {
    var wrapList := ExtractWrapList(mapFilter, key);
    r := ProcessWrapList(wrapList, errorList, fieldList, logicalOperator, filters, clazz);
  }

  /** The body of buildFilter's forEach for one entry. */
  method ProcessEntry(mapFilter: Entries, key: string, filterValue: Value, built: Built, fieldList: FieldList,
                      logicalOperator: LogicalOperator, clazz: TypeTag)
    returns (r: Result<Built>)
    ensures r == Apply(built, EntryOutcomes(fieldList, logicalOperator, mapFilter, key, filterValue, clazz))
  {
    if key == PageRequestBuilder.PAGE_PAR {
      ApplyEmpty(built);
      return Ok(built);
    }
    if EqualsIgnoreCase(key, "NOT") {
      r := ProcessNotOperator(mapFilter, key, built.errors, fieldList, logicalOperator, built.filters, clazz);
    } else {
      ApplySingle(built, ItemOutcome(fieldList, logicalOperator, key, filterValue, None, clazz));
      r := ProcessFilterItem(built.errors, fieldList, logicalOperator, built.filters, key, filterValue, None, clazz);
    }
  }

  /** Before the first entry the lists are as given. */
  lemma EntriesStart(b0: Built, fieldList: FieldList, op: LogicalOperator, mapFilter: Entries, es: Entries, clazz: TypeTag)
    ensures Apply(b0, Outcomes(fieldList, op, mapFilter, es[..0], clazz)) == Ok(b0)
  {
    assert es[..0] == [];
    ApplyEmpty(b0);
  }

  /** Once a prefix of the entries fails, the whole map fails the same way. */
  lemma EntriesFailFast(fieldList: FieldList, op: LogicalOperator, mapFilter: Entries, es: Entries, p: Entries, q: Entries, clazz: TypeTag)
    requires es == p + q && Outcomes(fieldList, op, mapFilter, p, clazz).Err?
    ensures Outcomes(fieldList, op, mapFilter, es, clazz) == Outcomes(fieldList, op, mapFilter, p, clazz)
  {
    OutcomesAppend(fieldList, op, mapFilter, p, q, clazz);
  }

  /** One turn of buildFilter's loop, as ItemsStep is for processNotOperator. */
  lemma EntriesStep(b0: Built, fieldList: FieldList, op: LogicalOperator, mapFilter: Entries, es: Entries,
                    clazz: TypeTag, i: nat, built: Built, res: Result<Built>)
    requires i < |es|
    requires Apply(b0, Outcomes(fieldList, op, mapFilter, es[..i], clazz)) == Ok(built)
    requires res == Apply(built, EntryOutcomes(fieldList, op, mapFilter, es[i].0, es[i].1, clazz))
    ensures res.Ok? ==> Apply(b0, Outcomes(fieldList, op, mapFilter, es[..i + 1], clazz)) == Ok(res.value)
    ensures res.Err? ==> Apply(b0, Outcomes(fieldList, op, mapFilter, es, clazz)) == Err(res.error)
  {
    var e := EntryOutcomes(fieldList, op, mapFilter, es[i].0, es[i].1, clazz);
    OutcomesSnoc(fieldList, op, mapFilter, es, clazz, i);
    ApplyThen(b0, Outcomes(fieldList, op, mapFilter, es[..i], clazz), e);
    if e.Err? {
      EntriesSplit(es, i + 1);
      EntriesFailFast(fieldList, op, mapFilter, es, es[..i + 1], es[i + 1..], clazz);
    }
  }

  /** DbFilterBuilder.buildFilter: the filter map's entries in iteration
      order, appending to a fresh filter list and to the caller's error list. */
  method BuildFilter(mapFilter: Entries, errorList: seq<string>, fieldList: FieldList,
                     logicalOperator: LogicalOperator, clazz: TypeTag)
    returns (r: Result<Built>)
    ensures r == Apply(Built([], errorList), Outcomes(fieldList, logicalOperator, mapFilter, mapFilter, clazz))
  {
    var built := Built([], errorList);
    EntriesStart(built, fieldList, logicalOperator, mapFilter, mapFilter, clazz);
    for i := 0 to |mapFilter|
      invariant Apply(Built([], errorList), Outcomes(fieldList, logicalOperator, mapFilter, mapFilter[..i], clazz)) == Ok(built)
    {
      var entry := mapFilter[i];
      var res := ProcessEntry(mapFilter, entry.0, entry.1, built, fieldList, logicalOperator, clazz);
      EntriesStep(Built([], errorList), fieldList, logicalOperator, mapFilter, mapFilter, clazz, i, built, res);
      if res.Err? {
        return Err(res.error);
      }
      built := res.value;
    }
    assert mapFilter[..|mapFilter|] == mapFilter;
    return Ok(built);
  }

  /** The public four-argument buildFilter: AND as the logical operator. */
  method BuildFilterAnd(mapFilter: Entries, errorList: seq<string>, fieldList: FieldList, clazz: TypeTag)
    returns (r: Result<Built>)
    ensures r == Apply(Built([], errorList), Outcomes(fieldList, AND, mapFilter, mapFilter, clazz))
  {
    r := BuildFilter(mapFilter, errorList, fieldList, AND, clazz);
  }

  // ---------------------------------------------------------------------
  // getDbFilters

  /** The message of WrongFilterException. */
  function WrongFilterMessage(clazz: ClassDecl, errorList: seq<string>): string {
    SimpleName(clazz.name) + " don't accept those fields as filter: " + Join(errorList, ", ")
  }

  /** The result getDbFilters computes: no filters for an empty map;
      otherwise the built filters, or one WrongFilterException naming every
      unknown key when there is one. */
  function DbFiltersOf(clazz: ClassDecl, mapFilter: Entries, op: LogicalOperator): Result<seq<DbFilter>> {
    if |mapFilter| == 0 then Ok([])
    else
      var os :- Outcomes(FieldsMap(DeclaredFields(Hierarchy(Some(clazz)))), op, mapFilter, mapFilter, TypeOf(clazz));
      if |Errors(os)| > 0 then Err(WrongFilter(WrongFilterMessage(clazz, Errors(os))))
      else Ok(Filters(os))
  }

  /** DbFilterBuilder.getDbFilters(clazz, mapFilter, logicalOperator) */
  method GetDbFilters(clazz: ClassDecl, mapFilter: Entries, logicalOperator: LogicalOperator)
    returns (r: Result<seq<DbFilter>>)
    ensures |mapFilter| == 0 ==> r == Ok([])
    ensures r == DbFiltersOf(clazz, mapFilter, logicalOperator)
  {
    if |mapFilter| == 0 {
      return Ok([]);
    }
    var errorList: seq<string> := [];
    var fieldList := GetFieldList(clazz);
    var built :- BuildFilter(mapFilter, errorList, fieldList, logicalOperator, TypeOf(clazz));
    ghost var os := Outcomes(fieldList, logicalOperator, mapFilter, mapFilter, TypeOf(clazz)).value;
    assert built.errors == Errors(os) by { assert [] + Errors(os) == Errors(os); }
    assert built.filters == Filters(os) by { assert [] + Filters(os) == Filters(os); }
    if |built.errors| > 0 {
      return Err(WrongFilter(WrongFilterMessage(clazz, built.errors)));
    }
    return Ok(built.filters);
  }

  /** DbFilterBuilder.getDbFilters(clazz, mapFilter): AND by default. */
  method GetDbFiltersAnd(clazz: ClassDecl, mapFilter: Entries) returns (r: Result<seq<DbFilter>>)
    ensures r == DbFiltersOf(clazz, mapFilter, AND)
  {
    r := GetDbFilters(clazz, mapFilter, AND);
  }

  // ---------------------------------------------------------------------
  // Properties of the builder

  /** The wrapped items are processed one by one: all succeed exactly when
      every item does, and then give one outcome each, in order. */
  lemma {:induction false} ItemsOutcomesOk(fieldList: FieldList, op: LogicalOperator, ws: Entries,
                                           wrapper: Option<LogicalOperator>, clazz: TypeTag)
    ensures var r := ItemsOutcomes(fieldList, op, ws, wrapper, clazz);
      (r.Ok? <==> forall i :: 0 <= i < |ws| ==> ItemOutcome(fieldList, op, ws[i].0, ws[i].1, wrapper, clazz).Ok?)
      && (r.Ok? ==> |r.value| == |ws|
                    && forall i :: 0 <= i < |ws| ==> r.value[i] == ItemOutcome(fieldList, op, ws[i].0, ws[i].1, wrapper, clazz).value)
    decreases |ws|
  {
    if |ws| > 0 {
      ItemsOutcomesOk(fieldList, op, ws[1..], wrapper, clazz);
      var head := ItemOutcome(fieldList, op, ws[0].0, ws[0].1, wrapper, clazz);
      var rest := ItemsOutcomes(fieldList, op, ws[1..], wrapper, clazz);
      ItemsOutcomesCons(fieldList, op, ws, wrapper, clazz);
      assert forall i :: 1 <= i < |ws| ==> ws[1..][i - 1] == ws[i];
    }
  }

  /** When processing the wrapped items fails, the exception is that of the
      first failing item. */
  lemma {:induction false} ItemsOutcomesFirstError(fieldList: FieldList, op: LogicalOperator, ws: Entries,
                                                   wrapper: Option<LogicalOperator>, clazz: TypeTag)
    ensures var r := ItemsOutcomes(fieldList, op, ws, wrapper, clazz);
      r.Err? ==> exists i :: 0 <= i < |ws| && ItemOutcome(fieldList, op, ws[i].0, ws[i].1, wrapper, clazz).Err?
                             && r == Err(ItemOutcome(fieldList, op, ws[i].0, ws[i].1, wrapper, clazz).error)
                             && forall j :: 0 <= j < i ==> ItemOutcome(fieldList, op, ws[j].0, ws[j].1, wrapper, clazz).Ok?
    decreases |ws|
  {
    if |ws| > 0 {
      var head := ItemOutcome(fieldList, op, ws[0].0, ws[0].1, wrapper, clazz);
      var rest := ItemsOutcomes(fieldList, op, ws[1..], wrapper, clazz);
      var r := ItemsOutcomes(fieldList, op, ws, wrapper, clazz);
      ItemsOutcomesCons(fieldList, op, ws, wrapper, clazz);
      if head.Err? {
        assert r == Err(head.error);
      } else if rest.Err? {
        assert r == rest;
        ItemsOutcomesFirstError(fieldList, op, ws[1..], wrapper, clazz);
        var i :| 0 <= i < |ws[1..]| && ItemOutcome(fieldList, op, ws[1..][i].0, ws[1..][i].1, wrapper, clazz).Err?
                 && rest == Err(ItemOutcome(fieldList, op, ws[1..][i].0, ws[1..][i].1, wrapper, clazz).error)
                 && forall j :: 0 <= j < i ==> ItemOutcome(fieldList, op, ws[1..][j].0, ws[1..][j].1, wrapper, clazz).Ok?;
        assert ws[1..][i] == ws[i + 1];
        forall j | 0 <= j < i + 1
          ensures ItemOutcome(fieldList, op, ws[j].0, ws[j].1, wrapper, clazz).Ok?
        {
          if j > 0 {
            assert ws[1..][j - 1] == ws[j];
          }
        }
      }
    }
  }

  /** Building ignores _page wherever it occurs: removing it changes nothing. */
  lemma {:induction false} PageKeyIgnored(fieldList: FieldList, op: LogicalOperator, mapFilter: Entries, es: Entries, clazz: TypeTag)
    ensures Outcomes(fieldList, op, mapFilter, es, clazz)
         == Outcomes(fieldList, op, mapFilter, Remove(es, PageRequestBuilder.PAGE_PAR), clazz)
    decreases |es|
  {
    if |es| > 0 {
      PageKeyIgnored(fieldList, op, mapFilter, es[1..], clazz);
      var rest := Outcomes(fieldList, op, mapFilter, es[1..], clazz);
      var tail := Remove(es[1..], PageRequestBuilder.PAGE_PAR);
      var head := EntryOutcomes(fieldList, op, mapFilter, es[0].0, es[0].1, clazz);
      OutcomesCons(fieldList, op, mapFilter, es, clazz);
      if es[0].0 == PageRequestBuilder.PAGE_PAR {
        assert Remove(es, PageRequestBuilder.PAGE_PAR) == tail;
        assert head == Ok([]);
        ThenUnit(rest);
      } else {
        var kept := [es[0]] + tail;
        assert Remove(es, PageRequestBuilder.PAGE_PAR) == kept;
        assert kept[0] == es[0] && kept[1..] == tail;
        assert Outcomes(fieldList, op, mapFilter, kept, clazz) == Then(head, Outcomes(fieldList, op, mapFilter, tail, clazz));
      }
    }
  }

  /** What each kind of entry contributes: nothing for _page; for a NOT key
      one outcome per entry of its map value, each with the NOT wrapper
      (nothing for a non-map value); for any other key exactly one outcome,
      with no wrapper. */
  lemma EntryOutcomesShape(fieldList: FieldList, op: LogicalOperator, mapFilter: Entries, key: string, value: Value, clazz: TypeTag)
    ensures key == PageRequestBuilder.PAGE_PAR ==> EntryOutcomes(fieldList, op, mapFilter, key, value, clazz) == Ok([])
    ensures key != PageRequestBuilder.PAGE_PAR && EqualsIgnoreCase(key, "NOT") ==>
      var ws := ExtractWrapList(mapFilter, key);
      var r := EntryOutcomes(fieldList, op, mapFilter, key, value, clazz);
      (!Get(mapFilter, key).Map? ==> r == Ok([]))
      && (r.Ok? ==> |r.value| == |ws| && forall i :: 0 <= i < |ws| ==>
                      ItemOutcome(fieldList, op, ws[i].0, ws[i].1, Some(NOT), clazz).Ok?
                      && r.value[i] == ItemOutcome(fieldList, op, ws[i].0, ws[i].1, Some(NOT), clazz).value)
    ensures key != PageRequestBuilder.PAGE_PAR && !EqualsIgnoreCase(key, "NOT") ==>
      var r := EntryOutcomes(fieldList, op, mapFilter, key, value, clazz);
      var o := ItemOutcome(fieldList, op, key, value, None, clazz);
      (r.Ok? <==> o.Ok?) && (r.Ok? ==> r.value == [o.value])
  {
    if key != PageRequestBuilder.PAGE_PAR && EqualsIgnoreCase(key, "NOT") {
      ItemsOutcomesOk(fieldList, op, ExtractWrapList(mapFilter, key), Some(NOT), clazz);
    }
  }

  /** Every outcome of an item: a filter for a known field carrying the
      caller's logical operator and a wrapper that is NOT or absent, or an
      unknown key. */
  predicate WellBuilt(fieldList: FieldList, op: LogicalOperator, clazz: TypeTag, o: Outcome) {
    match o
    case Filtered(f) => f.field in fieldList && f.logicalOperator == op && f.originalClass == clazz
                        && (f.wrappedLogicalOperator.None? || f.wrappedLogicalOperator == Some(NOT))
    case Rejected(k) => k !in fieldList
  }

  lemma ItemOutcomeWellBuilt(fieldList: FieldList, op: LogicalOperator, key: string, value: Value,
                             wrapper: Option<LogicalOperator>, clazz: TypeTag)
    requires wrapper.None? || wrapper == Some(NOT)
    ensures var r := ItemOutcome(fieldList, op, key, value, wrapper, clazz);
      r.Ok? ==> WellBuilt(fieldList, op, clazz, r.value)
  {
  }

  lemma {:induction false} ThenWellBuilt(fieldList: FieldList, op: LogicalOperator, clazz: TypeTag, x: Result<seq<Outcome>>, y: Result<seq<Outcome>>)
    requires x.Ok? ==> forall i :: 0 <= i < |x.value| ==> WellBuilt(fieldList, op, clazz, x.value[i])
    requires y.Ok? ==> forall i :: 0 <= i < |y.value| ==> WellBuilt(fieldList, op, clazz, y.value[i])
    ensures Then(x, y).Ok? ==> forall i :: 0 <= i < |Then(x, y).value| ==> WellBuilt(fieldList, op, clazz, Then(x, y).value[i])
  {
    if x.Ok? && y.Ok? {
      var z := x.value + y.value;
      assert forall i :: |x.value| <= i < |z| ==> z[i] == y.value[i - |x.value|];
    }
  }

  /** Every outcome of the builder is well built. */
  lemma {:induction false} OutcomesWellBuilt(fieldList: FieldList, op: LogicalOperator, mapFilter: Entries, es: Entries, clazz: TypeTag)
    ensures var r := Outcomes(fieldList, op, mapFilter, es, clazz);
      r.Ok? ==> forall i :: 0 <= i < |r.value| ==> WellBuilt(fieldList, op, clazz, r.value[i])
    decreases |es|
  {
    if |es| > 0 {
      OutcomesWellBuilt(fieldList, op, mapFilter, es[1..], clazz);
      var (key, value) := es[0];
      EntryOutcomesShape(fieldList, op, mapFilter, key, value, clazz);
      var head := EntryOutcomes(fieldList, op, mapFilter, key, value, clazz);
      if head.Ok? {
        forall i | 0 <= i < |head.value| ensures WellBuilt(fieldList, op, clazz, head.value[i]) {
          if key != PageRequestBuilder.PAGE_PAR && EqualsIgnoreCase(key, "NOT") {
            var w := ExtractWrapList(mapFilter, key)[i];
            ItemOutcomeWellBuilt(fieldList, op, w.0, w.1, Some(NOT), clazz);
          } else {
            ItemOutcomeWellBuilt(fieldList, op, key, value, None, clazz);
          }
        }
      }
      ThenWellBuilt(fieldList, op, clazz, EntryOutcomes(fieldList, op, mapFilter, key, value, clazz), Outcomes(fieldList, op, mapFilter, es[1..], clazz));
    }
  }

  /** Building goes on after an unknown key: when the whole map builds
      without an exception, every plain entry has its filter among the
      filters, or its camel-cased key among the errors. */
  lemma {:induction false} EveryEntryAccounted(fieldList: FieldList, op: LogicalOperator, mapFilter: Entries, es: Entries, clazz: TypeTag, n: int)
    requires 0 <= n < |es|
    requires es[n].0 != PageRequestBuilder.PAGE_PAR && !EqualsIgnoreCase(es[n].0, "NOT")
    requires Outcomes(fieldList, op, mapFilter, es, clazz).Ok?
    ensures var os := Outcomes(fieldList, op, mapFilter, es, clazz).value;
      var o := ItemOutcome(fieldList, op, es[n].0, es[n].1, None, clazz);
      o.Ok?
      && (CamelCase(es[n].0) !in fieldList ==> CamelCase(es[n].0) in Errors(os))
      && (CamelCase(es[n].0) in fieldList ==> o.value.Filtered? && o.value.filter in Filters(os))
    decreases n
  {
    var (key, value) := es[0];
    EntryOutcomesShape(fieldList, op, mapFilter, key, value, clazz);
    var head := EntryOutcomes(fieldList, op, mapFilter, key, value, clazz);
    var rest := Outcomes(fieldList, op, mapFilter, es[1..], clazz);
    var os := Outcomes(fieldList, op, mapFilter, es, clazz).value;
    OutcomesCons(fieldList, op, mapFilter, es, clazz);
    assert os == head.value + rest.value;
    FiltersAppend(head.value, rest.value);
    ErrorsAppend(head.value, rest.value);
    if n == 0 {
      FiltersMembers(head.value);
    } else {
      EveryEntryAccounted(fieldList, op, mapFilter, es[1..], clazz, n - 1);
    }
  }

  /** getDbFilters fails with WrongFilterException exactly when building
      succeeded but rejected some key; the message names every rejected
      key. An empty map gives no filters. */
  lemma DbFiltersOfCases(clazz: ClassDecl, mapFilter: Entries, op: LogicalOperator)
    ensures |mapFilter| == 0 ==> DbFiltersOf(clazz, mapFilter, op) == Ok([])
    ensures |mapFilter| > 0 ==>
      var fl := FieldsMap(DeclaredFields(Hierarchy(Some(clazz))));
      var r := Outcomes(fl, op, mapFilter, mapFilter, TypeOf(clazz));
      (r.Err? ==> DbFiltersOf(clazz, mapFilter, op) == Err(r.error))
      && (r.Ok? && |Errors(r.value)| > 0 ==>
            DbFiltersOf(clazz, mapFilter, op) == Err(WrongFilter(WrongFilterMessage(clazz, Errors(r.value))))
            && forall k :: k in Errors(r.value) ==> k !in fl)
      && (r.Ok? && |Errors(r.value)| == 0 ==>
            DbFiltersOf(clazz, mapFilter, op) == Ok(Filters(r.value))
            && forall f :: f in Filters(r.value) ==> f.field in fl && f.logicalOperator == op)
  {
    if |mapFilter| > 0 {
      var fl := FieldsMap(DeclaredFields(Hierarchy(Some(clazz))));
      var r := Outcomes(fl, op, mapFilter, mapFilter, TypeOf(clazz));
      OutcomesWellBuilt(fl, op, mapFilter, mapFilter, TypeOf(clazz));
      if r.Ok? {
        FiltersMembers(r.value);
      }
    }
  }

  /** An unknown plain key always ends in WrongFilterException when nothing
      else throws. */
  lemma UnknownKeyIsReported(clazz: ClassDecl, mapFilter: Entries, op: LogicalOperator, n: int)
    requires 0 <= n < |mapFilter|
    requires mapFilter[n].0 != PageRequestBuilder.PAGE_PAR && !EqualsIgnoreCase(mapFilter[n].0, "NOT")
    requires CamelCase(mapFilter[n].0) !in FieldsMap(DeclaredFields(Hierarchy(Some(clazz))))
    requires Outcomes(FieldsMap(DeclaredFields(Hierarchy(Some(clazz)))), op, mapFilter, mapFilter, TypeOf(clazz)).Ok?
    ensures DbFiltersOf(clazz, mapFilter, op).Err? && DbFiltersOf(clazz, mapFilter, op).error.WrongFilter?
  {
    var fl := FieldsMap(DeclaredFields(Hierarchy(Some(clazz))));
    EveryEntryAccounted(fl, op, mapFilter, mapFilter, TypeOf(clazz), n);
  }

  /** A filter built from the one-entry map {key: value} holds a value no
      larger than that value: the value itself, null, or (under a NOT key)
      one of its entries. */
  lemma SingleEntryBound(fieldList: FieldList, op: LogicalOperator, key: string, value: Value, clazz: TypeTag)
    ensures var r := Outcomes(fieldList, op, [(key, value)], [(key, value)], clazz);
      r.Ok? ==> forall f :: f in Filters(r.value) ==> Size(f.value) <= Size(value)
  {
    var m := [(key, value)];
    var head := EntryOutcomes(fieldList, op, m, key, value, clazz);
    assert m[1..] == [];
    assert Outcomes(fieldList, op, m, m[1..], clazz) == Ok([]);
    ThenUnit(head);
    assert Outcomes(fieldList, op, m, m, clazz) == head;
    if head.Ok? {
      FiltersMembers(head.value);
      EntryBound(fieldList, op, m, key, value, clazz);
    }
  }

  lemma EntryBound(fieldList: FieldList, op: LogicalOperator, m: Entries, key: string, value: Value, clazz: TypeTag)
    requires m == [(key, value)]
    ensures var r := EntryOutcomes(fieldList, op, m, key, value, clazz);
      r.Ok? ==> forall o :: o in r.value && o.Filtered? ==> Size(o.filter.value) <= Size(value)
  {
    var r := EntryOutcomes(fieldList, op, m, key, value, clazz);
    EntryOutcomesShape(fieldList, op, m, key, value, clazz);
    if r.Ok? && key != PageRequestBuilder.PAGE_PAR && EqualsIgnoreCase(key, "NOT") {
      var ws := ExtractWrapList(m, key);
      assert Get(m, key) == value;
      forall o | o in r.value && o.Filtered? ensures Size(o.filter.value) <= Size(value) {
        var k :| 0 <= k < |r.value| && r.value[k] == o;
        if !o.filter.value.Null? {
          assert o.filter.value == ws[k].1;
          EntryValueSmaller(ws, k);
        }
      }
    }
  }
}
