/** BaseFilterGenerator: compiles a list of DbFilters into a JPA
    Specification. The Criteria API it calls is modelled as the Pred and Expr
    datatypes below; the JPA metamodel and the entity reflection it consults
    are the Metamodel input. */
module BaseFilterGenerator {
  import opened Results
  import opened Text
  import opened Values
  import opened JavaTypes
  import opened JavaNumbers
  import opened IntegerTypeCaster
  import opened DbFilters
  import opened StringUtils
  import opened DbFilterBuilder

  // ---------------------------------------------------------------------
  // The Criteria API as data

  /** A value handed to the CriteriaBuilder after castToRequiredType. */
  datatype Cast =
    | CNull                               // null
    | CText(text: string)                 // String
    | CInt(i: int)                        // Integer
    | CLong(l: int)                       // Long
    | CShort(sh: int)                     // Short
    | CByte(bt: int)                      // Byte
    | CBool(b: bool)                      // Boolean
    | CChar(c: char)                      // Character
    | CEnum(constant: string)             // the enum constant with this toString
    | CParsed(tag: TypeTag, source: string) // a library conversion of source to tag's type
    | CRaw(raw: Value)                    // the filter value itself
    | CList(items: seq<Cast>)             // a nested List from castToList

  /** An expression: a field of the current root or join, its upper-case, or
      a literal. */
  datatype Expr = Attr(name: string) | Upcased(e: Expr) | Lit(c: Cast)

  /** A predicate. Absent is the null a Specification may return. */
  datatype Pred =
    | IsNull(e: Expr)
    | Eq(lhs: Expr, rhs: Expr)
    | Like(lhs: Expr, pattern: string)
    | In(lhs: Expr, items: seq<Expr>)
    | Between(e: Expr, lo: Expr, hi: Expr)
    | Ge(lhs: Expr, rhs: Expr)
    | Le(lhs: Expr, rhs: Expr)
    | TimeOfDayBetween(e: Expr, lo: Expr, hi: Expr)   // the to_char(SYS_EXTRACT_UTC(..)) range of DATE_TIME_SPLIT
    | Not(p: Pred)
    | And(ps: seq<Pred>)
    | Or(ps: seq<Pred>)
    | Join(field: string, fetch: bool, body: Pred)     // the children of an inner fetch/join
    | Absent

  /** What the compiler reads from JPA and reflection:
      - attributes: the Java type of each attribute of each entity (root.get);
      - joins: the target entity of each association (root.fetch / join);
      - declared: the names of an entity's declared fields, in order;
      - fetch: the @RetrievalStrategy of (class, field) when present, FETCH
        being true; absent means fetch;
      - accepts: whether a library conversion (Double.valueOf, the java.time
        converters, Time.valueOf, ...) accepts a text for a type. */
  datatype Metamodel = Metamodel(
    attributes: map<string, map<string, TypeTag>>,
    joins: map<string, map<string, string>>,
    declared: map<string, seq<string>>,
    fetch: map<(TypeTag, string), bool>,
    accepts: (TypeTag, string) -> bool)

  /** root.get(field): the attribute's Java type, or IllegalArgumentException. */
  function AttributeType(mm: Metamodel, entity: string, field: string): (r: Result<TypeTag>)
    ensures r.Ok? <==> entity in mm.attributes && field in mm.attributes[entity]
    ensures r.Ok? ==> r.value == mm.attributes[entity][field]
    ensures r.Err? ==> r.error == IllegalArgument(field)
  {
    if entity in mm.attributes && field in mm.attributes[entity] then Ok(mm.attributes[entity][field])
    else Err(IllegalArgument(field))
  }

  /** fetchData: true unless a RetrievalStrategy says otherwise. */
  function FetchData(mm: Metamodel, originalClass: TypeTag, field: string): (r: bool)
    ensures (originalClass, field) !in mm.fetch ==> r
    ensures (originalClass, field) in mm.fetch ==> r == mm.fetch[(originalClass, field)]
  {
    if (originalClass, field) in mm.fetch then mm.fetch[(originalClass, field)] else true
  }

  // ---------------------------------------------------------------------
  // castToRequiredType and its helpers

  /** castToEnum: the first constant whose toString equals the text ignoring
      case, or null. */
  function CastToEnum(constants: seq<string>, value: string): (r: Cast)
    ensures r.CNull? <==> forall i :: 0 <= i < |constants| ==> !EqualsIgnoreCase(constants[i], value)
    ensures r.CEnum? ==> exists i :: 0 <= i < |constants| && r.constant == constants[i] && EqualsIgnoreCase(constants[i], value)
                                     && forall j :: 0 <= j < i ==> !EqualsIgnoreCase(constants[j], value)
    ensures r.CNull? || r.CEnum?
    decreases |constants|
  {
    if |constants| == 0 then CNull
    else if EqualsIgnoreCase(constants[0], value) then CEnum(constants[0])
    else
      var r := CastToEnum(constants[1..], value);
      assert r.CEnum? ==> exists i :: 1 <= i < |constants| && r.constant == constants[i] && EqualsIgnoreCase(constants[i], value)
                                      && forall j :: 0 <= j < i ==> !EqualsIgnoreCase(constants[j], value)
      by {
        if r.CEnum? {
          var i :| 0 <= i < |constants| - 1 && r.constant == constants[1..][i] && EqualsIgnoreCase(constants[1..][i], value)
                   && forall j :: 0 <= j < i ==> !EqualsIgnoreCase(constants[1..][j], value);
          assert forall j :: 1 <= j < i + 1 ==> constants[j] == constants[1..][j - 1];
        }
      }
      r
  }

  /** safelyConvertToCharacter */
  function SafelyConvertToCharacter(s: string): (r: Result<Cast>)
    ensures |s| > 0 <==> r.Ok?
    ensures r.Ok? ==> r.value == CChar(s[0])
    ensures r.Err? ==> r.error == IllegalArgument("String is empty, cannot convert to Character")
  {
    if |s| > 0 then Ok(CChar(s[0]))
    else Err(IllegalArgument("String is empty, cannot convert to Character"))
  }

  /** A numeric valueOf: the parsed number, or NumberFormatException. */
  function ParseOr(p: Option<int>, s: string): (r: Result<int>)
    ensures p.Some? ==> r == Ok(p.value)
    ensures p.None? ==> r == Err(NumberFormat(s))
  {
    if p.Some? then Ok(p.value) else Err(NumberFormat(s))
  }

  /** A conversion left to a library: the converted value when the library
      accepts the text, its exception otherwise. */
  function LibraryCast(mm: Metamodel, t: TypeTag, s: string, failure: Error): (r: Result<Cast>)
    ensures mm.accepts(t, s) ==> r == Ok(CParsed(t, s))
    ensures !mm.accepts(t, s) ==> r == Err(failure)
  {
    if mm.accepts(t, s) then Ok(CParsed(t, s)) else Err(failure)
  }

  /** The values the unchecked (Comparable) cast lets through. */
  predicate IsComparable(v: Value) {
    v.Str? || v.Int? || v.Long? || v.Bool?
  }

  /** The types with their own branch in castToRequiredType. */
  predicate HasCast(t: TypeTag) {
    t.StringT? || t.DoubleT? || t.IntegerT? || t.LongT? || t.BigDecimalT? || t.EnumT?
    || t.LocalDateT? || t.OffsetDateTimeT? || t.SqlDateT? || t.TimestampT? || IsBoolean(t)
    || t.InstantT? || t.TimeT? || t.LocalDateTimeT? || t.ShortT? || t.ByteT? || t.CharacterT?
    || t.FloatT? || t.BigIntegerT?
  }

  /** castToRequiredType: the isAssignableFrom dispatch on the field's type,
      in the source's order, applied to value.toString(). */
  function CastToRequiredType(mm: Metamodel, t: TypeTag, value: Value): (r: Result<Cast>)
  {
    if value.Null? then Ok(CNull)
    else
      var s := ToString(value);
      if t.StringT? then Ok(CText(Upper(s)))
      else if t.DoubleT? then LibraryCast(mm, t, s, NumberFormat(s))
      else if t.IntegerT? then (var i :- SafelyParseInteger(s); Ok(CInt(i)))
      else if t.LongT? then (var l :- ParseOr(ParseLong(s), s); Ok(CLong(l)))
      else if t.BigDecimalT? then LibraryCast(mm, t, s, NumberFormat(s))
      else if t.EnumT? then Ok(CastToEnum(t.constants, s))
      else if t.LocalDateT? || t.OffsetDateTimeT? || t.SqlDateT? || t.TimestampT? then LibraryCast(mm, t, s, DateTimeParse(s))
      else if IsBoolean(t) then Ok(CBool(EqualsIgnoreCase(s, "true")))
      else if t.InstantT? then LibraryCast(mm, t, s, DateTimeParse(s))
      else if t.TimeT? then LibraryCast(mm, t, s, IllegalArgument(s))
      else if t.LocalDateTimeT? then LibraryCast(mm, t, s, DateTimeParse(s))
      else if t.ShortT? then (var v :- ParseOr(ParseShort(s), s); Ok(CShort(v)))
      else if t.ByteT? then (var v :- ParseOr(ParseByte(s), s); Ok(CByte(v)))
      else if t.CharacterT? then SafelyConvertToCharacter(s)
      else if t.FloatT? || t.BigIntegerT? then LibraryCast(mm, t, s, NumberFormat(s))
      else if IsComparable(value) then Ok(CRaw(value))
      else Err(ClassCast)
  }

  /** The casting rules the source promises: null stays null, text is
      upper-cased, booleans follow Boolean.parseBoolean, and a type without
      a branch passes the value through unchanged. */
  lemma CastRules(mm: Metamodel, t: TypeTag, value: Value)
    ensures value.Null? ==> CastToRequiredType(mm, t, value) == Ok(CNull)
    ensures !value.Null? && t.StringT? ==> CastToRequiredType(mm, t, value) == Ok(CText(Upper(ToString(value))))
    ensures !value.Null? && IsBoolean(t) ==> CastToRequiredType(mm, t, value) == Ok(CBool(EqualsIgnoreCase(ToString(value), "true")))
    ensures !value.Null? && !HasCast(t) ==>
      CastToRequiredType(mm, t, value) == if IsComparable(value) then Ok(CRaw(value)) else Err(ClassCast)
  {
  }

  /** An enum constant is matched by its toString, ignoring case; no match
      gives null. */
  lemma EnumCastRule(mm: Metamodel, t: TypeTag, value: Value)
    requires !value.Null? && t.EnumT?
    ensures var r := CastToRequiredType(mm, t, value);
      r.Ok? && (r.value.CNull? <==> forall i :: 0 <= i < |t.constants| ==> !EqualsIgnoreCase(t.constants[i], ToString(value)))
      && (r.value.CEnum? ==> r.value.constant in t.constants && EqualsIgnoreCase(r.value.constant, ToString(value)))
  {
  }

  /** The Integer branch saturates at Integer.MAX_VALUE and has no lower
      clamp. */
  lemma IntegerCastRule(mm: Metamodel, value: Value)
    requires !value.Null?
    ensures var r := CastToRequiredType(mm, IntegerT, value);
      var p := ParseLong(ToString(value));
      (r.Ok? <==> p.Some? && p.value >= MIN_INT)
      && (r.Ok? ==> r.value == CInt(if p.value > MAX_INT then MAX_INT else p.value) && r.value.i <= MAX_INT)
  {
  }

  /** The Character branch takes the first char and rejects "". */
  lemma CharacterCastRule(mm: Metamodel, value: Value)
    requires !value.Null?
    ensures var r := CastToRequiredType(mm, CharacterT, value);
      (ToString(value) == "" ==> r == Err(IllegalArgument("String is empty, cannot convert to Character")))
      && (ToString(value) != "" ==> r == Ok(CChar(ToString(value)[0])))
  {
  }

  /** The Long branch accepts exactly what Long.parseLong accepts. */
  lemma LongCastRule(mm: Metamodel, value: Value)
    requires !value.Null?
    ensures var r := CastToRequiredType(mm, LongT, value);
      (r.Ok? <==> ParseLong(ToString(value)).Some?)
      && (r.Ok? ==> r.value == CLong(ParseLong(ToString(value)).value))
  {
  }

  /** castToList: one cast per item, nested lists cast recursively. */
  function CastToList(mm: Metamodel, t: TypeTag, items: seq<Value>): (r: Result<seq<Cast>>)
    decreases items, 1
  {
    if |items| == 0 then Ok([])
    else
      var head :- CastItem(mm, t, items[0]);
      var rest :- CastToList(mm, t, items[1..]);
      Ok([head] + rest)
  }

  /** One item of castToList: a List recursively, anything else by
      castToRequiredType. */
  function CastItem(mm: Metamodel, t: TypeTag, item: Value): (r: Result<Cast>)
    ensures !item.List? ==> r == CastToRequiredType(mm, t, item)
    decreases item, 0
  {
    if item.List? then (var inner :- CastToList(mm, t, item.items); Ok(CList(inner)))
    else CastToRequiredType(mm, t, item)
  }

  /** castToList preserves length, order and nesting: item i becomes the
      cast of item i, and a list item becomes the list of its casts. The
      first failing item's exception is the result. */
  lemma {:induction false} CastToListShape(mm: Metamodel, t: TypeTag, items: seq<Value>)
    ensures var r := CastToList(mm, t, items);
      (r.Ok? <==> forall i :: 0 <= i < |items| ==> CastItem(mm, t, items[i]).Ok?)
      && (r.Ok? ==> |r.value| == |items| && forall i :: 0 <= i < |items| ==>
                     if items[i].List? then CastToList(mm, t, items[i].items).Ok? && r.value[i] == CList(CastToList(mm, t, items[i].items).value)
                     else r.value[i] == CastToRequiredType(mm, t, items[i]).value)
      && (r.Err? ==> exists i :: 0 <= i < |items| && CastItem(mm, t, items[i]).Err? && r.error == CastItem(mm, t, items[i]).error
                                 && forall j :: 0 <= j < i ==> CastItem(mm, t, items[j]).Ok?)
    decreases items
  {
    if |items| > 0 {
      CastToListShape(mm, t, items[1..]);
      assert forall i :: 1 <= i < |items| ==> items[i] == items[1..][i - 1];
      if CastItem(mm, t, items[0]).Ok? && CastToList(mm, t, items[1..]).Err? {
        var k :| 0 <= k < |items[1..]| && CastItem(mm, t, items[1..][k]).Err? && CastToList(mm, t, items[1..]).error == CastItem(mm, t, items[1..][k]).error
                 && forall j :: 0 <= j < k ==> CastItem(mm, t, items[1..][j]).Ok?;
        assert forall j :: 0 <= j < k + 1 ==> CastItem(mm, t, items[j]).Ok? by {
          forall j | 0 <= j < k + 1
            ensures CastItem(mm, t, items[j]).Ok?
          {
            if j > 0 { assert items[j] == items[1..][j - 1]; }
          }
        }
        assert items[k + 1] == items[1..][k];
      }
    }
  }

  /** Unfolding castToList at position i of a list. */
  lemma CastToListAt(mm: Metamodel, t: TypeTag, value: seq<Value>, i: nat)
    requires i < |value|
    ensures CastToList(mm, t, value[i..]) == Prepend(Unit(CastItem(mm, t, value[i])), CastToList(mm, t, value[i + 1..]))
  {
    assert value[i..][0] == value[i] && value[i..][1..] == value[i + 1..];
  }

  /** castToList, a loop appending to a list and recursing into nested lists. */
  method CastToListLoop(mm: Metamodel, t: TypeTag, value: seq<Value>) returns (r: Result<seq<Cast>>)
    ensures r == CastToList(mm, t, value)
    decreases value, 1
  {
    ghost var all := CastToList(mm, t, value);
    var lists: seq<Cast> := [];
    assert value[0..] == value;
    SuffixStart(all);
    for i := 0 to |value|
      invariant SuffixInvariant(all, CastToList(mm, t, value[i..]), lists)
    {
      CastToListAt(mm, t, value, i);
      SuffixStep(all, Unit(CastItem(mm, t, value[i])), CastToList(mm, t, value[i + 1..]), lists);
      var item := CastItemOf(mm, t, value[i]);
      if item.Err? {
        return Err(item.error);
      }
      lists := lists + [item.value];
    }
    assert value[|value|..] == [];
    SuffixEnd(all, lists);
    return Ok(lists);
  }

  /** The body of castToList's loop for one item. */
  method CastItemOf(mm: Metamodel, t: TypeTag, s: Value) returns (r: Result<Cast>)
    ensures r == CastItem(mm, t, s)
    decreases s, 0
  {
    if s.List? {
      var inner := CastToListLoop(mm, t, s.items);
      if inner.Err? {
        return Err(inner.error);
      }
      return Ok(CList(inner.value));
    }
    return CastToRequiredType(mm, t, s);
  }

  // ---------------------------------------------------------------------
  // validateTypeByOperation

  /** The message of validateTypeByOperation's HiperBootException. */
  function OperationMessage(f: DbFilter): string {
    "Can't perform a " + OperatorName(f.operator) + " operation with a " + TypeName(f.fieldType) + " for field " + f.field
  }

  /** validateTypeByOperation, on the filter's own type: IN refuses a
      boolean field, GREATER_THAN an enum or boolean field, LIKE anything
      but a String field; every other operator passes. */
  function ValidationError(f: DbFilter): (r: Option<Error>)
    ensures r.Some? <==> (f.operator == IN && IsBoolean(f.fieldType))
                         || (f.operator == GREATER_THAN && (f.fieldType.EnumT? || IsBoolean(f.fieldType)))
                         || (f.operator == LIKE && !IsString(f.fieldType))
    ensures r.Some? ==> r.value == HiperBoot(OperationMessage(f))
  {
    match f.operator
    case IN => if IsBoolean(f.fieldType) then Some(HiperBoot(OperationMessage(f))) else None
    case GREATER_THAN => if f.fieldType.EnumT? || IsBoolean(f.fieldType) then Some(HiperBoot(OperationMessage(f))) else None
    case LIKE => if !IsString(f.fieldType) then Some(HiperBoot(OperationMessage(f))) else None
    case _ => None
  }

  // ---------------------------------------------------------------------
  // Range bounds, IN items, BETWEEN

  /** getFrom (i = 0) and getTo (i = 1): the i-th of the filter's values
      cast to the attribute's type; a missing list is a
      NullPointerException, a short one an IndexOutOfBoundsException. */
  function Bound(mm: Metamodel, f: DbFilter, t: TypeTag, i: nat): Result<Cast> {
    if f.values.None? then Err(NullPointer)
    else if i >= |f.values.value| then Err(IndexOutOfBounds)
    else CastToRequiredType(mm, t, f.values.value[i])
  }

  /** upper(literal(item.toString())) for one item of an IN list. */
  function InItem(v: Value): Expr {
    Upcased(Lit(CText(ToString(v))))
  }

  /** The items of getInPredicate: a null item is a NullPointerException,
      every other item becomes the upper-case of its text. */
  function InItems(vs: seq<Value>): (r: Result<seq<Expr>>)
    ensures r.Ok? <==> Null !in vs
    ensures r.Ok? ==> |r.value| == |vs| && forall i :: 0 <= i < |vs| ==> r.value[i] == InItem(vs[i])
    ensures r.Err? ==> r.error == NullPointer
  {
    if Null in vs then Err(NullPointer) else Ok(seq(|vs|, i requires 0 <= i < |vs| => InItem(vs[i])))
  }

  /** getInPredicate: upper(field) IN the upper-cased texts of the values. */
  method GetInPredicate(field: string, values: Option<seq<Value>>) returns (r: Result<Pred>)
    ensures values.None? ==> r == Err(NullPointer)
    ensures values.Some? ==> var items := InItems(values.value);
      (items.Ok? ==> r == Ok(In(Upcased(Attr(field)), items.value)))
      && (items.Err? ==> r == Err(items.error))
  {
    if values.None? {
      return Err(NullPointer);
    }
    var vs := values.value;
    var inClause: seq<Expr> := [];
    for i := 0 to |vs|
      invariant Null !in vs[..i]
      invariant |inClause| == i && forall j :: 0 <= j < i ==> inClause[j] == InItem(vs[j])
    {
      if vs[i] == Null {
        return Err(NullPointer);
      }
      assert vs[..i + 1] == vs[..i] + [vs[i]];
      inClause := inClause + [InItem(vs[i])];
    }
    assert vs[..|vs|] == vs;
    assert InItems(vs).value == inClause;
    return Ok(In(Upcased(Attr(field)), inClause));
  }

  /** getBetween: the attribute between the cast first and second values,
      both bounds inclusive. */
  function GetBetween(mm: Metamodel, f: DbFilter, t: TypeTag): Result<Pred> {
    var lo :- Bound(mm, f, t, 0);
    var hi :- Bound(mm, f, t, 1);
    Ok(Between(Attr(f.field), Lit(lo), Lit(hi)))
  }

  /** getDateTimeSplit: the time of day of the attribute, in UTC, between
      that of the two bounds. */
  function GetDateTimeSplit(mm: Metamodel, f: DbFilter, t: TypeTag): Result<Pred> {
    var lo :- Bound(mm, f, t, 0);
    var hi :- Bound(mm, f, t, 1);
    Ok(TimeOfDayBetween(Attr(f.field), Lit(lo), Lit(hi)))
  }

  /** The BETWEEN case for a given list of control flags. */
  function BetweenWith(mm: Metamodel, f: DbFilter, t: TypeTag, flags: seq<ControlFlag>): Result<Pred> {
    var b :- GetBetween(mm, f, t);
    if DATE_TIME_SPLIT in flags then
      var d :- GetDateTimeSplit(mm, f, t);
      Ok(And([b, d]))
    else Ok(b)
  }

  /** The BETWEEN case as written: it asks the flag list whether it contains
      DATE_TIME_SPLIT, so a filter without a flag list fails. */
  function BetweenAsWritten(mm: Metamodel, f: DbFilter, t: TypeTag): (r: Result<Pred>)
    ensures f.controlFlag.None? ==> r == Err(NullPointer)
    ensures f.controlFlag.Some? ==> r == BetweenWith(mm, f, t, f.controlFlag.value)
  {
    if f.controlFlag.None? then Err(NullPointer) else BetweenWith(mm, f, t, f.controlFlag.value)
  }

  /** The BETWEEN case as intended: no flag list means no flags. */
  function BetweenCorrected(mm: Metamodel, f: DbFilter, t: TypeTag): (r: Result<Pred>)
    ensures f.controlFlag.None? ==> r == GetBetween(mm, f, t)
    ensures f.controlFlag.Some? ==> r == BetweenAsWritten(mm, f, t)
  {
    BetweenWith(mm, f, t, if f.controlFlag.None? then [] else f.controlFlag.value)
  }

  /** Every BETWEEN filter the builder produces has no flag list, so the
      code as written fails on all of them with a NullPointerException,
      while the corrected case is the plain range on the two bounds. */
  lemma BuiltBetweenFails(mm: Metamodel, fieldList: FieldList, op: LogicalOperator, key: string, value: Value,
                          wrapper: Option<LogicalOperator>, clazz: TypeTag, t: TypeTag)
    requires var o := ItemOutcome(fieldList, op, key, value, wrapper, clazz);
      o.Ok? && o.value.Filtered? && o.value.filter.operator == BETWEEN
    ensures var f := ItemOutcome(fieldList, op, key, value, wrapper, clazz).value.filter;
      BetweenAsWritten(mm, f, t) == Err(NullPointer)
      && BetweenCorrected(mm, f, t) == GetBetween(mm, f, t)
  {
  }

  /** A concrete instance: a BETWEEN filter on a Long attribute from 1 to 5,
      as betweenFilter builds it. */
  lemma BetweenCounterexample(mm: Metamodel)
    ensures var f := DbFilter("age", BETWEEN, Map(true, [("from", Long(1)), ("to", Long(5))]), Some([Long(1), Long(5)]),
                              false, LongT, ClassT("Person", true), AND, None, None);
      BetweenAsWritten(mm, f, LongT) == Err(NullPointer)
      && BetweenCorrected(mm, f, LongT) == Ok(Between(Attr("age"), Lit(CLong(1)), Lit(CLong(5))))
  {
    ParseLongRoundTrip(1);
    ParseLongRoundTrip(5);
  }

  // ---------------------------------------------------------------------
  // Joins

  /** The declared field names of an entity (none when unknown). */
  function Declared(mm: Metamodel, entity: string): seq<string> {
    if entity in mm.declared then mm.declared[entity] else []
  }

  /** The stream in getPredicateJoin: the value of the first entry of the
      filter map whose camel-cased key is the field's name. */
  function FirstMatch(filterMap: Entries, name: string): (r: Option<Value>)
    ensures r.None? <==> forall j :: 0 <= j < |filterMap| ==> CamelCase(filterMap[j].0) != name
    ensures r.Some? ==> exists j :: 0 <= j < |filterMap| && CamelCase(filterMap[j].0) == name && r.value == filterMap[j].1
                                    && forall k :: 0 <= k < j ==> CamelCase(filterMap[k].0) != name
    decreases |filterMap|
  {
    if |filterMap| == 0 then None
    else if CamelCase(filterMap[0].0) == name then Some(filterMap[0].1)
    else
      var r := FirstMatch(filterMap[1..], name);
      assert forall j :: 1 <= j < |filterMap| ==> filterMap[j] == filterMap[1..][j - 1];
      r
  }

  /** Each child comes from an entry of the filter map: its camel-cased key
      and its value. */
  predicate FromMap(children: Entries, filterMap: Entries) {
    forall c :: c in children ==> exists j :: 0 <= j < |filterMap| && c == (CamelCase(filterMap[j].0), filterMap[j].1)
  }

  /** childrenList: for each declared field of the joined entity, in
      declaration order, the one-entry map {name: value} of its first
      matching filter entry; fields without a match contribute nothing. */
  function ChildrenList(filterMap: Entries, names: seq<string>): (children: Entries)
    ensures |children| <= |names|
    decreases |names|
  {
    if |names| == 0 then []
    else
      var rest := ChildrenList(filterMap, names[1..]);
      match FirstMatch(filterMap, names[0])
      case Some(v) => [(names[0], v)] + rest
      case None => rest
  }

  lemma {:induction false} ChildrenFromMap(filterMap: Entries, names: seq<string>)
    ensures FromMap(ChildrenList(filterMap, names), filterMap)
    decreases |names|
  {
    if |names| > 0 {
      ChildrenFromMap(filterMap, names[1..]);
      var rest := ChildrenList(filterMap, names[1..]);
      var m := FirstMatch(filterMap, names[0]);
      if m.Some? {
        var c := [(names[0], m.value)] + rest;
        assert forall x :: x in c ==> x == c[0] || x in rest;
      }
    }
  }

  /** A child's value is smaller than the filter map it came from. */
  lemma ChildSmaller(children: Entries, filterMap: Entries, i: nat)
    requires FromMap(children, filterMap) && i < |children|
    ensures Size(children[i].1) < 1 + EntriesSize(filterMap)
  {
    var c := children[i];
    assert c in children;
    var j :| 0 <= j < |filterMap| && c == (CamelCase(filterMap[j].0), filterMap[j].1);
    EntryValueSmaller(filterMap, j);
  }

  // ---------------------------------------------------------------------
  // getPredicate and its recursion through joins

  /** getPredicate: validation first, then the operator's predicate, negated
      under a NOT wrapper. `upper` says whether the field is compared in
      upper case (rootFieldUpper); t is the attribute's Java type. */
  function GetPredicate(mm: Metamodel, entity: string, f: DbFilter, t: TypeTag, upper: bool): Result<Pred>
    decreases Size(f.value), 4, 0
  {
    if ValidationError(f).Some? then Err(ValidationError(f).value)
    else
      var p :- OperatorPredicate(mm, entity, f, t, upper);
      Ok(if f.wrappedLogicalOperator == Some(NOT) then Not(p) else p)
  }

  /** The switch of getPredicate. */
  function OperatorPredicate(mm: Metamodel, entity: string, f: DbFilter, t: TypeTag, upper: bool): Result<Pred>
    decreases Size(f.value), 3, 0
  {
    match f.operator
    case JOIN => if f.value.Null? then Ok(IsNull(Attr(f.field))) else JoinPredicate(mm, entity, f)
    case EQUALS => EqualsPredicate(mm, f, t, upper)
    case LIKE => LikePredicate(f, upper)
    case IN => InPredicate(mm, f, t)
    case BETWEEN => BetweenCorrected(mm, f, t)
    case GREATER_THAN => GreaterPredicate(mm, f, t, upper)
    case LESS_THAN => LessPredicate(mm, f, t)
  }

  /** The attribute, upper-cased when `upper` (rootFieldUpper). */
  function FieldUpper(f: DbFilter, upper: bool): Expr {
    if upper then Upcased(Attr(f.field)) else Attr(f.field)
  }

  /** EQUALS: is-null for a null value, else equality with the cast value. */
  function EqualsPredicate(mm: Metamodel, f: DbFilter, t: TypeTag, upper: bool): Result<Pred> {
    if f.value.Null? then Ok(IsNull(Attr(f.field)))
    else var c :- CastToRequiredType(mm, t, f.value); Ok(Eq(FieldUpper(f, upper), Lit(c)))
  }

  /** LIKE: the upper-cased text of the value as the pattern. */
  function LikePredicate(f: DbFilter, upper: bool): Result<Pred> {
    if f.value.Null? then Err(NullPointer) else Ok(Like(FieldUpper(f, upper), Upper(ToString(f.value))))
  }

  /** IN: upper-case text membership for a String attribute (getInPredicate),
      otherwise membership in the cast list. */
  function InPredicate(mm: Metamodel, f: DbFilter, t: TypeTag): Result<Pred> {
    if f.values.None? then Err(NullPointer)
    else if IsString(t) then var items :- InItems(f.values.value); Ok(In(Upcased(Attr(f.field)), items))
    else var cs :- CastToList(mm, t, f.values.value); Ok(In(Attr(f.field), [Lit(CList(cs))]))
  }

  /** GREATER_THAN: attribute >= the first value; a String attribute is
      compared through rootFieldUpper. */
  function GreaterPredicate(mm: Metamodel, f: DbFilter, t: TypeTag, upper: bool): Result<Pred> {
    var lo :- Bound(mm, f, t, 0);
    Ok(Ge(if IsString(t) then FieldUpper(f, upper) else Attr(f.field), Lit(lo)))
  }

  /** LESS_THAN: the raw attribute <= the second value. */
  function LessPredicate(mm: Metamodel, f: DbFilter, t: TypeTag): Result<Pred> {
    var hi :- Bound(mm, f, t, 1);
    Ok(Le(Attr(f.field), Lit(hi)))
  }

  /** getPredicateJoin: an inner fetch (or join) of the association, and the
      conjunction (AND filter) or disjunction (otherwise) of the predicates
      of the children the map names; no child gives no predicate. */
  function JoinPredicate(mm: Metamodel, entity: string, f: DbFilter): Result<Pred>
    decreases Size(f.value), 2, 0
  {
    var fetch := FetchData(mm, f.originalClass, f.field);
    if !(entity in mm.joins && f.field in mm.joins[entity]) then Err(IllegalArgument(f.field))
    else if !f.value.Map? then Err(ClassCast)
    else
      var target := mm.joins[entity][f.field];
      var filterMap := f.value.entries;
      var children := ChildrenList(filterMap, Declared(mm, target));
      if |children| == 0 then Ok(Absent)
      else
        ChildrenFromMap(filterMap, Declared(mm, target));
        var ps :- ChildrenPredicates(mm, target, filterMap, children);
        Ok(Join(f.field, fetch, if f.logicalOperator == AND then And(ps) else Or(ps)))
  }

  /** getChildrenPredicates: for each child, one predicate per filter entry
      whose camel-cased key names it. */
  function ChildrenPredicates(mm: Metamodel, target: string, filterMap: Entries, children: Entries): Result<seq<Pred>>
    requires FromMap(children, filterMap)
    decreases 1 + EntriesSize(filterMap), 1, |children|
  {
    if |children| == 0 then Ok([])
    else
      ChildSmaller(children, filterMap, 0);
      var head :- MatchPredicates(mm, target, filterMap, children[0].0, children[0].1);
      assert FromMap(children[1..], filterMap) by {
        assert forall c :: c in children[1..] ==> c in children;
      }
      var rest :- ChildrenPredicates(mm, target, filterMap, children[1..]);
      Ok(head + rest)
  }

  /** The innermost loop of getChildrenPredicates over the entries es. */
  function MatchPredicates(mm: Metamodel, target: string, es: Entries, childKey: string, childValue: Value): Result<seq<Pred>>
    decreases Size(childValue), 6, |es|
  {
    if |es| == 0 then Ok([])
    else if CamelCase(es[0].0) == childKey then
      var p :- AddChild(mm, target, childKey, childValue);
      var rest :- MatchPredicates(mm, target, es[1..], childKey, childValue);
      Ok([p] + rest)
    else MatchPredicates(mm, target, es[1..], childKey, childValue)
  }

  /** addChildrenPredicate: build the filter of the one-entry map
      {field: value} against the joined attribute's type and compile the
      first filter built. */
  function AddChild(mm: Metamodel, target: string, field: string, childValue: Value): Result<Pred>
    decreases Size(childValue), 5, 0
  {
    var t :- AttributeType(mm, target, field);
    var m := [(field, childValue)];
    var fl := map[field := ClassEntry(t)];
    var built :- Apply(Built([], []), Outcomes(fl, AND, m, m, t));
    if |built.filters| == 0 then Err(IndexOutOfBounds)
    else
      SingleEntryBound(fl, AND, field, childValue, t);
      assert built.filters[0] in Filters(Outcomes(fl, AND, m, m, t).value);
      GetPredicate(mm, target, built.filters[0], t, IsString(t))
  }

  /** createSpecification applied to a root of the given entity. */
  function CreateSpecification(mm: Metamodel, entity: string, f: DbFilter): (r: Result<Pred>)
    ensures AttributeType(mm, entity, f.field).Err? ==> r == Err(IllegalArgument(f.field))
    ensures AttributeType(mm, entity, f.field).Ok? ==>
      r == GetPredicate(mm, entity, f, AttributeType(mm, entity, f.field).value, IsString(f.fieldType))
  {
    var t :- AttributeType(mm, entity, f.field);
    GetPredicate(mm, entity, f, t, IsString(f.fieldType))
  }

  // ---------------------------------------------------------------------
  // The loops of getPredicateJoin and getChildrenPredicates

  lemma ChildrenListAt(filterMap: Entries, names: seq<string>, i: nat)
    requires i < |names|
    ensures ChildrenList(filterMap, names[i..]) ==
      match FirstMatch(filterMap, names[i])
      case Some(v) => [(names[i], v)] + ChildrenList(filterMap, names[i + 1..])
      case None => ChildrenList(filterMap, names[i + 1..])
  {
    assert names[i..][0] == names[i] && names[i..][1..] == names[i + 1..];
  }

  /** One turn of the loop over the declared fields: the entry found for
      names[i], when there is one, moves from the remaining work to the
      collected children. */
  lemma ChildrenListStep(filterMap: Entries, names: seq<string>, i: nat, acc: Entries,
                         found: Option<Value>, next: Entries)
    requires i < |names| && ChildrenList(filterMap, names) == acc + ChildrenList(filterMap, names[i..])
    requires found == FirstMatch(filterMap, names[i])
    requires next == if found.Some? then acc + [(names[i], found.value)] else acc
    ensures ChildrenList(filterMap, names) == next + ChildrenList(filterMap, names[i + 1..])
  {
    var rest := ChildrenList(filterMap, names[i + 1..]);
    ChildrenListAt(filterMap, names, i);
    if found.Some? {
      EntriesAssoc(acc, [(names[i], found.value)], rest);
    }
  }

  lemma EntriesAssoc(a: Entries, b: Entries, c: Entries)
    ensures a + (b + c) == (a + b) + c
  {
  }

  /** The loop over the joined entity's declared fields. */
  method ChildrenListLoop(filterMap: Entries, names: seq<string>) returns (childrenList: Entries)
    ensures childrenList == ChildrenList(filterMap, names)
  {
    childrenList := [];
    assert names[0..] == names;
    for i := 0 to |names|
      invariant ChildrenList(filterMap, names) == childrenList + ChildrenList(filterMap, names[i..])
    {
      ghost var acc := childrenList;
      var found := FirstMatch(filterMap, names[i]);
      if found.Some? {
        childrenList := childrenList + [(names[i], found.value)];
      }
      ChildrenListStep(filterMap, names, i, acc, found, childrenList);
    }
    assert names[|names|..] == [];
    assert childrenList + [] == childrenList;
  }

  lemma FromMapSuffix(children: Entries, filterMap: Entries, n: nat)
    requires FromMap(children, filterMap) && n <= |children|
    ensures FromMap(children[n..], filterMap)
  {
    assert forall c :: c in children[n..] ==> c in children;
  }

  lemma ChildrenPredicatesAt(mm: Metamodel, target: string, filterMap: Entries, children: Entries, i: nat)
    requires FromMap(children, filterMap) && i < |children|
    ensures FromMap(children[i..], filterMap) && FromMap(children[i + 1..], filterMap)
    ensures ChildrenPredicates(mm, target, filterMap, children[i..])
         == Prepend(MatchPredicates(mm, target, filterMap, children[i].0, children[i].1),
                    ChildrenPredicates(mm, target, filterMap, children[i + 1..]))
  {
    FromMapSuffix(children, filterMap, i);
    FromMapSuffix(children, filterMap, i + 1);
    assert children[i..][0] == children[i] && children[i..][1..] == children[i + 1..];
  }

  lemma MatchPredicatesAt(mm: Metamodel, target: string, es: Entries, childKey: string, childValue: Value, k: nat)
    requires k < |es|
    ensures MatchPredicates(mm, target, es[k..], childKey, childValue)
         == Prepend(if CamelCase(es[k].0) == childKey then Unit(AddChild(mm, target, childKey, childValue)) else Ok([]),
                    MatchPredicates(mm, target, es[k + 1..], childKey, childValue))
  {
    assert es[k..][0] == es[k] && es[k..][1..] == es[k + 1..];
    if CamelCase(es[k].0) != childKey {
      var rest := MatchPredicates(mm, target, es[k + 1..], childKey, childValue);
      if rest.Ok? {
        assert [] + rest.value == rest.value;
      }
    }
  }

  /** addChildrenPredicate, calling the filter builder for the child. */
  method AddChildrenPredicate(mm: Metamodel, target: string, field: string, childValue: Value) returns (r: Result<Pred>)
    ensures r == AddChild(mm, target, field, childValue)
  {
    var rootFieldType := AttributeType(mm, target, field);
    if rootFieldType.Err? {
      return Err(rootFieldType.error);
    }
    var t := rootFieldType.value;
    var filters := BuildFilterAnd([(field, childValue)], [], map[field := ClassEntry(t)], t);
    if filters.Err? {
      return Err(filters.error);
    }
    if |filters.value.filters| == 0 {
      return Err(IndexOutOfBounds);
    }
    return GetPredicate(mm, target, filters.value.filters[0], t, IsString(t));
  }

  /** The loop over the filter map for one child entry. */
  method MatchLoop(mm: Metamodel, target: string, filterMap: Entries, childKey: string, childValue: Value)
    returns (r: Result<seq<Pred>>)
    ensures r == MatchPredicates(mm, target, filterMap, childKey, childValue)
  {
    ghost var all := MatchPredicates(mm, target, filterMap, childKey, childValue);
    var preds: seq<Pred> := [];
    assert filterMap[0..] == filterMap;
    SuffixStart(all);
    for k := 0 to |filterMap|
      invariant SuffixInvariant(all, MatchPredicates(mm, target, filterMap[k..], childKey, childValue), preds)
    {
      MatchPredicatesAt(mm, target, filterMap, childKey, childValue, k);
      var filterKey := CamelCase(filterMap[k].0);
      if filterKey == childKey {
        SuffixStep(all, Unit(AddChild(mm, target, childKey, childValue)),
                   MatchPredicates(mm, target, filterMap[k + 1..], childKey, childValue), preds);
        var p := AddChildrenPredicate(mm, target, filterKey, childValue);
        if p.Err? {
          return Err(p.error);
        }
        preds := preds + [p.value];
      } else {
        SuffixStep(all, Ok([]), MatchPredicates(mm, target, filterMap[k + 1..], childKey, childValue), preds);
        assert preds + [] == preds;
      }
    }
    assert filterMap[|filterMap|..] == [];
    SuffixEnd(all, preds);
    return Ok(preds);
  }

  /** getChildrenPredicates: children in order, each with the filter-map
      loop (a child is a one-entry map, so its own entry loop runs once). */
  method GetChildrenPredicates(mm: Metamodel, target: string, filterMap: Entries, children: Entries)
    returns (r: Result<seq<Pred>>)
    requires FromMap(children, filterMap)
    ensures r == ChildrenPredicates(mm, target, filterMap, children)
  {
    ghost var all := ChildrenPredicates(mm, target, filterMap, children);
    var andPredicates: seq<Pred> := [];
    assert children[0..] == children;
    SuffixStart(all);
    for i := 0 to |children|
      invariant FromMap(children[i..], filterMap)
      invariant SuffixInvariant(all, ChildrenPredicates(mm, target, filterMap, children[i..]), andPredicates)
    {
      ChildrenPredicatesAt(mm, target, filterMap, children, i);
      SuffixStep(all, MatchPredicates(mm, target, filterMap, children[i].0, children[i].1),
                 ChildrenPredicates(mm, target, filterMap, children[i + 1..]), andPredicates);
      var matched := MatchLoop(mm, target, filterMap, children[i].0, children[i].1);
      if matched.Err? {
        return Err(matched.error);
      }
      andPredicates := andPredicates + matched.value;
    }
    assert children[|children|..] == [];
    SuffixEnd(all, andPredicates);
    return Ok(andPredicates);
  }

  /** getPredicateJoin with its two loops. */
  method GetPredicateJoin(mm: Metamodel, entity: string, f: DbFilter) returns (r: Result<Pred>)
    ensures r == JoinPredicate(mm, entity, f)
  {
    var fetch := FetchData(mm, f.originalClass, f.field);
    if !(entity in mm.joins && f.field in mm.joins[entity]) {
      return Err(IllegalArgument(f.field));
    }
    if !f.value.Map? {
      return Err(ClassCast);
    }
    var target := mm.joins[entity][f.field];
    var filterMap := f.value.entries;
    var childrenList := ChildrenListLoop(filterMap, Declared(mm, target));
    if |childrenList| == 0 {
      return Ok(Absent);
    }
    ChildrenFromMap(filterMap, Declared(mm, target));
    var andPredicates := GetChildrenPredicates(mm, target, filterMap, childrenList);
    if andPredicates.Err? {
      return Err(andPredicates.error);
    }
    return Ok(Join(f.field, fetch, if f.logicalOperator == AND then And(andPredicates.value) else Or(andPredicates.value)));
  }

  // ---------------------------------------------------------------------
  // getSpecificationFromFilters

  /** A composed Specification: where(first clause), then .and / .or of
      each later clause, left to right. */
  datatype Spec = Where(first: DbFilter) | AndThen(prev: Spec, next: DbFilter) | OrThen(prev: Spec, next: DbFilter)

  /** The fold of getSpecificationFromFilters over a non-empty list: each
      later clause is joined by the logical operator of its own filter. */
  function Compose(filters: seq<DbFilter>): Spec
    requires |filters| > 0
    decreases |filters|
  {
    if |filters| == 1 then Where(filters[0])
    else
      var last := filters[|filters| - 1];
      var prev := Compose(filters[..|filters| - 1]);
      if last.logicalOperator == AND then AndThen(prev, last) else OrThen(prev, last)
  }

  /** getSpecificationFromFilters: nothing for a missing or empty list. */
  function SpecificationOf(filters: Option<seq<DbFilter>>): Option<Spec> {
    if filters.None? || |filters.value| == 0 then None else Some(Compose(filters.value))
  }

  /** The clauses of a specification, in order. */
  function Clauses(s: Spec): (r: seq<DbFilter>)
    ensures |r| > 0
  {
    match s
    case Where(f) => [f]
    case AndThen(p, f) => Clauses(p) + [f]
    case OrThen(p, f) => Clauses(p) + [f]
  }

  /** The connectives of a specification, in order: true for and, false for or. */
  function Connectives(s: Spec): seq<bool> {
    match s
    case Where(_) => []
    case AndThen(p, _) => Connectives(p) + [true]
    case OrThen(p, _) => Connectives(p) + [false]
  }

  /** The loop of getSpecificationFromFilters. */
  method GetSpecificationFromFilters(filters: Option<seq<DbFilter>>) returns (specification: Option<Spec>)
    ensures specification == SpecificationOf(filters)
  {
    if filters.None? || |filters.value| == 0 {
      return None;
    }
    var fs := filters.value;
    specification := None;
    for i := 0 to |fs|
      invariant i == 0 <==> specification.None?
      invariant i > 0 ==> specification == Some(Compose(fs[..i]))
    {
      var input := fs[i];
      var clause := input;
      assert fs[..i + 1][..i] == fs[..i];
      if specification.None? {
        specification := Some(Where(clause));
      } else if input.logicalOperator == AND {
        specification := Some(AndThen(specification.value, clause));
      } else {
        specification := Some(OrThen(specification.value, clause));
      }
    }
    assert fs[..|fs|] == fs;
  }

  /** The composition keeps every filter, in order, and joins filter i + 1
      to what precedes it by and exactly when that filter's own logical
      operator is AND. */
  lemma {:induction false} ComposeShape(filters: seq<DbFilter>)
    requires |filters| > 0
    ensures Clauses(Compose(filters)) == filters
    ensures |Connectives(Compose(filters))| == |filters| - 1
    ensures forall i :: 0 <= i < |filters| - 1 ==> Connectives(Compose(filters))[i] == (filters[i + 1].logicalOperator == AND)
    decreases |filters|
  {
    if |filters| > 1 {
      var init := filters[..|filters| - 1];
      ComposeShape(init);
      assert init + [filters[|filters| - 1]] == filters;
    }
  }

  /** Specification.and / or on predicates: a null side gives the other side. */
  function Combine(isAnd: bool, a: Pred, b: Pred): (r: Pred)
    ensures a.Absent? ==> r == b
    ensures !a.Absent? && b.Absent? ==> r == a
    ensures !a.Absent? && !b.Absent? ==> r == if isAnd then And([a, b]) else Or([a, b])
  {
    if a.Absent? then b else if b.Absent? then a else if isAnd then And([a, b]) else Or([a, b])
  }

  /** toPredicate of a composed specification on a root of the entity:
      the left side first, then the clause. */
  function ToPredicate(mm: Metamodel, entity: string, s: Spec): Result<Pred> {
    match s
    case Where(f) => CreateSpecification(mm, entity, f)
    case AndThen(p, f) =>
      var a :- ToPredicate(mm, entity, p);
      var b :- CreateSpecification(mm, entity, f);
      Ok(Combine(true, a, b))
    case OrThen(p, f) =>
      var a :- ToPredicate(mm, entity, p);
      var b :- CreateSpecification(mm, entity, f);
      Ok(Combine(false, a, b))
  }

  /** createSpecification of each clause of a specification, in order. */
  function ClauseResults(mm: Metamodel, entity: string, s: Spec): (rs: seq<Result<Pred>>)
    ensures |rs| == |Clauses(s)|
  {
    match s
    case Where(f) => [CreateSpecification(mm, entity, f)]
    case AndThen(p, f) => ClauseResults(mm, entity, p) + [CreateSpecification(mm, entity, f)]
    case OrThen(p, f) => ClauseResults(mm, entity, p) + [CreateSpecification(mm, entity, f)]
  }

  lemma {:induction false} ClauseResultsAre(mm: Metamodel, entity: string, s: Spec)
    ensures forall i :: 0 <= i < |Clauses(s)| ==> ClauseResults(mm, entity, s)[i] == CreateSpecification(mm, entity, Clauses(s)[i])
  {
    match s
    case Where(f) =>
    case AndThen(p, f) => ClauseResultsAre(mm, entity, p);
    case OrThen(p, f) => ClauseResultsAre(mm, entity, p);
  }

  /** A composed specification yields a predicate exactly when every clause
      does; otherwise it fails with the exception of the first clause that
      fails. */
  lemma {:induction false} ToPredicateFails(mm: Metamodel, entity: string, s: Spec)
    ensures ToPredicate(mm, entity, s).Ok? <==> AllOk(ClauseResults(mm, entity, s))
    ensures ToPredicate(mm, entity, s).Err? ==> FailsFirstWith(ClauseResults(mm, entity, s), ToPredicate(mm, entity, s).error)
  {
    match s
    case Where(f) =>
      var rs := ClauseResults(mm, entity, s);
      assert rs[..0] == [];
      if rs[0].Err? { assert rs[0] == Err(rs[0].error); }
    case AndThen(p, f) => ToPredicateFails(mm, entity, p); ToPredicateSnoc(mm, entity, s, p, f);
    case OrThen(p, f) => ToPredicateFails(mm, entity, p); ToPredicateSnoc(mm, entity, s, p, f);
  }

  lemma ToPredicateSnoc(mm: Metamodel, entity: string, s: Spec, p: Spec, f: DbFilter)
    requires s == AndThen(p, f) || s == OrThen(p, f)
    requires ToPredicate(mm, entity, p).Ok? <==> AllOk(ClauseResults(mm, entity, p))
    requires ToPredicate(mm, entity, p).Err? ==> FailsFirstWith(ClauseResults(mm, entity, p), ToPredicate(mm, entity, p).error)
    ensures ToPredicate(mm, entity, s).Ok? <==> AllOk(ClauseResults(mm, entity, s))
    ensures ToPredicate(mm, entity, s).Err? ==> FailsFirstWith(ClauseResults(mm, entity, s), ToPredicate(mm, entity, s).error)
  {
    var a, b := ToPredicate(mm, entity, p), CreateSpecification(mm, entity, f);
    assert ClauseResults(mm, entity, s) == ClauseResults(mm, entity, p) + [b];
    assert ToPredicate(mm, entity, s).Err? <==> a.Err? || b.Err?;
    assert a.Err? ==> ToPredicate(mm, entity, s) == Err(a.error);
    assert a.Ok? && b.Err? ==> ToPredicate(mm, entity, s) == Err(b.error);
    SnocResults(ClauseResults(mm, entity, p), b, if a.Err? then a.error else NullPointer);
  }

  // ---------------------------------------------------------------------
  // Properties of the predicate compiler

  /** No filters, no specification; otherwise the clauses are the filters
      in order and clause i + 1 is and-ed exactly when its own logical
      operator is AND (a strict left fold, by the shape of Spec). */
  lemma SpecificationShape(filters: Option<seq<DbFilter>>)
    ensures filters.None? || |filters.value| == 0 <==> SpecificationOf(filters).None?
    ensures SpecificationOf(filters).Some? ==>
      var sp := SpecificationOf(filters).value;
      Clauses(sp) == filters.value
      && |Connectives(sp)| == |filters.value| - 1
      && forall i :: 0 <= i < |filters.value| - 1 ==> Connectives(sp)[i] == (filters.value[i + 1].logicalOperator == AND)
  {
    if filters.Some? && |filters.value| > 0 {
      ComposeShape(filters.value);
    }
  }

  lemma JoinIgnoresWrapper(mm: Metamodel, entity: string, f: DbFilter, g: DbFilter)
    requires g == f.(wrappedLogicalOperator := g.wrappedLogicalOperator)
    ensures JoinPredicate(mm, entity, f) == JoinPredicate(mm, entity, g)
  {
  }

  lemma BetweenIgnoresWrapper(mm: Metamodel, f: DbFilter, g: DbFilter, t: TypeTag)
    requires g == f.(wrappedLogicalOperator := g.wrappedLogicalOperator)
    ensures Bound(mm, f, t, 0) == Bound(mm, g, t, 0) && Bound(mm, f, t, 1) == Bound(mm, g, t, 1)
    ensures BetweenCorrected(mm, f, t) == BetweenCorrected(mm, g, t)
  {
    assert GetBetween(mm, f, t) == GetBetween(mm, g, t);
    assert GetDateTimeSplit(mm, f, t) == GetDateTimeSplit(mm, g, t);
  }

  /** The cases of the switch read the filter's field, operator, value,
      values and flags only. */
  lemma EqualsIgnoresWrapper(mm: Metamodel, f: DbFilter, g: DbFilter, t: TypeTag, upper: bool)
    requires g == f.(wrappedLogicalOperator := g.wrappedLogicalOperator)
    ensures EqualsPredicate(mm, f, t, upper) == EqualsPredicate(mm, g, t, upper)
  {}
  lemma LikeIgnoresWrapper(mm: Metamodel, f: DbFilter, g: DbFilter, t: TypeTag, upper: bool)
    requires g == f.(wrappedLogicalOperator := g.wrappedLogicalOperator)
    ensures LikePredicate(f, upper) == LikePredicate(g, upper)
  {}
  lemma InIgnoresWrapper(mm: Metamodel, f: DbFilter, g: DbFilter, t: TypeTag, upper: bool)
    requires g == f.(wrappedLogicalOperator := g.wrappedLogicalOperator)
    ensures InPredicate(mm, f, t) == InPredicate(mm, g, t)
  {}
  lemma GreaterIgnoresWrapper(mm: Metamodel, f: DbFilter, g: DbFilter, t: TypeTag, upper: bool)
    requires g == f.(wrappedLogicalOperator := g.wrappedLogicalOperator)
    ensures GreaterPredicate(mm, f, t, upper) == GreaterPredicate(mm, g, t, upper)
  {}

  /** The switch does not look at the wrapper. */
  lemma OperatorIgnoresWrapper(mm: Metamodel, entity: string, f: DbFilter, g: DbFilter, t: TypeTag, upper: bool)
    requires g == f.(wrappedLogicalOperator := g.wrappedLogicalOperator)
    ensures OperatorPredicate(mm, entity, f, t, upper) == OperatorPredicate(mm, entity, g, t, upper)
  {
    if f.operator == JOIN {
      JoinCaseIgnoresWrapper(mm, entity, f, g, t, upper);
    } else if f.operator == BETWEEN || f.operator == LESS_THAN {
      RangeCaseIgnoresWrapper(mm, entity, f, g, t, upper);
    } else {
      ValueCaseIgnoresWrapper(mm, entity, f, g, t, upper);
    }
  }

  lemma JoinCaseIgnoresWrapper(mm: Metamodel, entity: string, f: DbFilter, g: DbFilter, t: TypeTag, upper: bool)
    requires g == f.(wrappedLogicalOperator := g.wrappedLogicalOperator) && f.operator == JOIN
    ensures OperatorPredicate(mm, entity, f, t, upper) == OperatorPredicate(mm, entity, g, t, upper)
  {
    JoinIgnoresWrapper(mm, entity, f, g);
  }

  lemma RangeCaseIgnoresWrapper(mm: Metamodel, entity: string, f: DbFilter, g: DbFilter, t: TypeTag, upper: bool)
    requires g == f.(wrappedLogicalOperator := g.wrappedLogicalOperator)
    requires f.operator == BETWEEN || f.operator == LESS_THAN
    ensures OperatorPredicate(mm, entity, f, t, upper) == OperatorPredicate(mm, entity, g, t, upper)
  {
    BetweenIgnoresWrapper(mm, f, g, t);
    if f.operator == LESS_THAN {
      assert LessPredicate(mm, f, t) == LessPredicate(mm, g, t);
    }
  }

  lemma ValueCaseIgnoresWrapper(mm: Metamodel, entity: string, f: DbFilter, g: DbFilter, t: TypeTag, upper: bool)
    requires g == f.(wrappedLogicalOperator := g.wrappedLogicalOperator)
    requires f.operator in {EQUALS, LIKE, IN, GREATER_THAN}
    ensures OperatorPredicate(mm, entity, f, t, upper) == OperatorPredicate(mm, entity, g, t, upper)
  {
    match f.operator
    case EQUALS => EqualsIgnoresWrapper(mm, f, g, t, upper);
    case LIKE => LikeIgnoresWrapper(mm, f, g, t, upper);
    case IN => InIgnoresWrapper(mm, f, g, t, upper);
    case GREATER_THAN => GreaterIgnoresWrapper(mm, f, g, t, upper);
  }

  /** A NOT wrapper negates the predicate the same filter gives without a
      wrapper (and fails the same way); any other wrapper changes nothing. */
  lemma NotWrapperNegates(mm: Metamodel, entity: string, f: DbFilter, t: TypeTag, upper: bool)
    ensures var plain := GetPredicate(mm, entity, f.(wrappedLogicalOperator := None), t, upper);
      var r := GetPredicate(mm, entity, f, t, upper);
      (f.wrappedLogicalOperator == Some(NOT) ==> (r.Ok? <==> plain.Ok?) && (r.Ok? ==> r.value == Not(plain.value)) && (r.Err? ==> r == plain))
      && (f.wrappedLogicalOperator != Some(NOT) ==> r == plain)
  {
    var g := f.(wrappedLogicalOperator := None);
    OperatorIgnoresWrapper(mm, entity, f, g, t, upper);
    assert ValidationError(f) == ValidationError(g);
  }

  /** Validation comes first: a refused operator/type pair fails with its
      HiperBootException whatever the value. BETWEEN, LESS_THAN, EQUALS and
      JOIN are never refused. */
  lemma ValidationFirst(mm: Metamodel, entity: string, f: DbFilter, t: TypeTag, upper: bool)
    ensures ValidationError(f).Some? ==> GetPredicate(mm, entity, f, t, upper) == Err(HiperBoot(OperationMessage(f)))
    ensures f.operator in {BETWEEN, LESS_THAN, EQUALS, JOIN} ==> ValidationError(f).None?
  {
  }

  /** EQUALS and JOIN on a null value test the attribute for null; LIKE on
      a null value fails. */
  lemma NullValue(mm: Metamodel, entity: string, f: DbFilter, t: TypeTag, upper: bool)
    requires f.value.Null?
    ensures f.operator == EQUALS || f.operator == JOIN ==> OperatorPredicate(mm, entity, f, t, upper) == Ok(IsNull(Attr(f.field)))
    ensures f.operator == LIKE ==> OperatorPredicate(mm, entity, f, t, upper) == Err(NullPointer)
  {
  }

  /** No declared field of the joined entity is named by a key. */
  predicate NoChildMatches(filterMap: Entries, names: seq<string>) {
    forall i, j :: 0 <= i < |names| && 0 <= j < |filterMap| ==> CamelCase(filterMap[j].0) != names[i]
  }

  lemma {:induction false} ChildrenListEmpty(filterMap: Entries, names: seq<string>)
    ensures |ChildrenList(filterMap, names)| == 0 <==> NoChildMatches(filterMap, names)
    decreases |names|
  {
    if |names| > 0 {
      ChildrenListEmpty(filterMap, names[1..]);
      assert forall i :: 1 <= i < |names| ==> names[i] == names[1..][i - 1];
    }
  }

  /** A JOIN on a map value: no child named by the map gives no predicate,
      otherwise the children's predicates under the association, combined
      with AND when the filter's logical operator is AND and with OR
      otherwise. */
  lemma JoinShape(mm: Metamodel, entity: string, f: DbFilter)
    requires entity in mm.joins && f.field in mm.joins[entity] && f.value.Map?
    ensures var target := mm.joins[entity][f.field];
      var r := JoinPredicate(mm, entity, f);
      (NoChildMatches(f.value.entries, Declared(mm, target)) ==> r == Ok(Absent))
      && (!NoChildMatches(f.value.entries, Declared(mm, target)) && r.Ok? ==>
            r.value.Join? && r.value.field == f.field && r.value.fetch == FetchData(mm, f.originalClass, f.field)
            && (f.logicalOperator == AND ==> r.value.body.And?)
            && (f.logicalOperator != AND ==> r.value.body.Or?))
  {
    ChildrenListEmpty(f.value.entries, Declared(mm, mm.joins[entity][f.field]));
  }

  /** How many entries of the filter map name the child. */
  function MatchCount(es: Entries, childKey: string): nat
    decreases |es|
  {
    if |es| == 0 then 0 else (if CamelCase(es[0].0) == childKey then 1 else 0) + MatchCount(es[1..], childKey)
  }

  /** A child named by n keys of the filter map contributes n copies of the
      same predicate; with no keys it contributes nothing. */
  lemma {:induction false} MatchPredicatesCopies(mm: Metamodel, target: string, es: Entries, childKey: string, childValue: Value)
    ensures var r := MatchPredicates(mm, target, es, childKey, childValue);
      var p := AddChild(mm, target, childKey, childValue);
      (MatchCount(es, childKey) == 0 ==> r == Ok([]))
      && (MatchCount(es, childKey) > 0 ==>
            (r.Ok? <==> p.Ok?) && (r.Ok? ==> |r.value| == MatchCount(es, childKey) && forall i :: 0 <= i < |r.value| ==> r.value[i] == p.value))
    decreases |es|
  {
    if |es| > 0 {
      MatchPredicatesCopies(mm, target, es[1..], childKey, childValue);
      var hit := CamelCase(es[0].0) == childKey;
      var p, rest := AddChild(mm, target, childKey, childValue), MatchPredicates(mm, target, es[1..], childKey, childValue);
      CopiesStep(hit, p, rest, MatchPredicates(mm, target, es, childKey, childValue),
        MatchCount(es[1..], childKey), MatchCount(es, childKey));
    }
  }

  /** One step of MatchPredicatesCopies, on the results alone: a key that
      matches adds one copy, one that does not adds nothing. */
  lemma CopiesStep(hit: bool, p: Result<Pred>, rest: Result<seq<Pred>>, r: Result<seq<Pred>>, countRest: nat, count: nat)
    requires r == if !hit then rest else if p.Err? then Err(p.error) else if rest.Err? then Err(rest.error) else Ok([p.value] + rest.value)
    requires count == (if hit then 1 else 0) + countRest
    requires countRest == 0 ==> rest == Ok([])
    requires countRest > 0 ==>
      (rest.Ok? <==> p.Ok?) && (rest.Ok? ==> |rest.value| == countRest && forall i :: 0 <= i < |rest.value| ==> rest.value[i] == p.value)
    ensures count == 0 ==> r == Ok([])
    ensures count > 0 ==>
      (r.Ok? <==> p.Ok?) && (r.Ok? ==> |r.value| == count && forall i :: 0 <= i < |r.value| ==> r.value[i] == p.value)
  {
    if hit && r.Ok? {
      assert forall i :: 1 <= i < |r.value| ==> r.value[i] == rest.value[i - 1];
    }
  }

  /** A range filter as the builder makes it from {from, to} (values
      [from, to]) compiles to the inclusive comparison on the bounds given:
      BETWEEN on both, >= on from alone (on the upper-cased field for a
      String attribute), <= on to alone (on the raw field). */
  lemma RangeBounds(mm: Metamodel, entity: string, es: Entries, f: DbFilter, t: TypeTag, upper: bool)
    requires f.controlFlag.None?
    ensures var g, from, to := BetweenFilter(es, f), Get(es, "from"), Get(es, "to");
      var lo, hi := CastToRequiredType(mm, t, from), CastToRequiredType(mm, t, to);
      var r := OperatorPredicate(mm, entity, g, t, upper);
      (!from.Null? && !to.Null? && lo.Ok? && hi.Ok? ==> r == Ok(Between(Attr(f.field), Lit(lo.value), Lit(hi.value))))
      && (!from.Null? && to.Null? && lo.Ok? ==>
            r == Ok(Ge(if IsString(t) && upper then Upcased(Attr(f.field)) else Attr(f.field), Lit(lo.value))))
      && (from.Null? && !to.Null? && hi.Ok? ==> r == Ok(Le(Attr(f.field), Lit(hi.value))))
  {
    var g, from, to := BetweenFilter(es, f), Get(es, "from"), Get(es, "to");
    if !from.Null? && !to.Null? {
      BetweenRange(mm, entity, g, t, upper, from, to);
    } else if !from.Null? {
      GreaterRange(mm, entity, g, t, upper, from, to);
    } else if !to.Null? {
      LessRange(mm, entity, g, t, upper, from, to);
    }
  }

  lemma BetweenRange(mm: Metamodel, entity: string, g: DbFilter, t: TypeTag, upper: bool, from: Value, to: Value)
    requires g.operator == BETWEEN && g.values == Some([from, to]) && g.controlFlag.None?
    ensures var lo, hi := CastToRequiredType(mm, t, from), CastToRequiredType(mm, t, to);
      lo.Ok? && hi.Ok? ==> OperatorPredicate(mm, entity, g, t, upper) == Ok(Between(Attr(g.field), Lit(lo.value), Lit(hi.value)))
  {
    assert g.values.value[0] == from && g.values.value[1] == to;
  }

  lemma GreaterRange(mm: Metamodel, entity: string, g: DbFilter, t: TypeTag, upper: bool, from: Value, to: Value)
    requires g.operator == GREATER_THAN && g.values == Some([from, to])
    ensures var lo := CastToRequiredType(mm, t, from);
      lo.Ok? ==> OperatorPredicate(mm, entity, g, t, upper)
                 == Ok(Ge(if IsString(t) && upper then Upcased(Attr(g.field)) else Attr(g.field), Lit(lo.value)))
  {
    assert g.values.value[0] == from;
  }

  lemma LessRange(mm: Metamodel, entity: string, g: DbFilter, t: TypeTag, upper: bool, from: Value, to: Value)
    requires g.operator == LESS_THAN && g.values == Some([from, to])
    ensures var hi := CastToRequiredType(mm, t, to);
      hi.Ok? ==> OperatorPredicate(mm, entity, g, t, upper) == Ok(Le(Attr(g.field), Lit(hi.value)))
  {
    assert g.values.value[1] == to;
  }
}
