# HiperBoot filter compiler and pagination, modelled in Dafny

HiperBoot turns a nested, ordered filter map into a JPA query. The map might be `{"name": "Ann", "age": {"from": 1, "to": 5}, "NOT": {...}, "_page": {...}}`. A query is built in three steps:

1. The filter builder (`DbFilterBuilder`) walks the map against the entity's field schema. It turns every entry into a `DbFilter` record carrying:
   - a field;
   - an operator inferred from the value's shape (EQUALS, LIKE, IN, BETWEEN, GREATER_THAN, LESS_THAN or JOIN);
   - the caller's logical operator;
   - an optional NOT wrapper.

   Unknown fields are collected into one `WrongFilterException`.
2. The predicate compiler (`BaseFilterGenerator`) validates each record's operator against its field type and casts the string values to that type. It builds one predicate per record, descending into joined entities, and folds the predicates left to right with AND or OR.
3. The pagination part reads the `_page` sub-map:
   - `PageRequestBuilder` fills in defaults, clamps the limit and parses the sort tokens `+f`, `-f` and `f`;
   - the result is an offset-based page request (`OffsetBasedPageRequest`);
   - `PaginationImpl` derives the 1-based page descriptor.

The helpers `StringUtils`, `DateFormatIdentifier` and `IntegerTypeCaster` do the small conversions, and `HBUtils`/`HBUtil` build the input maps.

The model follows the program's structure, one Dafny module per Java class, with some support modules:

- `Values` holds the JSON-like filter value: `Null | Str | Int | Long | Bool | List | Map`. A map is an association list in iteration order, tagged with whether it is a `LinkedHashMap`.
- `DbFilters` holds the `DbFilter` record, the schema (`ClassDecl`, `FieldDecl`, `TypeTag`) and the predicate datatype that stands for the JPA Criteria output.
- `JavaMaps.MapObject` is a class for the map objects the pagination code changes in place.
- `Text` and `JavaNumbers` model the few JDK string and number operations the core relies on: `split`, `trim`, `Long.parseLong` and `String.valueOf`.
- `Results` defines the `Result`/`Option` types. A Java exception is an `Err` carrying the exception kind and its message.

How each kind of code is modelled:

- **Loops.** Code that loops and appends in the source is a `method` with a loop, proved equal to a recursive specification function. That function carries the properties as lemmas. Examples are `toCamelCase`, `buildFilter`, `processFilterItem`, `getFieldList`, `getClassHierarchy`, `getSpecificationFromFilters`, `getChildrenPredicates`, `castToList` and `mapSortingFields`.
- **In-place maps.** Code that changes a map in place works on a `class` and states the whole new state:
  - `HBUtils.HBUtilBuilder` is the builder's `LinkedHashMap`;
  - `PageRequestBuilder.ExtractPagination` and `CompletePage` work on a `JavaMaps.MapObject`.
- **Pure code.** Expression code is a function. Examples are `getOrder`, `getValidLimit`, `identifyOperator`, `castToRequiredType`, the `OffsetBasedPageRequest` navigation and the `HBUtil` builders.

The class schema, the JPA metamodel, the fetch policy and the java.time recognisers are inputs of the model. Every property holds for every choice of them. `getClassHierarchy` and `getFieldList` walk the schema value where the source uses reflection.

## Model

| member | source | states |
|---|---|---|
| StringUtils.Words | src/main/java/com/hiperboot/util/StringUtils.java:34 | the split pieces contain no `_`, and every piece after the first is non-empty (runs of underscores separate words) |
| StringUtils.Capitalized | src/main/java/com/hiperboot/util/StringUtils.java:45 | same length as the word; first char upper-cased, rest lower-cased |
| StringUtils.WordAtCases | src/main/java/com/hiperboot/util/StringUtils.java:38-46 | the first word is lower-cased, each later non-empty word capitalised, an empty word stays empty |
| StringUtils.JoinCamelWords | src/main/java/com/hiperboot/util/StringUtils.java:36-48 | the StringBuilder loop appends exactly the converted words in order |
| StringUtils.CamelCase | src/main/java/com/hiperboot/util/StringUtils.java:28-50 | toCamelCase as a value. An underscore-free field is returned unchanged. Otherwise the words of the split are joined, the first lower-cased and each later one capitalised. `ToCamelCase`, `CamelCaseIdempotent` and `CamelCaseFixedPoints` state its properties |
| StringUtils.ToCamelCase | src/main/java/com/hiperboot/util/StringUtils.java:28-50 | the result is the camel-case conversion, contains no `_`, and is the input itself when the input has no `_` |
| StringUtils.CamelCaseHasNoUnderscore | src/main/java/com/hiperboot/util/StringUtils.java:30-49 | no output of toCamelCase contains `_` |
| StringUtils.CamelCaseIdempotent | src/main/java/com/hiperboot/util/StringUtils.java:30-49 | converting twice is converting once |
| StringUtils.CamelCaseFixedPoints | src/main/java/com/hiperboot/util/StringUtils.java:30-33 | toCamelCase(s) == s exactly when s has no `_` (capitalisation kept) |
| StringUtils.WordsTwo | src/main/java/com/hiperboot/util/StringUtils.java:34 | `a_b` with non-empty underscore-free parts splits into `[a, b]` |
| StringUtils.NonEmptyMembers | src/main/java/com/hiperboot/util/StringUtils.java:34 | dropping empty pieces keeps exactly the non-empty ones |
| StringUtils.CamelCaseExample | src/main/java/com/hiperboot/util/StringUtils.java:28-50 | `col_string` becomes `colString` |
| StringUtils.IsLikeString | src/main/java/com/hiperboot/util/StringUtils.java:52-59 | false for null; otherwise true iff the text starts or ends with `%` |
| StringUtils.IsValidString | src/main/java/com/hiperboot/util/StringUtils.java:61-64 | true iff non-null and some char is not whitespace |
| IntegerTypeCaster.SafelyParseInteger | src/main/java/com/hiperboot/db/filter/casting/type/IntegerTypeCaster.java:26-32 | succeeds iff the text parses as a long at least Integer.MIN_VALUE; the result is that value saturated at Integer.MAX_VALUE; otherwise NumberFormatException naming the text |
| IntegerTypeCaster.ExactInRange | src/main/java/com/hiperboot/db/filter/casting/type/IntegerTypeCaster.java:27-31 | a value in int range is returned exactly |
| IntegerTypeCaster.SaturatesAbove | src/main/java/com/hiperboot/db/filter/casting/type/IntegerTypeCaster.java:28-30 | a long above Integer.MAX_VALUE gives Integer.MAX_VALUE |
| IntegerTypeCaster.FailsBelow | src/main/java/com/hiperboot/db/filter/casting/type/IntegerTypeCaster.java:31 | a long below Integer.MIN_VALUE fails (no lower clamp) |
| IntegerTypeCaster.FailsUnparsable | src/main/java/com/hiperboot/db/filter/casting/type/IntegerTypeCaster.java:27 | text that is not a long fails |
| IntegerTypeCaster.Monotone | src/main/java/com/hiperboot/db/filter/casting/type/IntegerTypeCaster.java:26-32 | a <= b implies cast(a) <= cast(b) |
| IntegerTypeCaster.OfLongText | src/main/java/com/hiperboot/db/filter/casting/type/IntegerTypeCaster.java:22-32 | the decimal text of any long casts to the saturated value, and fails below the int range |
| DateFormatIdentifier.IdentifyDateFormat | src/main/java/com/hiperboot/util/DateFormatIdentifier.java:29-86 | the if-chain of identifyDateFormat in source order: ISO date, ISO local date-time, a zoned date-time ending in `Z` (UTC), any other zoned date-time, a long numeral (seconds up to 10 characters, milliseconds beyond), the SQL shape, RFC 1123, else UNIDENTIFIED. `IdentifyIsFirstMatch` proves it is the first format of that order that accepts the text |
| DateFormatIdentifier.FirstMatchIsFirst | src/main/java/com/hiperboot/util/DateFormatIdentifier.java:29-86 | the reference first-match classifier returns a format whose own test accepts the text, no later than any accepted one, and UNIDENTIFIED iff none accepts |
| DateFormatIdentifier.IdentifyIsFirstMatch | src/main/java/com/hiperboot/util/DateFormatIdentifier.java:29-86 | identifyDateFormat is the first match in the order ISO_DATE, ISO_DATETIME, ISO_DATETIME_UTC, ISO_DATETIME_TZ, epoch, SQL_DATETIME, RFC_1123 |
| DateFormatIdentifier.UtcOnlyWithZ | src/main/java/com/hiperboot/util/DateFormatIdentifier.java:45-59 | ISO_DATETIME_UTC only for a zoned text ending in `Z`; any other zoned text (not an ISO date or local date-time) is ISO_DATETIME_TZ |
| DateFormatIdentifier.SecondsRange | src/main/java/com/hiperboot/util/DateFormatIdentifier.java:63 | String.valueOf(v) has at most 10 chars iff -10^9 < v < 10^10 |
| DateFormatIdentifier.NumeralsAreEpochs | src/main/java/com/hiperboot/util/DateFormatIdentifier.java:61-71 | every text that parses as a long is EPOCH_SECONDS when its value has at most 10 chars, EPOCH_MILLISECONDS otherwise |
| DateFormatIdentifier.DigitsAreEpochs | src/main/java/com/hiperboot/util/DateFormatIdentifier.java:61-71 | a digit string within long range is EPOCH_SECONDS below 10^10 and EPOCH_MILLISECONDS from there |
| DateFormatIdentifier.SqlShapeIsSqlDateTime | src/main/java/com/hiperboot/util/DateFormatIdentifier.java:73-75 | a text of the shape `dddd-dd-dd dd:dd:dd.d` is SQL_DATETIME |
| DateFormatIdentifier.SpacedTextFallsThrough | src/main/java/com/hiperboot/util/DateFormatIdentifier.java:77-85 | a text with a space that is neither a number nor SQL-shaped is RFC_1123 if that parser accepts it, else UNIDENTIFIED |
| DateFormatIdentifier.EpochSecondsExample | src/test/java/com/hiperboot/util/DateFormatIdentifierTest.java:51-54 | "1702992000" is EPOCH_SECONDS |
| DateFormatIdentifier.EpochMillisecondsExample | src/test/java/com/hiperboot/util/DateFormatIdentifierTest.java:56-59 | "1702992000000" is EPOCH_MILLISECONDS |
| DateFormatIdentifier.SqlExample | src/main/java/com/hiperboot/util/DateFormatIdentifier.java:73-75 | "2024-01-15 15:00:00.0" is SQL_DATETIME |
| DateFormatIdentifier.UnidentifiedExample | src/test/java/com/hiperboot/util/DateFormatIdentifierTest.java:61-64 | "not a date" is UNIDENTIFIED |
| DateFormatIdentifier.IsoExamples | src/test/java/com/hiperboot/util/DateFormatIdentifierTest.java:26-44 | the four ISO examples classify as ISO_DATE, ISO_DATETIME, ISO_DATETIME_TZ and ISO_DATETIME_UTC |
| DateFormatIdentifier.RfcExample | src/test/java/com/hiperboot/util/DateFormatIdentifierTest.java:46-49 | "Thu, 18 Jan 2024 15:00:00 GMT" is RFC_1123 |
| DbFilterBuilder.GetClassHierarchy | src/main/java/com/hiperboot/db/filter/DbFilterBuilder.java:237-245 | the while loop collects exactly the class chain |
| DbFilterBuilder.HierarchyShape | src/main/java/com/hiperboot/db/filter/DbFilterBuilder.java:237-245 | the chain starts at the class, follows superclasses one by one, never contains Object and stops at Object or at the root |
| DbFilterBuilder.GetFieldList | src/main/java/com/hiperboot/db/filter/DbFilterBuilder.java:217-235 | the nested loops build the map of the declared fields of the chain, in walk order |
| DbFilterBuilder.PutFieldsAppend | src/main/java/com/hiperboot/db/filter/DbFilterBuilder.java:217-235 | putting two field lists is putting one after the other |
| DbFilterBuilder.FieldsMapKeys | src/main/java/com/hiperboot/db/filter/DbFilterBuilder.java:217-235 | a name is a key iff some class of the chain declares it |
| DbFilterBuilder.FieldsMapLastWins | src/main/java/com/hiperboot/db/filter/DbFilterBuilder.java:217-235 | on a name collision the last declaration walked, the superclass's, is the entry |
| DbFilterBuilder.FieldType | src/main/java/com/hiperboot/db/filter/DbFilterBuilder.java:188-200 | a relation field has the List marker type, any other its declared type |
| DbFilterBuilder.IdentifyOperator | src/main/java/com/hiperboot/db/filter/DbFilterBuilder.java:181-186 | EQUALS or LIKE; LIKE iff the value is non-null and its text starts or ends with `%` |
| DbFilterBuilder.UpperItems | src/main/java/com/hiperboot/db/filter/DbFilterBuilder.java:164-168 | every String item upper-cased in order; the first non-String item fails with NullPointerException (null) or ClassCastException |
| DbFilterBuilder.WidenInts | src/main/java/com/hiperboot/db/filter/DbFilterBuilder.java:174-177 | Integers become Longs of the same value, other items stay |
| DbFilterBuilder.ListSource | src/main/java/com/hiperboot/db/filter/DbFilterBuilder.java:155-172 | a map gives its values, a list its items (upper-cased for a String field), anything else a class-cast error |
| DbFilterBuilder.ConvertToList | src/main/java/com/hiperboot/db/filter/DbFilterBuilder.java:155-179 | empty for null; the source's error; a null first item fails; otherwise the same length, with every Integer widened to Long when the first item is an Integer (corrected, see Findings) |
| DbFilterBuilder.ConvertToListByFieldType | src/main/java/com/hiperboot/db/filter/DbFilterBuilder.java:155-179 | the conversion depends on the filter only through its field type |
| DbFilterBuilder.ConvertToListAsWritten | src/main/java/com/hiperboot/db/filter/DbFilterBuilder.java:174-177 | as written, a list whose first item is an Integer fails with ClassCastException (see Findings) |
| DbFilterBuilder.IntegerListAsWritten | src/main/java/com/hiperboot/db/filter/DbFilterBuilder.java:174-177 | `[1, 2]` on a non-String field fails as written and widens to `[1L, 2L]` when corrected |
| DbFilterBuilder.BetweenFilter | src/main/java/com/hiperboot/db/filter/DbFilterBuilder.java:202-215 | both bounds give BETWEEN, only `from` GREATER_THAN, only `to` LESS_THAN, with values `[from, to]`; neither leaves the filter unchanged |
| DbFilterBuilder.ItemOutcome | src/main/java/com/hiperboot/db/filter/DbFilterBuilder.java:120-153 | an unknown camel-cased key is rejected by name; a built filter has that field, the caller's operator, the given wrapper, the class, no control flag and the field's type and relation flag (corrected, see Findings) |
| DbFilterBuilder.ItemOperator | src/main/java/com/hiperboot/db/filter/DbFilterBuilder.java:128-153 | a list value, or a map value that is not a JOIN or range map, gives IN with value null and the converted values (or the conversion's error); a LinkedHashMap gives the range filter; anything else keeps the value with JOIN or the identified operator (corrected, see Findings) |
| DbFilterBuilder.RelationMapIsJoin | src/main/java/com/hiperboot/db/filter/DbFilterBuilder.java:139-141 | a map on a relation field without `from`/`to` becomes JOIN with the List marker type and the map as value |
| DbFilterBuilder.ProcessFilterItem | src/main/java/com/hiperboot/db/filter/DbFilterBuilder.java:120-153 | appends the item's outcome to the filters or to the error list |
| DbFilterBuilder.Append | src/main/java/com/hiperboot/db/filter/DbFilterBuilder.java:124-152 | a filter goes to the filter list, a rejected key to the error list |
| DbFilterBuilder.Record | src/main/java/com/hiperboot/db/filter/DbFilterBuilder.java:120-153 | an item's exception stops the walk |
| DbFilterBuilder.FiltersMembers | src/main/java/com/hiperboot/db/filter/DbFilterBuilder.java:120-153 | the filter list holds exactly the built filters, the error list exactly the rejected keys |
| DbFilterBuilder.FiltersAppend | src/main/java/com/hiperboot/db/filter/DbFilterBuilder.java:70-89 | the filters of two parts are concatenated in order |
| DbFilterBuilder.ErrorsAppend | src/main/java/com/hiperboot/db/filter/DbFilterBuilder.java:70-89 | the errors of two parts are concatenated in order |
| DbFilterBuilder.Then | src/main/java/com/hiperboot/db/filter/DbFilterBuilder.java:70-89 | sequencing keeps the first exception |
| DbFilterBuilder.ExtractWrapList | src/main/java/com/hiperboot/db/filter/DbFilterBuilder.java:110-118 | the NOT value's entries when it is a map, else nothing |
| DbFilterBuilder.Single | src/main/java/com/hiperboot/db/filter/DbFilterBuilder.java:120-153 | one item's outcome as a list of outcomes |
| DbFilterBuilder.Apply | src/main/java/com/hiperboot/db/filter/DbFilterBuilder.java:70-89 | outcomes are appended to the lists passed in |
| DbFilterBuilder.ThenAssoc | src/main/java/com/hiperboot/db/filter/DbFilterBuilder.java:70-89 | sequencing is associative |
| DbFilterBuilder.ProcessWrapList | src/main/java/com/hiperboot/db/filter/DbFilterBuilder.java:110-118 | the forEach over the NOT entries records each item with the NOT wrapper |
| DbFilterBuilder.ProcessNotOperator | src/main/java/com/hiperboot/db/filter/DbFilterBuilder.java:99-108 | the NOT value's entries are each processed with the NOT wrapper |
| DbFilterBuilder.ProcessEntry | src/main/java/com/hiperboot/db/filter/DbFilterBuilder.java:74-87 | one top-level entry: `_page` ignored, NOT expanded, anything else one item |
| DbFilterBuilder.BuildFilter | src/main/java/com/hiperboot/db/filter/DbFilterBuilder.java:65-89 | the forEach over the map appends every entry's outcomes (corrected, see Findings) |
| DbFilterBuilder.BuildFilterAnd | src/main/java/com/hiperboot/db/filter/DbFilterBuilder.java:65-68 | the public overload uses AND |
| DbFilterBuilder.GetDbFilters | src/main/java/com/hiperboot/db/filter/DbFilterBuilder.java:52-63 | an empty map gives no filters; otherwise the built filters, or one WrongFilterException naming the rejected keys (corrected, see Findings) |
| DbFilterBuilder.GetDbFiltersAnd | src/main/java/com/hiperboot/db/filter/DbFilterBuilder.java:48-50 | the two-argument overload uses AND |
| DbFilterBuilder.ItemsOutcomes | src/main/java/com/hiperboot/db/filter/DbFilterBuilder.java:105-107 | processFilterItem over the entries of a wrap list, in order, with one wrapper. `ItemsOutcomesOk` and `ItemsOutcomesFirstError` state it (corrected, see Findings) |
| DbFilterBuilder.ItemsOutcomesOk | src/main/java/com/hiperboot/db/filter/DbFilterBuilder.java:110-118 | the NOT entries all succeed iff each item does, giving one outcome per entry in order |
| DbFilterBuilder.ItemsOutcomesFirstError | src/main/java/com/hiperboot/db/filter/DbFilterBuilder.java:110-118 | a failure is the first failing item's exception |
| DbFilterBuilder.PageKeyIgnored | src/main/java/com/hiperboot/db/filter/DbFilterBuilder.java:75-78 | removing `_page` from the map changes nothing |
| DbFilterBuilder.EntryOutcomes | src/main/java/com/hiperboot/db/filter/DbFilterBuilder.java:74-87 | what one entry of the forEach contributes: nothing for `_page`, the NOT-wrapped items of its map for a NOT key (ignoring case), one item otherwise. `EntryOutcomesShape` and `PageKeyIgnored` state it (corrected, see Findings) |
| DbFilterBuilder.EntryOutcomesShape | src/main/java/com/hiperboot/db/filter/DbFilterBuilder.java:74-87 | `_page` gives nothing; a NOT key (any case) gives one outcome per entry of its map value, with the NOT wrapper, and nothing for a non-map; any other key gives exactly its item's outcome without a wrapper |
| DbFilterBuilder.ItemOutcomeWellBuilt | src/main/java/com/hiperboot/db/filter/DbFilterBuilder.java:120-153 | every outcome is a filter on a known field with the caller's operator and a NOT or no wrapper, or an unknown key |
| DbFilterBuilder.Outcomes | src/main/java/com/hiperboot/db/filter/DbFilterBuilder.java:70-89 | the forEach over the filter map: the entries' outcomes in iteration order, stopped by the first exception. `OutcomesWellBuilt` and `EveryEntryAccounted` state it (corrected, see Findings) |
| DbFilterBuilder.OutcomesWellBuilt | src/main/java/com/hiperboot/db/filter/DbFilterBuilder.java:70-89 | so is every outcome of the whole walk |
| DbFilterBuilder.EveryEntryAccounted | src/main/java/com/hiperboot/db/filter/DbFilterBuilder.java:120-153 | every plain entry of the map leaves its filter in the filter list or its key in the error list, and building goes on after a bad key |
| DbFilterBuilder.DbFiltersOf | src/main/java/com/hiperboot/db/filter/DbFilterBuilder.java:52-63 | getDbFilters as a value: no filters for an empty map, otherwise the filters built over the class's field map, or one WrongFilterException naming every rejected key. `DbFiltersOfCases` states it (corrected, see Findings) |
| DbFilterBuilder.DbFiltersOfCases | src/main/java/com/hiperboot/db/filter/DbFilterBuilder.java:52-63 | empty map gives no filters; an item's exception propagates; rejected keys give WrongFilterException "… don't accept those fields as filter: k1, k2"; else the filters, all on known fields with the caller's operator (corrected, see Findings) |
| DbFilterBuilder.UnknownKeyIsReported | src/main/java/com/hiperboot/exception/WrongFilterException.java:14 | one unknown key makes the whole call throw WrongFilterException |
| DbFilterBuilder.SingleEntryBound | src/main/java/com/hiperboot/db/filter/DbFilterBuilder.java:120-153 | no filter of a one-entry map holds more than that entry's value |
| BaseFilterGenerator.AttributeType | src/main/java/com/hiperboot/db/filter/BaseFilterGenerator.java:88-89 | the Java type the metamodel gives the attribute, or IllegalArgumentException for an unknown attribute |
| BaseFilterGenerator.FetchData | src/main/java/com/hiperboot/db/filter/BaseFilterGenerator.java:410-423 | the fetch policy for the relation, true when none is given |
| BaseFilterGenerator.CastToEnum | src/main/java/com/hiperboot/db/filter/BaseFilterGenerator.java:390-400 | the first constant equal to the text ignoring case, or null when none is |
| BaseFilterGenerator.SafelyConvertToCharacter | src/main/java/com/hiperboot/db/filter/BaseFilterGenerator.java:360-367 | the first char; IllegalArgumentException "String is empty, cannot convert to Character" for an empty text |
| BaseFilterGenerator.CastToRequiredType | src/main/java/com/hiperboot/db/filter/BaseFilterGenerator.java:293-358 | the isAssignableFrom dispatch in source order. Null stays null. String is upper-cased. Integer goes through safelyParseInteger and Long through `Long.valueOf`. An enum goes through castToEnum, Boolean through `parseBoolean` and Character through safelyConvertToCharacter. The number, date and time types are library parses. An unknown type keeps a Comparable value and fails the cast otherwise. `CastRules` and the `*CastRule` lemmas state it |
| BaseFilterGenerator.CastRules | src/main/java/com/hiperboot/db/filter/BaseFilterGenerator.java:293-358 | null casts to null; a String type to the upper-cased text; Boolean to whether the text is "true" ignoring case; an unrecognised type passes the value through |
| BaseFilterGenerator.EnumCastRule | src/main/java/com/hiperboot/db/filter/BaseFilterGenerator.java:314-315 | an Enum cast yields null iff no constant matches ignoring case, else a matching constant |
| BaseFilterGenerator.IntegerCastRule | src/main/java/com/hiperboot/db/filter/BaseFilterGenerator.java:305-306 | an Integer cast succeeds iff the text is a long at least Integer.MIN_VALUE, saturating at Integer.MAX_VALUE |
| BaseFilterGenerator.CharacterCastRule | src/main/java/com/hiperboot/db/filter/BaseFilterGenerator.java:347-348 | a Character cast is the first char, or fails on an empty text |
| BaseFilterGenerator.LongCastRule | src/main/java/com/hiperboot/db/filter/BaseFilterGenerator.java:308-309 | a Long cast succeeds iff the text parses as a long, giving that value |
| BaseFilterGenerator.CastToList | src/main/java/com/hiperboot/db/filter/BaseFilterGenerator.java:377-388 | one cast per item in order, a nested list cast recursively, the first failure propagated. `CastToListShape` and `CastToListLoop` state it |
| BaseFilterGenerator.CastItem | src/main/java/com/hiperboot/db/filter/BaseFilterGenerator.java:377-388 | a leaf is cast with castToRequiredType |
| BaseFilterGenerator.CastToListShape | src/main/java/com/hiperboot/db/filter/BaseFilterGenerator.java:377-388 | castToList keeps length, order and nesting and casts each leaf; it fails iff some item does, and then with the exception of the first failing item |
| BaseFilterGenerator.CastToListLoop | src/main/java/com/hiperboot/db/filter/BaseFilterGenerator.java:377-388 | the loop computes castToList |
| BaseFilterGenerator.ValidationError | src/main/java/com/hiperboot/db/filter/BaseFilterGenerator.java:170-197 | HiperBootException "Can't perform a … operation with a … for field …" exactly for IN on Boolean, GREATER_THAN on Enum or Boolean, LIKE on a non-String field |
| BaseFilterGenerator.Bound | src/main/java/com/hiperboot/db/filter/BaseFilterGenerator.java:402-408 | getFrom (index 0) and getTo (index 1): that value cast to the attribute's type. A missing value list is a NullPointerException and a short one an IndexOutOfBoundsException. `RangeBounds` states it |
| BaseFilterGenerator.InItems | src/main/java/com/hiperboot/db/filter/BaseFilterGenerator.java:199-206 | one upper-cased literal per value in order; a null value fails |
| BaseFilterGenerator.GetInPredicate | src/main/java/com/hiperboot/db/filter/BaseFilterGenerator.java:199-206 | the IN predicate over the upper-cased field and those literals; null values fail |
| BaseFilterGenerator.GetBetween | src/main/java/com/hiperboot/db/filter/BaseFilterGenerator.java:220-222 | BETWEEN on the raw attribute and the two cast bounds, the lower bound cast first. `RangeBounds` states it |
| BaseFilterGenerator.GetDateTimeSplit | src/main/java/com/hiperboot/db/filter/BaseFilterGenerator.java:208-218 | the time-of-day comparison between the same two cast bounds, as one opaque node. `BetweenCorrected` and `BetweenAsWritten` use it under DATE_TIME_SPLIT |
| BaseFilterGenerator.BetweenAsWritten | src/main/java/com/hiperboot/db/filter/BaseFilterGenerator.java:137-145 | as written, a filter without control flags fails with NullPointerException (see Findings) |
| BaseFilterGenerator.BetweenCorrected | src/main/java/com/hiperboot/db/filter/BaseFilterGenerator.java:137-145 | without control flags the BETWEEN is on the two cast bounds; with flags as written |
| BaseFilterGenerator.BuiltBetweenFails | src/main/java/com/hiperboot/db/filter/BaseFilterGenerator.java:138 | every BETWEEN filter the builder produces fails as written and is the plain BETWEEN corrected |
| BaseFilterGenerator.BetweenCounterexample | src/main/java/com/hiperboot/db/filter/BaseFilterGenerator.java:138 | `age` from 1 to 5 fails as written; corrected it is `age BETWEEN 1 AND 5` |
| BaseFilterGenerator.FirstMatch | src/main/java/com/hiperboot/db/filter/BaseFilterGenerator.java:238-240 | the value of the first entry whose camel-cased key is the name, none iff no key matches |
| BaseFilterGenerator.ChildrenList | src/main/java/com/hiperboot/db/filter/BaseFilterGenerator.java:237-246 | at most one child per declared field |
| BaseFilterGenerator.ChildrenFromMap | src/main/java/com/hiperboot/db/filter/BaseFilterGenerator.java:237-246 | every child value comes from the nested map |
| BaseFilterGenerator.ChildrenListLoop | src/main/java/com/hiperboot/db/filter/BaseFilterGenerator.java:237-246 | the loop over the declared fields collects ChildrenList |
| BaseFilterGenerator.AddChild | src/main/java/com/hiperboot/db/filter/BaseFilterGenerator.java:275-291 | buildFilter of the one-entry map `{field: value}` against the attribute's type, then getPredicate of the first filter built (IndexOutOfBounds when there is none). `AddChildrenPredicate` states it (corrected, see Findings) |
| BaseFilterGenerator.AddChildrenPredicate | src/main/java/com/hiperboot/db/filter/BaseFilterGenerator.java:275-291 | the child's predicate within the joined entity |
| BaseFilterGenerator.ChildrenPredicates | src/main/java/com/hiperboot/db/filter/BaseFilterGenerator.java:257-273 | for each child in order, the predicates of its matching entries, appended. `GetChildrenPredicates` states it (corrected, see Findings) |
| BaseFilterGenerator.MatchPredicates | src/main/java/com/hiperboot/db/filter/BaseFilterGenerator.java:263-269 | the innermost loop: one addChildrenPredicate per entry whose camel-cased key names the child, in entry order. `MatchLoop` and `MatchPredicatesCopies` state it (corrected, see Findings) |
| BaseFilterGenerator.MatchLoop | src/main/java/com/hiperboot/db/filter/BaseFilterGenerator.java:257-273 | the loop over the nested map adds a predicate for each matching key |
| BaseFilterGenerator.GetChildrenPredicates | src/main/java/com/hiperboot/db/filter/BaseFilterGenerator.java:257-273 | the nested loops compute the children's predicates in order |
| BaseFilterGenerator.JoinPredicate | src/main/java/com/hiperboot/db/filter/BaseFilterGenerator.java:224-255 | getPredicateJoin. An unknown relation is IllegalArgumentException and a value that is not a map ClassCastException. No declared field named gives no predicate. Otherwise it is a fetch or join of the relation with the AND or OR of the children's predicates. `JoinShape`, `ChildrenListEmpty` and `GetPredicateJoin` state it (corrected, see Findings) |
| BaseFilterGenerator.GetPredicateJoin | src/main/java/com/hiperboot/db/filter/BaseFilterGenerator.java:224-255 | computes the JOIN predicate |
| BaseFilterGenerator.CreateSpecification | src/main/java/com/hiperboot/db/filter/BaseFilterGenerator.java:85-96 | an unknown attribute fails, otherwise the filter's predicate with the attribute's type (corrected, see Findings) |
| BaseFilterGenerator.GetSpecificationFromFilters | src/main/java/com/hiperboot/db/filter/BaseFilterGenerator.java:67-83 | the loop builds the left fold of the filters |
| BaseFilterGenerator.Compose | src/main/java/com/hiperboot/db/filter/BaseFilterGenerator.java:71-81 | the fold of getSpecificationFromFilters: `where` of the first clause, then `.and` or `.or` of each later clause by that clause's own logical operator. `ComposeShape` states it |
| BaseFilterGenerator.ComposeShape | src/main/java/com/hiperboot/db/filter/BaseFilterGenerator.java:67-83 | the fold holds the filters in order and joins filter i + 1 with AND iff its own logical operator is AND |
| BaseFilterGenerator.SpecificationOf | src/main/java/com/hiperboot/db/filter/BaseFilterGenerator.java:67-83 | none for a missing or empty list, otherwise the fold. `SpecificationShape` states it |
| BaseFilterGenerator.SpecificationShape | src/main/java/com/hiperboot/db/filter/BaseFilterGenerator.java:67-83 | no specification iff the list is null or empty; otherwise that left fold |
| BaseFilterGenerator.Combine | src/main/java/com/hiperboot/db/filter/BaseFilterGenerator.java:67-83 | Spring's and/or drop an absent side and otherwise build And/Or |
| BaseFilterGenerator.ClauseResultsAre | src/main/java/com/hiperboot/db/filter/BaseFilterGenerator.java:85-96 | each clause's result is its createSpecification |
| BaseFilterGenerator.ToPredicate | src/main/java/com/hiperboot/db/filter/BaseFilterGenerator.java:67-96 | toPredicate of a composed specification: the earlier part first, then the clause, joined as Spring's and/or join them. `ToPredicateFails` and `ClauseResultsAre` state it (corrected, see Findings) |
| BaseFilterGenerator.ToPredicateFails | src/main/java/com/hiperboot/db/filter/BaseFilterGenerator.java:67-96 | the combined predicate fails iff some clause does, with the first failure |
| BaseFilterGenerator.GetPredicate | src/main/java/com/hiperboot/db/filter/BaseFilterGenerator.java:98-168 | validation first, then the operator's predicate, negated under a NOT wrapper. `ValidationFirst`, `NotWrapperNegates` and `NullValue` state it (corrected, see Findings) |
| BaseFilterGenerator.OperatorPredicate | src/main/java/com/hiperboot/db/filter/BaseFilterGenerator.java:106-162 | the switch. JOIN is is-null for a null value and the join otherwise. EQUALS, LIKE, IN, GREATER_THAN and LESS_THAN each have their case, and BETWEEN goes through `BetweenCorrected`. `OperatorIgnoresWrapper`, `JoinIgnoresWrapper` and `RangeBounds` state it (corrected, see Findings) |
| BaseFilterGenerator.EqualsPredicate | src/main/java/com/hiperboot/db/filter/BaseFilterGenerator.java:115-122 | is-null for a null value, otherwise equality of the (upper-cased when String) field with the cast value. `NullValue` states the null case |
| BaseFilterGenerator.LikePredicate | src/main/java/com/hiperboot/db/filter/BaseFilterGenerator.java:123-126 | the upper-cased text of the value as the pattern, and NullPointerException for a null value. `NullValue` states the null case |
| BaseFilterGenerator.InPredicate | src/main/java/com/hiperboot/db/filter/BaseFilterGenerator.java:127-136 | getInPredicate for a String attribute, otherwise membership in castToList of the values. A missing value list is a NullPointerException. `InItems`, `GetInPredicate` and `CastToListShape` state its parts |
| BaseFilterGenerator.GreaterPredicate | src/main/java/com/hiperboot/db/filter/BaseFilterGenerator.java:146-155 | the attribute (upper-cased for String) `>=` the cast lower bound. `RangeBounds` states it |
| BaseFilterGenerator.LessPredicate | src/main/java/com/hiperboot/db/filter/BaseFilterGenerator.java:156-158 | the raw attribute `<=` the cast upper bound. `RangeBounds` states it |
| BaseFilterGenerator.JoinIgnoresWrapper | src/main/java/com/hiperboot/db/filter/BaseFilterGenerator.java:224-255 | the JOIN predicate ignores the NOT wrapper |
| BaseFilterGenerator.OperatorIgnoresWrapper | src/main/java/com/hiperboot/db/filter/BaseFilterGenerator.java:104-162 | the operator switch ignores the NOT wrapper |
| BaseFilterGenerator.NotWrapperNegates | src/main/java/com/hiperboot/db/filter/BaseFilterGenerator.java:163-167 | a NOT-wrapped filter yields the negation of the plain predicate (same errors); any other filter the plain predicate |
| BaseFilterGenerator.ValidationFirst | src/main/java/com/hiperboot/db/filter/BaseFilterGenerator.java:104-105 | a validation error is raised before anything else; BETWEEN, LESS_THAN, EQUALS and JOIN are never rejected |
| BaseFilterGenerator.NullValue | src/main/java/com/hiperboot/db/filter/BaseFilterGenerator.java:107-122 | EQUALS and JOIN with a null value compile to IS NULL; LIKE with null fails |
| BaseFilterGenerator.ChildrenListEmpty | src/main/java/com/hiperboot/db/filter/BaseFilterGenerator.java:237-246 | no children iff no key of the nested map matches a declared field |
| BaseFilterGenerator.JoinShape | src/main/java/com/hiperboot/db/filter/BaseFilterGenerator.java:224-255 | no matching child gives no predicate; otherwise a join on the field with its fetch policy whose body is And under AND and Or otherwise |
| BaseFilterGenerator.MatchPredicatesCopies | src/main/java/com/hiperboot/db/filter/BaseFilterGenerator.java:257-273 | every key matching a child adds the same child predicate once |
| BaseFilterGenerator.RangeBounds | src/main/java/com/hiperboot/db/filter/BaseFilterGenerator.java:137-158 | from/to give BETWEEN on both bounds, `>=` on the lower bound (upper-cased field for String) and `<=` on the raw field for the upper bound, all inclusive (corrected, see Findings) |
| Sorting.NewOrder | src/main/java/com/hiperboot/pagination/PageRequestBuilder.java:119-130 | a Spring Sort.Order is built iff its property has text; otherwise IllegalArgumentException |
| Sorting.SortStringOne | src/test/java/com/hiperboot/pagination/PaginationBookTest.java:36-46 | a one-order sort prints as `property: DIRECTION` |
| Sorting.SortStringTwo | src/test/java/com/hiperboot/pagination/PaginationBookTest.java:68-80 | a two-order sort prints both orders joined by `,` |
| OffsetBasedPageRequest.NewPageRequest | src/main/java/com/hiperboot/pagination/OffsetBasedPageRequest.java:39-52 | construction succeeds iff offset >= 0 and limit >= 1, keeping the three fields; otherwise IllegalArgumentException with the offset message (checked first) or the limit message |
| OffsetBasedPageRequest.PageNumber | src/main/java/com/hiperboot/pagination/OffsetBasedPageRequest.java:54-57 | the int page number is the unique n with n * limit <= offset < (n + 1) * limit; it fails (int overflow) when that n exceeds Integer.MAX_VALUE |
| OffsetBasedPageRequest.Next | src/main/java/com/hiperboot/pagination/OffsetBasedPageRequest.java:74-77 | offset + limit with the same limit and sort; a long overflow makes the constructor reject it |
| OffsetBasedPageRequest.First | src/main/java/com/hiperboot/pagination/OffsetBasedPageRequest.java:90-93 | offset 0, same limit and sort, page number 0 |
| OffsetBasedPageRequest.Previous | src/main/java/com/hiperboot/pagination/OffsetBasedPageRequest.java:79-83 | offset - limit when hasPrevious, otherwise the request itself |
| OffsetBasedPageRequest.PreviousOrFirst | src/main/java/com/hiperboot/pagination/OffsetBasedPageRequest.java:85-88 | offset - limit when offset > limit, else 0; never negative, and smaller than a positive offset |
| OffsetBasedPageRequest.WithPage | src/main/java/com/hiperboot/pagination/OffsetBasedPageRequest.java:95-98 | always UnsupportedOperationException |
| OffsetBasedPageRequest.PreviousOrFirstAfterNext | src/main/java/com/hiperboot/pagination/OffsetBasedPageRequest.java:74-88 | previousOrFirst undoes next |
| OffsetBasedPageRequest.NextPageNumber | src/main/java/com/hiperboot/pagination/OffsetBasedPageRequest.java:54-77 | next increases the page number by one |
| OffsetBasedPageRequest.QuotientUnique | src/main/java/com/hiperboot/pagination/OffsetBasedPageRequest.java:54-57 | the page holding an offset is unique |
| OffsetBasedPageRequest.HasPrevious | src/main/java/com/hiperboot/pagination/OffsetBasedPageRequest.java:100-103 | hasPrevious as written: `offset > limit` (as written, see Findings). `HasPreviousMissesSecondPage` exhibits the gap |
| OffsetBasedPageRequest.HasPreviousCorrected | src/main/java/com/hiperboot/pagination/OffsetBasedPageRequest.java:100-103 | `offset >= limit` (corrected, see Findings). `HasPreviousCorrectedMatchesPageNumber` proves it holds exactly past page 0 |
| OffsetBasedPageRequest.HasPreviousMissesSecondPage | src/main/java/com/hiperboot/pagination/OffsetBasedPageRequest.java:100-103 | offset 10, limit 10 is page 1 yet hasPrevious is false (see Findings) |
| OffsetBasedPageRequest.HasPreviousCorrectedMatchesPageNumber | src/main/java/com/hiperboot/pagination/OffsetBasedPageRequest.java:100-103 | with `offset >= limit` hasPrevious holds iff the page number is positive |
| OffsetBasedPageRequest.CorrectedPreviousOrFirst | src/main/java/com/hiperboot/pagination/OffsetBasedPageRequest.java:85-88 | previousOrFirst steps back one page exactly when the corrected hasPrevious holds, and gives first() otherwise |
| PageRequestBuilder.GetValidLimitWithoutMaxRestriction | src/main/java/com/hiperboot/pagination/PageRequestBuilder.java:132-142 | at least 1; DEFAULT_LIMIT (10000) for null; a limit >= 1 is kept |
| PageRequestBuilder.GetValidLimit | src/main/java/com/hiperboot/pagination/PageRequestBuilder.java:144-149 | always in [1, 10000000]; 10000 for null; values in range kept, lower ones raised to 1, higher ones cut to 10000000 |
| PageRequestBuilder.GetOrderAsWritten | src/main/java/com/hiperboot/pagination/PageRequestBuilder.java:119-130 | getOrder as written. The token is camel-cased. A `-` gives DESC and a `+` ASC, both on the untrimmed rest, and anything else gives ASC on the trimmed token (as written, see Findings). `DashSpaceTitleAsWritten` exhibits it and `GetOrderAgrees` ties it to `GetOrder` |
| PageRequestBuilder.GetOrder | src/main/java/com/hiperboot/pagination/PageRequestBuilder.java:119-130 | getOrder with the rest after a sign trimmed too (corrected, see Findings). `GetOrderRules`, `GetOrderTrimmed`, `DashSpaceTitle` and `LoneSignRejected` state it |
| PageRequestBuilder.GetOrderRules | src/main/java/com/hiperboot/pagination/PageRequestBuilder.java:119-130 | for an underscore-free token, `-f` gives DESC on the trimmed f, `+f` ASC on the trimmed f, anything else ASC on the trimmed token (corrected, see Findings) |
| PageRequestBuilder.GetOrderTrimmed | src/main/java/com/hiperboot/pagination/PageRequestBuilder.java:119-130 | the property of every parsed order is trimmed |
| PageRequestBuilder.GetOrderAgrees | src/main/java/com/hiperboot/pagination/PageRequestBuilder.java:119-130 | the corrected getOrder agrees with the code as written on every token whose remainder after the sign has no surrounding blanks |
| PageRequestBuilder.DashSpaceTitleAsWritten | src/main/java/com/hiperboot/pagination/PageRequestBuilder.java:121-126 | as written, "- title" gives DESC on " title", which does not print as "title: DESC" (see Findings) |
| PageRequestBuilder.DashSpaceTitle | src/test/java/com/hiperboot/pagination/PaginationBookTest.java:56-66 | "- title" gives DESC on "title", printed "title: DESC" |
| PageRequestBuilder.LoneSignRejected | src/main/java/com/hiperboot/pagination/PageRequestBuilder.java:119-126 | a lone `-` or `+` is rejected by Sort.Order |
| PageRequestBuilder.TokenOrder | src/main/java/com/hiperboot/pagination/PageRequestBuilder.java:93-94 | one element of the sort list: a String through `GetOrder`, NullPointerException for null, ClassCastException otherwise. `SortOrders` states it (corrected, see Findings) |
| PageRequestBuilder.SortOrders | src/main/java/com/hiperboot/pagination/PageRequestBuilder.java:89-99 | the orders follow the tokens one for one and in order; a failing token's error is the first failure (corrected, see Findings) |
| PageRequestBuilder.SortOrdersCons | src/main/java/com/hiperboot/pagination/PageRequestBuilder.java:89-99 | one token more keeps that correspondence |
| PageRequestBuilder.MapSortingField | src/main/java/com/hiperboot/pagination/PageRequestBuilder.java:108-117 | an order passes unchanged iff its property has text, else HiperBootException "Wrong sorting parameter …" |
| PageRequestBuilder.MappedSortingFields | src/main/java/com/hiperboot/pagination/PageRequestBuilder.java:101-106 | succeeds iff every property has text and then returns the orders unchanged (length, order, direction, property) |
| PageRequestBuilder.MappedSortingFieldsError | src/main/java/com/hiperboot/pagination/PageRequestBuilder.java:101-117 | the error names the first order without text |
| PageRequestBuilder.MapSortingFields | src/main/java/com/hiperboot/pagination/PageRequestBuilder.java:101-106 | the forEach loop computes the mapped orders |
| PageRequestBuilder.ParsedOrdersKept | src/main/java/com/hiperboot/pagination/PageRequestBuilder.java:89-117 | mapSortingFields keeps every order getOrder produced |
| PageRequestBuilder.GetPageRequestSorted | src/main/java/com/hiperboot/pagination/PageRequestBuilder.java:89-99 | a valid request with the given offset and the valid limit, its sort the parsed tokens (unsorted for null); a failing token, a null offset (NullPointerException) or a negative offset (IllegalArgumentException) are the error cases (corrected, see Findings) |
| PageRequestBuilder.GetPageRequestUnsorted | src/main/java/com/hiperboot/pagination/PageRequestBuilder.java:74-77 | the two-argument overload is the three-argument one without sort |
| PageRequestBuilder.UnboxInteger | src/main/java/com/hiperboot/pagination/PageRequestBuilder.java:83-84 | `(Integer) filter.get(key)` unboxed to an int: the int, NullPointerException for null, ClassCastException otherwise. `GetPageRequest` states its use |
| PageRequestBuilder.SortList | src/main/java/com/hiperboot/pagination/PageRequestBuilder.java:85 | `(List<String>) filter.get("sort")`: null, a list whose elements are not checked, or ClassCastException. `GetPageRequest` and `PageRequestOf` state its use |
| PageRequestBuilder.GetPageRequest | src/main/java/com/hiperboot/pagination/PageRequestBuilder.java:79-87 | no request for a null map; otherwise the offset read from the map and the valid limit, and the unboxing error for a limit that is not an Integer |
| PageRequestBuilder.CreateDefaultPage | src/main/java/com/hiperboot/pagination/PageRequestBuilder.java:65-72 | a one-entry map `{_page: {limit: 10000, offset: 0}}` |
| PageRequestBuilder.SplitSort | src/main/java/com/hiperboot/pagination/PageRequestBuilder.java:58-60 | a String sort becomes its untrimmed `,`-split pieces; other values stay |
| PageRequestBuilder.CompletedPage | src/main/java/com/hiperboot/pagination/PageRequestBuilder.java:52-60 | the page defaults: limit DEFAULT_LIMIT and offset 0 where missing, a String sort split at commas. `CompletedPageReads` states it |
| PageRequestBuilder.CompletedPageReads | src/main/java/com/hiperboot/pagination/PageRequestBuilder.java:52-60 | after completion a null limit reads 10000, a null offset 0, the sort is split, other keys unchanged |
| PageRequestBuilder.ExtractedPage | src/main/java/com/hiperboot/pagination/PageRequestBuilder.java:45-63 | the page extractPagination returns. A `_page` map is completed. Without one, the default head map gets the filter's sort and is then completed. Any other `_page` value fails the cast. `ExtractedPageComplete` and `DefaultExtraction` state it |
| PageRequestBuilder.ExtractedPageComplete | src/main/java/com/hiperboot/pagination/PageRequestBuilder.java:45-63 | an extracted page has a limit, an offset and no String sort |
| PageRequestBuilder.DefaultExtraction | src/main/java/com/hiperboot/pagination/PageRequestBuilder.java:45-72 | with no `_page` the page is the default one holding the filter's top-level sort |
| PageRequestBuilder.FilterAfterExtraction | src/main/java/com/hiperboot/pagination/PageRequestBuilder.java:46-49 | the filter map after extractPagination: `_page` removed, and `sort` as well when there was no page. `ExtractionRemovesPage` states it |
| PageRequestBuilder.ExtractionRemovesPage | src/main/java/com/hiperboot/pagination/PageRequestBuilder.java:46-49 | `_page` is removed from the filter, and so is `sort` when there was no page; every other entry is kept |
| PageRequestBuilder.CompletePage | src/main/java/com/hiperboot/pagination/PageRequestBuilder.java:52-60 | the page map object is changed in place into the completed page |
| PageRequestBuilder.ExtractPagination | src/main/java/com/hiperboot/pagination/PageRequestBuilder.java:45-63 | the filter map object loses `_page` (and `sort` without a page) and the completed page is returned |
| PageRequestBuilder.GetPagination | src/main/java/com/hiperboot/pagination/PageRequestBuilder.java:42-44 | works on a shallow copy: the result is the extracted page and the caller's outer map is not modified |
| PageRequestBuilder.PageRequestOf | src/main/java/com/hiperboot/pagination/PageRequestBuilder.java:79-99 | a page with Integer limit and offset reads back as the three-argument request on them |
| PageRequestBuilder.DefaultPageRequest | src/main/java/com/hiperboot/pagination/PageRequestBuilder.java:45-99 | a filter without `_page` reads back as offset 0, limit 10000 with the filter's sort |
| PageRequestBuilder.SortOrdersTwo | src/main/java/com/hiperboot/pagination/PageRequestBuilder.java:89-99 | two tokens give their two orders in order |
| PageRequestBuilder.SplitSortTwo | src/main/java/com/hiperboot/pagination/PageRequestBuilder.java:58-60 | `a,b` splits into `[a, b]` |
| PageRequestBuilder.SplitTitlePublished | src/test/java/com/hiperboot/pagination/PaginationBookTest.java:68-80 | "title, published" splits into "title" and " published" |
| PageRequestBuilder.TitlePublishedOrders | src/test/java/com/hiperboot/pagination/PaginationBookTest.java:68-80 | those tokens give title ASC, published ASC |
| PageRequestBuilder.TitlePublishedString | src/test/java/com/hiperboot/pagination/PaginationBookTest.java:68-80 | which prints "title: ASC,published: ASC" |
| PageRequestBuilder.TitlePublishedSorted | src/main/java/com/hiperboot/pagination/PageRequestBuilder.java:89-99 | the sorted request over them for any valid offset and limit |
| PageRequestBuilder.DefaultSortedRequest | src/main/java/com/hiperboot/pagination/PageRequestBuilder.java:45-99 | a page-less filter with a sort reads back as the default sorted request |
| PageRequestBuilder.TitlePublishedRequest | src/main/java/com/hiperboot/pagination/PageRequestBuilder.java:47-99 | `{sort: "title, published"}` reads back as offset 0, limit 10000, title ASC, published ASC |
| PaginationImpl.NewPagination | src/main/java/com/hiperboot/db/domain/PaginationImpl.java:35-42 | currentPage is number + 1 (wrapping at Integer.MAX_VALUE); totalPages, pageSize and totalRows are copied |
| PaginationImpl.HasNext | src/main/java/com/hiperboot/db/domain/PaginationImpl.java:44-46 | `number + 1 < totalPages`, with the sum wrapping as an int. `FlagsByCurrentPage` and `HasNextMeansMoreRows` state it |
| PaginationImpl.HasPrevious | src/main/java/com/hiperboot/db/domain/PaginationImpl.java:48-50 | `number > 0`. `FlagsByCurrentPage` states it |
| PaginationImpl.IsFirst | src/main/java/com/hiperboot/db/domain/PaginationImpl.java:52-54 | the negation of hasPrevious. `FlagsByCurrentPage` states it |
| PaginationImpl.IsLast | src/main/java/com/hiperboot/db/domain/PaginationImpl.java:56-58 | the negation of hasNext. `FlagsByCurrentPage` states it |
| PaginationImpl.FlagsByCurrentPage | src/main/java/com/hiperboot/db/domain/PaginationImpl.java:44-58 | hasNext iff currentPage < totalPages, isLast its negation, hasPrevious iff currentPage > 1, isFirst iff currentPage == 1 |
| PaginationImpl.CeilDiv | src/test/java/com/hiperboot/pagination/BasePageTest.java:37-67 | the least page count covering the rows |
| PaginationImpl.OffsetPage | src/main/java/com/hiperboot/db/domain/PaginationImpl.java:35-42 | the page Spring builds for an offset request: number = page number, size = limit, page count covering the rows |
| PaginationImpl.HasNextMeansMoreRows | src/main/java/com/hiperboot/db/domain/PaginationImpl.java:44-46 | hasNext iff rows remain after the current page |
| PaginationImpl.CurrentPageOfOffset | src/main/java/com/hiperboot/db/domain/PaginationImpl.java:38 | the current page is the 1-based page holding the offset row |
| PaginationImpl.NextCurrentPage | src/main/java/com/hiperboot/db/domain/PaginationImpl.java:38 | next() moves the current page on by one |
| PaginationImpl.OffsetOneLimitThree | src/test/java/com/hiperboot/pagination/BasePageTest.java:37-52 | offset 1, limit 3 over 8 rows: page 1 of 3, size 3 |
| PaginationImpl.OffsetThreeLimitTwo | src/test/java/com/hiperboot/pagination/BasePageTest.java:54-67 | offset 3, limit 2 over 8 rows: page 2 of 4 |
| PaginationExamples.AuthorFilter | src/main/java/com/hiperboot/util/HBUtils.java:99-107 | hbEquals("author.id", "3") has no page entry |
| PaginationExamples.ChainedRequest | src/main/java/com/hiperboot/util/HBUtils.java:56-81 | a filter chained with sortedBy, offset and limit reads back as the sorted request over them |
| PaginationExamples.BookRequest | src/test/java/com/hiperboot/pagination/PaginationBookTest.java:68-80 | the book filter with offset o and limit l is the request for o, l sorted by title, published |
| PaginationExamples.FirstBookPage | src/test/java/com/hiperboot/pagination/BasePageTest.java:37-52 | that request at offset 1, limit 3 is page 1 of 3 and first |
| PaginationExamples.SecondBookPage | src/test/java/com/hiperboot/pagination/BasePageTest.java:54-67 | at offset 3, limit 2 it is page 2 of 4 with previous and next pages |
| HBUtil.EqualValue | src/main/java/com/hiperboot/util/HBUtil.java:37-42 | one value gives that String, several a list of them in order |
| HBUtil.ColumnEqualValues | src/main/java/com/hiperboot/util/HBUtil.java:37-42 | exactly one key, the column, holding that value or list |
| HBUtil.ColumnIsNull | src/main/java/com/hiperboot/util/HBUtil.java:44-48 | exactly one key, the column, holding null |
| HBUtil.ColumnNotEqualValues | src/main/java/com/hiperboot/util/HBUtil.java:50-55 | exactly one key, "NOT", holding the equals map |
| HBUtil.ColumnGreaterThan | src/main/java/com/hiperboot/util/HBUtil.java:57-60 | `{column: {from: v}}` and nothing else |
| HBUtil.ColumnSmallerThan | src/main/java/com/hiperboot/util/HBUtil.java:62-65 | `{column: {to: v}}` and nothing else |
| HBUtil.ColumnBetween | src/main/java/com/hiperboot/util/HBUtil.java:67-70 | `{column: {from: a, to: b}}` |
| HBUtil.StartSizeSortPage | src/main/java/com/hiperboot/util/HBUtil.java:72-84 | limit defaults to 10000, offset to 0, the sort key present only for a non-null sort |
| HBUtil.GetPageWithStartSizeSort | src/main/java/com/hiperboot/util/HBUtil.java:72-84 | a one-key map `{_page: page}` over that page |
| HBUtil.Nested | src/main/java/com/hiperboot/util/HBUtil.java:86-96 | one single-entry LinkedHashMap per segment, outermost first |
| HBUtil.LookupNested | src/main/java/com/hiperboot/util/HBUtil.java:86-96 | following the segments through the nested maps reaches the value |
| HBUtil.PathNested | src/main/java/com/hiperboot/util/HBUtil.java:86-96 | the nested maps' keys are exactly the segments |
| HBUtil.SubEntity | src/main/java/com/hiperboot/util/HBUtil.java:86-96 | following the dot-separated segments reaches the value; a key without a dot gives `{key: value}`; a key that splits into nothing fails with an index error |
| HBUtil.ColumnSubEntity | src/main/java/com/hiperboot/util/HBUtil.java:86-96 | the currentMap loop builds that nested map |
| HBUtil.TwoSegments | src/main/java/com/hiperboot/util/HBUtil.java:86-96 | "a.b" gives `{a: {b: v}}` |
| HBUtil.DotsOnly | src/main/java/com/hiperboot/util/HBUtil.java:87-90 | "." splits into nothing and fails |
| HBUtil.AddPageToFilter | src/main/java/com/hiperboot/util/HBUtil.java:98-102 | a null page fails; otherwise a copy (empty for a null filter) with `_page` taken from the page map and every other key from the filter |
| HBUtil.StartSizeSortExtracted | src/main/java/com/hiperboot/util/HBUtil.java:72-102 | the page put by addPageToFilter is the page extractPagination reads back, completed |
| HBUtil.StartSizeSortReads | src/main/java/com/hiperboot/util/HBUtil.java:72-84 | that page reads limit (default 10000), offset (default 0) and the split sort |
| HBUtil.StartSizeRequest | src/main/java/com/hiperboot/util/HBUtil.java:72-102 | an unsorted start/size page reads back as the request on that offset and the valid limit |
| HBUtil.SortedRequestOf | src/main/java/com/hiperboot/pagination/PageRequestBuilder.java:79-99 | a page with a sort list reads back as the sorted request |
| HBUtil.StartSizeSortRequest | src/main/java/com/hiperboot/util/HBUtil.java:72-84 | a sorted start/size page reads back as the request sorted by the split sort |
| HBUtils.WithPage | src/main/java/com/hiperboot/util/HBUtils.java:50-54 | puts the default `_page` at the end only when it is absent; nothing else changes |
| HBUtils.WithPageIdempotent | src/main/java/com/hiperboot/util/HBUtils.java:50-54 | createPage twice is createPage once |
| HBUtils.SetInPage | src/main/java/com/hiperboot/util/HBUtils.java:56-81 | sets exactly one key of the page map (appended if new) and leaves every other key of the page and of the filter |
| HBUtils.HBUtilBuilder.constructor | src/main/java/com/hiperboot/util/HBUtils.java:36-38 | the builder holds the initial entries |
| HBUtils.HBUtilBuilder.Of | src/main/java/com/hiperboot/util/HBUtils.java:40-42 | a fresh builder over the given map |
| HBUtils.HBUtilBuilder.OfEntry | src/main/java/com/hiperboot/util/HBUtils.java:44-48 | a fresh builder over the one entry |
| HBUtils.HBUtilBuilder.CreatePage | src/main/java/com/hiperboot/util/HBUtils.java:50-54 | the entries become WithPage of the old entries |
| HBUtils.HBUtilBuilder.PutInPage | src/main/java/com/hiperboot/util/HBUtils.java:56-81 | the shared body of sortedBy, offset and limit. The new entries are those of createPage with the key put into `_page` when `_page` is a map |
| HBUtils.HBUtilBuilder.SortedBy | src/main/java/com/hiperboot/util/HBUtils.java:56-63 | creates the page if needed and sets its sort, returning the same builder |
| HBUtils.HBUtilBuilder.Offset | src/main/java/com/hiperboot/util/HBUtils.java:65-72 | creates the page if needed and sets its offset, returning the same builder |
| HBUtils.HBUtilBuilder.Limit | src/main/java/com/hiperboot/util/HBUtils.java:74-81 | creates the page if needed and sets its limit, returning the same builder |
| HBUtils.DefaultPageWith | src/main/java/com/hiperboot/util/HBUtils.java:50-81 | on a fresh default page the one key is put into the default page |
| HBUtils.SortedBy | src/main/java/com/hiperboot/util/HBUtils.java:84-87 | a fresh builder over the default page with the sort set |
| HBUtils.Offset | src/main/java/com/hiperboot/util/HBUtils.java:89-92 | a fresh builder over the default page with the offset set |
| HBUtils.Limit | src/main/java/com/hiperboot/util/HBUtils.java:94-97 | a fresh builder over the default page with the limit set |
| HBUtils.EqualsEntries | src/main/java/com/hiperboot/util/HBUtils.java:99-107 | following the column's segments reaches the value (one) or list (several); without a dot it is columnEqualValues; a column that splits into nothing fails |
| HBUtils.ColumnSubEntity | src/main/java/com/hiperboot/util/HBUtils.java:132-148 | the nested-map loop builds EqualsEntries (`{key: values}` for a key without a dot), or fails as it does |
| HBUtils.HbEquals | src/main/java/com/hiperboot/util/HBUtils.java:99-107 | a fresh builder over EqualsEntries, or its error |
| HBUtils.HbIsNull | src/main/java/com/hiperboot/util/HBUtils.java:109-111 | a fresh builder over `{column: null}` |
| HBUtils.HbNotEquals | src/main/java/com/hiperboot/util/HBUtils.java:113-118 | a fresh builder over `{NOT: {column: values}}` |
| HBUtils.GreaterThan | src/main/java/com/hiperboot/util/HBUtils.java:120-122 | a fresh builder over `{column: {from: v}}` |
| HBUtils.SmallerThan | src/main/java/com/hiperboot/util/HBUtils.java:124-126 | a fresh builder over `{column: {to: v}}` |
| HBUtils.Between | src/main/java/com/hiperboot/util/HBUtils.java:128-130 | a fresh builder over `{column: {from: a, to: b}}` |
| HBUtils.ChainedDefaultPage | src/main/java/com/hiperboot/util/HBUtils.java:160-172 | the default page with sort, offset and limit put is getPageWithStartSizeSort's page |
| HBUtils.ChainPage | src/main/java/com/hiperboot/util/HBUtils.java:56-81 | sortedBy(s).offset(o).limit(l) on a page-less filter puts getPageWithStartSizeSort(o, l, s)'s page under `_page` and leaves the other entries |

## Left out

- The JPA Criteria API and the execution of queries are not modelled. `root.get`, `cb.*`, `root.fetch` and `join`, and `Specification` are replaced by the `Pred` datatype: `IsNull | Eq | Like | In | Between | Ge | Le | Not | And | Or | Join`, with `Absent` standing for a null predicate. That datatype describes what would be built; it is not evaluated against rows.
- Reflection is not modelled. `getDeclaredFields` and `getSuperclass` are replaced by the `ClassDecl` and `FieldDecl` values that `getClassHierarchy` and `getFieldList` walk.
  - `adjustFieldType` (DbFilterBuilder.java:255-260) and `getNestedFields` (247-253) are given as data, since a `FieldDecl` carries its already-adjusted type.
  - `hasAnnotation`'s `Class.forName` (262-277) is a flag on the type tag.
- The JPA metamodel and the fetch policy are inputs. The metamodel gives each attribute's Java type, each relation's target entity and its declared attributes. The fetch policy is `fetchData`'s configuration.
- The date conversions are opaque. DatatypeConverter.java, LocalDateTypeCaster.java and the java.time formatters inside `identifyDateFormat` depend on the environment's clock and zone. They appear as the `TimeParsers` predicates and, in the cast, as `LibraryCast`, which only says whether the library accepts the text.
- The Double, Float, BigDecimal, BigInteger, Short, Byte and date casts (BaseFilterGenerator.java:302-354) are also `LibraryCast`. That is library parsing and floating point.
- The `to_char`/`SYS_EXTRACT_UTC` formatting of `getDateTimeSplit` (BaseFilterGenerator.java:208-218) is not modelled. With control flags, that branch is an extra `And` node over an opaque expression.
- Spring's `Page`/`PageImpl` is not part of this model. `PaginationImpl.OffsetPage` is a stand-in for the page Spring returns: the page count is the rows divided by the size, rounded up, computed on integers instead of through a `double` and saturated to an int. Spring's adjustment of the total on a short last page is not modelled.
- Of Spring's `Sort` only what the code relies on is modelled: the `hasText` check of the `Sort.Order` constructor and `toString`.
- Map iteration order is modelled as insertion order for every map. That matches `LinkedHashMap`. For `HashMap` and `Map.of`, as in `getFieldList`'s field map and in `columnSubEntity`, the order is unspecified, and the model uses the insertion order.
- Aliasing of the nested `_page` map is left out. The model treats every `_page` value as a value, so it does not capture these writes through a shared map:
  - `getPagination` copies only the outer map, and then writes into the nested `_page` map that it shares with the caller (PageRequestBuilder.java:46-60).
  - `HBUtilBuilder.sortedBy`, `offset` and `limit` write in place into a nested `_page` map, and that map is shared with the map passed to `of(map)` (HBUtils.java:58-79).
- `pageExists` (HBUtils.java:150-152) is not modelled. Nothing in the core calls it.
- The `catch` in `mapSortingField` (PageRequestBuilder.java:108-117) cannot be reached. `getOrder` has already rejected a blank property, so the model only states the check.
- Null `String` arguments to the builder helpers, and logging, are left out. Those helpers are `HBUtil`/`HBUtils` and `toCamelCase`.
- Upper/lower-case mapping, whitespace and digits are ASCII only. Java's Unicode case tables are not modelled.
- BaseFilterGenerator.CastToRequiredType: reports a rejected date text as `DateTimeParse(s)`. When `identifyDateFormat` gives UNIDENTIFIED, DatatypeConverter throws IllegalArgumentException("Unrecognized date format type") instead (DatatypeConverter.java:34-136). Which of the two a rejected text raises is an assumption of the model, since `LibraryCast` does not separate them.
- BaseFilterGenerator.CreateSpecification, BaseFilterGenerator.OperatorPredicate, BaseFilterGenerator.GetPredicate, BaseFilterGenerator.ToPredicate, BaseFilterGenerator.RangeBounds and BaseFilterGenerator.ToPredicateFails: compile BETWEEN through `BetweenCorrected`. As written, every BETWEEN that `DbFilterBuilder` builds throws NullPointerException (Findings, row 1). Every member built on `OperatorPredicate` inherits the correction, for example `JoinPredicate`, `ChildrenPredicates`, `MatchPredicates`, `AddChild`, `GetPredicateJoin`, `GetChildrenPredicates` and `GetSpecificationFromFilters`.
- DbFilterBuilder.ItemOutcome, DbFilterBuilder.ItemOperator, DbFilterBuilder.ItemsOutcomes, DbFilterBuilder.EntryOutcomes, DbFilterBuilder.Outcomes, DbFilterBuilder.DbFiltersOf, DbFilterBuilder.BuildFilter, DbFilterBuilder.GetDbFilters and DbFilterBuilder.DbFiltersOfCases: convert IN lists through `ConvertToList`. As written, a list of Integer items on a non-String field throws ClassCastException (Findings, row 2). Every member built on `ItemOutcome` inherits the correction, for example `ProcessFilterItem`, `ProcessWrapList`, `ProcessNotOperator` and `ProcessEntry`, and `BaseFilterGenerator.AddChild` through its one-entry build.
- PageRequestBuilder.GetOrder, PageRequestBuilder.GetOrderRules, PageRequestBuilder.TokenOrder, PageRequestBuilder.SortOrders, PageRequestBuilder.GetPageRequestSorted and PageRequestBuilder.GetPageRequest: parse sort tokens through the corrected `GetOrder`, which trims after a sign. As written, "- title" sorts on " title" (Findings, row 4). Every member built on `GetOrder` inherits the correction, for example `PageRequestOf`, `DefaultSortedRequest` and `HBUtil.SortedRequestOf`. `MapSortingFields` works on orders already parsed and is the same in both readings. The lemmas over these, `TitlePublished*`, `PaginationExamples.*` and `HBUtil.StartSizeSortRequest`, are about the corrected parsing too. Their tokens have no whitespace after a sign, and on such tokens `GetOrderAgrees` shows that both parsings give the same order.
- PaginationImpl.FlagsByCurrentPage: stated only for page numbers below Integer.MAX_VALUE, because `number + 1` wraps around there (the wrap itself is in `NewPagination`).
- PaginationImpl.HasNextMeansMoreRows: stated only for at most Integer.MAX_VALUE rows and page numbers below Integer.MAX_VALUE. Beyond those the int page count saturates.

## Findings

| source | as written | input that shows it | evidently intended | confidence | as-written member | corrected member |
|---|---|---|---|---|---|---|
| src/main/java/com/hiperboot/db/filter/BaseFilterGenerator.java:138 | the BETWEEN case calls `input.getControlFlag().contains(...)`, but no filter built by `DbFilterBuilder` has a control flag, so every BETWEEN throws NullPointerException | `{"age": {"from": 1, "to": 5}}` (`BetweenCounterexample`) | absent control flags mean a plain BETWEEN on the two bounds | not executed | BaseFilterGenerator.BetweenAsWritten | BaseFilterGenerator.BetweenCorrected |
| src/main/java/com/hiperboot/db/filter/DbFilterBuilder.java:174-177 | Integer items are widened with `converted.stream().map(Long::valueOf)` on a list typed `ArrayList<String>`, so `Long.valueOf(String)` receives an Integer and throws ClassCastException | IN list `[1, 2]` on a non-String field (`IntegerListAsWritten`) | every Integer item becomes the Long of the same value | not executed | DbFilterBuilder.ConvertToListAsWritten | DbFilterBuilder.ConvertToList |
| src/main/java/com/hiperboot/pagination/OffsetBasedPageRequest.java:100-103 | `hasPrevious` is `offset > limit`, so on the second page, where offset equals limit, it reports no previous page | offset 10, limit 10: page 1, `hasPrevious` false (`HasPreviousMissesSecondPage`) | `offset >= limit`, i.e. page number > 0 | not executed | OffsetBasedPageRequest.HasPrevious | OffsetBasedPageRequest.HasPreviousCorrected |
| src/main/java/com/hiperboot/pagination/PageRequestBuilder.java:121-126 | after a `-` or `+` sign the remainder is not trimmed, so "- title" sorts on the property " title" | sort "- title", which PaginationBookTest.java:56-66 expects to print "title: DESC" (`DashSpaceTitleAsWritten`) | the remainder after the sign is trimmed, as the unsigned branch is | not executed | PageRequestBuilder.GetOrderAsWritten | PageRequestBuilder.GetOrder |

- `BaseFilterGenerator.BetweenAsWritten` is shown to fail on every built BETWEEN filter by `BuiltBetweenFails` and `BetweenCounterexample`. The rest of the model compiles BETWEEN through `BetweenCorrected`.
- `DbFilterBuilder.ConvertToListAsWritten` fails on the Integer list by `IntegerListAsWritten`. The builder uses `ConvertToList`.
- `OffsetBasedPageRequest.HasPrevious` is kept as written, since `previous` depends on it. For it:
  - `HasPreviousMissesSecondPage` exhibits the gap;
  - `HasPreviousCorrectedMatchesPageNumber` proves that the corrected test matches the page number;
  - `CorrectedPreviousOrFirst` proves that `previousOrFirst` already behaves as the corrected test says.
- `PageRequestBuilder.GetOrderAsWritten` is exhibited by `DashSpaceTitleAsWritten`. The page requests use `GetOrder`, which `DashSpaceTitle`, `GetOrderTrimmed` and `GetOrderAgrees` are about.

## Notes on the code

- `createDefaultPage` (PageRequestBuilder.java:65-72) returns the head map `{_page: {limit, offset}}`, not the page itself. With no `_page` in the filter, `extractPagination` therefore returns a page that holds `limit`, `offset` and `sort`, and also a stray `_page` entry. The model keeps that entry (`DefaultExtraction`).
- Some tests call `hbAnd` and `hbNot`, which the builders here do not define. Those tests are used only as examples of expected results.
