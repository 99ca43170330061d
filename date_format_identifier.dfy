/** DateFormatIdentifier: classifies a date text into a DateFormatType by an
    ordered list of recognisers, the first that accepts winning. The
    java.time formatters (ISO_DATE, ISO_LOCAL_DATE_TIME, ISO_ZONED_DATE_TIME
    and the RFC 1123 date-time of section 5.2.14 of RFC 1123) are parameters;
    the epoch rule and the SQL pattern are spelled out. */
module DateFormatIdentifier {
  import opened Text
  import opened JavaNumbers
  import opened Results

  datatype DateFormatType =
    | ISO_DATE            // YYYY-MM-DD
    | ISO_DATETIME        // YYYY-MM-DDThh:mm:ss
    | ISO_DATETIME_TZ     // YYYY-MM-DDThh:mm:ss+hh:mm
    | ISO_DATETIME_UTC    // YYYY-MM-DDThh:mm:ssZ
    | RFC_1123            // EEE, dd MMM yyyy HH:mm:ss zzz
    | EPOCH_SECONDS
    | EPOCH_MILLISECONDS
    | SQL_DATETIME        // YYYY-MM-DD HH:MM:SS.s
    | UNIDENTIFIED

  /** Whether each java.time formatter parses the text without a
      DateTimeParseException. */
  datatype TimeParsers = TimeParsers(
    isoDate: string -> bool,
    isoLocalDateTime: string -> bool,
    isoZonedDateTime: string -> bool,
    rfc1123: string -> bool)

  /** What every one of those formatters is known to satisfy: none accepts a
      bare (optionally signed) run of digits, and the ISO ones never accept
      a space. */
  ghost predicate WellFormed(p: TimeParsers) {
    (forall s :: p.isoDate(s) ==> ' ' !in s && Numeral(s).None?) &&
    (forall s :: p.isoLocalDateTime(s) ==> ' ' !in s && Numeral(s).None?) &&
    (forall s :: p.isoZonedDateTime(s) ==> ' ' !in s && Numeral(s).None?) &&
    (forall s :: p.rfc1123(s) ==> Numeral(s).None?)
  }

  /** The regular expression \d{4}-\d{2}-\d{2} \d{2}:\d{2}:\d{2}\.\d with 'd'
      standing for one ASCII digit. */
  const SqlPattern: string := "dddd-dd-dd dd:dd:dd.d"

  predicate MatchesSqlDateTime(s: string) {
    |s| == |SqlPattern| &&
    forall i :: 0 <= i < |s| ==>
      if SqlPattern[i] == 'd' then IsDigit(s[i]) else s[i] == SqlPattern[i]
  }

  /** The formats in the order they are tried. */
  const TryOrder: seq<DateFormatType> :=
    [ISO_DATE, ISO_DATETIME, ISO_DATETIME_UTC, ISO_DATETIME_TZ,
     EPOCH_SECONDS, EPOCH_MILLISECONDS, SQL_DATETIME, RFC_1123]

  /** Each format's own acceptance test, independent of the others. */
  predicate Recognises(p: TimeParsers, s: string, t: DateFormatType) {
    match t
    case ISO_DATE => p.isoDate(s)
    case ISO_DATETIME => p.isoLocalDateTime(s)
    case ISO_DATETIME_UTC => EndsWith(s, "Z") && p.isoZonedDateTime(s)
    case ISO_DATETIME_TZ => p.isoZonedDateTime(s)
    case EPOCH_SECONDS => ParseLong(s).Some? && |IntToString(ParseLong(s).value)| <= 10
    case EPOCH_MILLISECONDS => ParseLong(s).Some? && |IntToString(ParseLong(s).value)| > 10
    case SQL_DATETIME => MatchesSqlDateTime(s)
    case RFC_1123 => p.rfc1123(s)
    case UNIDENTIFIED => false
  }

  /** The reference classifier: the first format of order whose own test
      accepts the text, UNIDENTIFIED when none does. */
  function FirstMatch(p: TimeParsers, s: string, order: seq<DateFormatType>): DateFormatType
    decreases |order|
  {
    if |order| == 0 then UNIDENTIFIED
    else if Recognises(p, s, order[0]) then order[0]
    else FirstMatch(p, s, order[1..])
  }

  /** What the first match is: a recognised member of the order that occurs
      no later than any recognised format; UNIDENTIFIED only when nothing in
      the order accepts the text. */
  lemma {:induction false} FirstMatchIsFirst(p: TimeParsers, s: string, order: seq<DateFormatType>)
    ensures FirstMatch(p, s, order) == UNIDENTIFIED || FirstMatch(p, s, order) in order
    ensures FirstMatch(p, s, order) != UNIDENTIFIED ==> Recognises(p, s, FirstMatch(p, s, order))
    ensures UNIDENTIFIED !in order ==>
      (FirstMatch(p, s, order) == UNIDENTIFIED <==> forall k :: 0 <= k < |order| ==> !Recognises(p, s, order[k]))
    ensures forall k :: 0 <= k < |order| && Recognises(p, s, order[k]) ==> FirstMatch(p, s, order) in order[..k + 1]
    decreases |order|
  {
    if |order| > 0 && !Recognises(p, s, order[0]) {
      FirstMatchIsFirst(p, s, order[1..]);
      assert forall k :: 1 <= k < |order| ==> order[1..][..k] == order[1..k + 1];
      assert forall k :: 1 <= k < |order| ==> order[k] == order[1..][k - 1];
    }
  }

  /** DateFormatIdentifier.identifyDateFormat: every parse failure is
      caught, so the classification is total. */
  function IdentifyDateFormat(p: TimeParsers, s: string): DateFormatType {
    if p.isoDate(s) then ISO_DATE
    else if p.isoLocalDateTime(s) then ISO_DATETIME
    else if EndsWith(s, "Z") && p.isoZonedDateTime(s) then ISO_DATETIME_UTC
    else if p.isoZonedDateTime(s) then ISO_DATETIME_TZ
    else if ParseLong(s).Some? then
      (if |IntToString(ParseLong(s).value)| <= 10 then EPOCH_SECONDS else EPOCH_MILLISECONDS)
    else if MatchesSqlDateTime(s) then SQL_DATETIME
    else if p.rfc1123(s) then RFC_1123
    else UNIDENTIFIED
  }

  /** identifyDateFormat is the first-match classifier over the try order:
      the result is the first format whose own test accepts the text, and
      UNIDENTIFIED exactly when none does. */
  lemma IdentifyIsFirstMatch(p: TimeParsers, s: string)
    ensures IdentifyDateFormat(p, s) == FirstMatch(p, s, TryOrder)
  {
    var o := TryOrder;
    FirstMatchStep(p, s, o);
    FirstMatchStep(p, s, o[1..]);
    FirstMatchStep(p, s, o[2..]);
    FirstMatchStep(p, s, o[3..]);
    FirstMatchStep(p, s, o[4..]);
    FirstMatchStep(p, s, o[5..]);
    FirstMatchStep(p, s, o[6..]);
    FirstMatchStep(p, s, o[7..]);
    assert o[1..][1..] == o[2..] && o[2..][1..] == o[3..] && o[3..][1..] == o[4..];
    assert o[4..][1..] == o[5..] && o[5..][1..] == o[6..] && o[6..][1..] == o[7..];
    assert o[7..][1..] == [];
  }

  lemma FirstMatchStep(p: TimeParsers, s: string, order: seq<DateFormatType>)
    requires |order| > 0
    ensures FirstMatch(p, s, order) ==
      if Recognises(p, s, order[0]) then order[0] else FirstMatch(p, s, order[1..])
  {
  }

  /** ISO_DATETIME_UTC needs both a trailing Z and a zoned parse; a zoned
      text the two local ISO formats reject and that does not end in Z is
      ISO_DATETIME_TZ. */
  lemma UtcOnlyWithZ(p: TimeParsers, s: string)
    ensures IdentifyDateFormat(p, s) == ISO_DATETIME_UTC ==> EndsWith(s, "Z") && p.isoZonedDateTime(s)
    ensures !p.isoDate(s) && !p.isoLocalDateTime(s) && p.isoZonedDateTime(s) && !EndsWith(s, "Z") ==>
      IdentifyDateFormat(p, s) == ISO_DATETIME_TZ
  {
  }

  /** String.valueOf(v) has at most ten characters exactly when
      -10^9 < v < 10^10: the sign counts as a character. */
  lemma SecondsRange(v: int)
    ensures |IntToString(v)| <= 10 <==> -1_000_000_000 < v < 10_000_000_000
  {
    if v < 0 {
      NatToStringLength(-v, 9);
      Pow10NineTen();
    } else {
      NatToStringLength(v, 10);
      Pow10NineTen();
    }
  }

  lemma Pow10NineTen()
    ensures Pow10(9) == 1_000_000_000 && Pow10(10) == 10_000_000_000
  {
    assert Pow10(3) == 1000;
    assert Pow10(6) == 1000 * Pow10(3);
    assert Pow10(9) == 1000 * Pow10(6);
  }

  /** Any text Long.parseLong accepts is an epoch: seconds when the value
      lies strictly between -10^9 and 10^10 (ten characters or fewer),
      milliseconds otherwise. */
  lemma NumeralsAreEpochs(p: TimeParsers, s: string)
    requires WellFormed(p)
    requires ParseLong(s).Some?
    ensures -1_000_000_000 < ParseLong(s).value < 10_000_000_000 ==> IdentifyDateFormat(p, s) == EPOCH_SECONDS
    ensures !(-1_000_000_000 < ParseLong(s).value < 10_000_000_000) ==> IdentifyDateFormat(p, s) == EPOCH_MILLISECONDS
  {
    assert !p.isoDate(s) && !p.isoLocalDateTime(s) && !p.isoZonedDateTime(s);
    SecondsRange(ParseLong(s).value);
  }

  /** A text of the SQL shape is SQL_DATETIME: the ISO formatters refuse its
      space and Long.parseLong its dashes. */
  lemma SqlShapeIsSqlDateTime(p: TimeParsers, s: string)
    requires WellFormed(p)
    requires MatchesSqlDateTime(s)
    ensures IdentifyDateFormat(p, s) == SQL_DATETIME
  {
    assert s[10] == ' ';
    assert !p.isoDate(s) && !p.isoLocalDateTime(s) && !p.isoZonedDateTime(s);
    assert !IsDigit(s[4]) && !IsDigit(s[10]);
    assert !AllDigits(s) && !AllDigits(s[1..]) by {
      assert s[1..][3] == s[4];
    }
  }

  /** A run of decimal digits whose value fits a long is an epoch, in
      seconds below 10^10 and in milliseconds from there on. */
  lemma DigitsAreEpochs(p: TimeParsers, s: string, v: int)
    requires WellFormed(p)
    requires |s| >= 1 && AllDigits(s) && DigitsValue(s) == v && v <= MAX_LONG
    ensures IdentifyDateFormat(p, s) == if v < 10_000_000_000 then EPOCH_SECONDS else EPOCH_MILLISECONDS
  {
    assert Numeral(s) == Some(v);
    NumeralsAreEpochs(p, s);
  }

  /** A text with a space that is neither a numeral nor of the SQL shape
      reaches the RFC 1123 formatter, and is UNIDENTIFIED when that fails. */
  lemma SpacedTextFallsThrough(p: TimeParsers, s: string)
    requires WellFormed(p)
    requires ' ' in s && Numeral(s).None? && !MatchesSqlDateTime(s)
    ensures IdentifyDateFormat(p, s) == if p.rfc1123(s) then RFC_1123 else UNIDENTIFIED
  {
  }

  /** The digits of the test's epoch values, read most significant first. */
  lemma EpochPrefixDigits()
    ensures AllDigits("17029") && DigitsValue("17029") == 17029
  {
    DigitsSnoc("", '1', "1");
    DigitsSnoc("1", '7', "17");
    DigitsSnoc("17", '0', "170");
    DigitsSnoc("170", '2', "1702");
    DigitsSnoc("1702", '9', "17029");
  }

  lemma EpochSecondsDigits()
    ensures AllDigits("1702992000") && DigitsValue("1702992000") == 1702992000
  {
    EpochPrefixDigits();
    DigitsSnoc("17029", '9', "170299");
    DigitsSnoc("170299", '2', "1702992");
    DigitsSnoc("1702992", '0', "17029920");
    DigitsSnoc("17029920", '0', "170299200");
    DigitsSnoc("170299200", '0', "1702992000");
  }

  lemma EpochMillisecondsDigits()
    ensures AllDigits("1702992000000") && DigitsValue("1702992000000") == 1702992000000
  {
    EpochSecondsDigits();
    DigitsSnoc("1702992000", '0', "17029920000");
    DigitsSnoc("17029920000", '0', "170299200000");
    DigitsSnoc("170299200000", '0', "1702992000000");
  }

  lemma EpochSecondsExample(p: TimeParsers)
    requires WellFormed(p)
    ensures IdentifyDateFormat(p, "1702992000") == EPOCH_SECONDS
  {
    EpochSecondsDigits();
    DigitsAreEpochs(p, "1702992000", 1702992000);
  }

  lemma EpochMillisecondsExample(p: TimeParsers)
    requires WellFormed(p)
    ensures IdentifyDateFormat(p, "1702992000000") == EPOCH_MILLISECONDS
  {
    EpochMillisecondsDigits();
    DigitsAreEpochs(p, "1702992000000", 1702992000000);
  }

  lemma SqlExample(p: TimeParsers)
    requires WellFormed(p)
    ensures IdentifyDateFormat(p, "2024-01-15 15:00:00.0") == SQL_DATETIME
  {
    SqlShapeIsSqlDateTime(p, "2024-01-15 15:00:00.0");
  }

  /** "not a date" has a space, is no numeral and is not of the SQL shape. */
  lemma NotADateText(s: string)
    requires s == "not a date"
    ensures ' ' in s && Numeral(s).None? && !MatchesSqlDateTime(s)
  {
    assert ' ' in s by { assert s[3] == ' '; }
    assert Numeral(s).None? by {
      assert s[0] == 'n';
      NoNumeralByFirst(s);
    }
    assert !MatchesSqlDateTime(s) by { assert |s| != |SqlPattern|; }
  }

  lemma UnidentifiedExample(p: TimeParsers)
    requires WellFormed(p)
    requires !p.rfc1123("not a date")
    ensures IdentifyDateFormat(p, "not a date") == UNIDENTIFIED
  {
    NotADateText("not a date");
    SpacedTextFallsThrough(p, "not a date");
  }

  /** The test expectations for the java.time-recognised forms. */
  lemma IsoExamples(p: TimeParsers)
    requires p.isoDate("2024-01-18")
    requires !p.isoDate("2024-01-18T15:00:00") && p.isoLocalDateTime("2024-01-18T15:00:00")
    requires !p.isoDate("2024-01-18T15:00:00+01:00") && !p.isoLocalDateTime("2024-01-18T15:00:00+01:00")
    requires p.isoZonedDateTime("2024-01-18T15:00:00+01:00")
    requires !p.isoDate("2024-01-18T15:00:00Z") && !p.isoLocalDateTime("2024-01-18T15:00:00Z")
    requires p.isoZonedDateTime("2024-01-18T15:00:00Z")
    ensures IdentifyDateFormat(p, "2024-01-18") == ISO_DATE
    ensures IdentifyDateFormat(p, "2024-01-18T15:00:00") == ISO_DATETIME
    ensures IdentifyDateFormat(p, "2024-01-18T15:00:00+01:00") == ISO_DATETIME_TZ
    ensures IdentifyDateFormat(p, "2024-01-18T15:00:00Z") == ISO_DATETIME_UTC
  {
    var z := "2024-01-18T15:00:00Z";
    assert z[|z| - 1..] == "Z";
    var tz := "2024-01-18T15:00:00+01:00";
    assert tz[|tz| - 1] == '0';
  }

  /** A text opening with neither a digit nor a sign is no numeral. */
  lemma NoNumeralByFirst(s: string)
    requires |s| >= 1 && !IsDigit(s[0]) && s[0] != '-' && s[0] != '+'
    ensures Numeral(s).None?
  {
  }

  /** "Thu, 18 Jan 2024 15:00:00 GMT" has a space, is no numeral and is not of the SQL shape. */
  lemma RfcText(s: string)
    requires s == "Thu, 18 Jan 2024 15:00:00 GMT"
    ensures ' ' in s && Numeral(s).None? && !MatchesSqlDateTime(s)
  {
    assert ' ' in s by { assert s[4] == ' '; }
    assert Numeral(s).None? by {
      assert s[0] == 'T';
      NoNumeralByFirst(s);
    }
    assert !MatchesSqlDateTime(s) by { assert |s| != |SqlPattern|; }
  }

  lemma RfcExample(p: TimeParsers)
    requires WellFormed(p)
    requires p.rfc1123("Thu, 18 Jan 2024 15:00:00 GMT")
    ensures IdentifyDateFormat(p, "Thu, 18 Jan 2024 15:00:00 GMT") == RFC_1123
  {
    RfcText("Thu, 18 Jan 2024 15:00:00 GMT");
    SpacedTextFallsThrough(p, "Thu, 18 Jan 2024 15:00:00 GMT");
  }
}
