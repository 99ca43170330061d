/** IntegerTypeCaster: the saturating string-to-Integer cast. The value is
    first parsed as a long; anything above Integer.MAX_VALUE becomes
    Integer.MAX_VALUE, and the rest is parsed again as an int, so there is
    no saturation at the lower end. */
module IntegerTypeCaster {
  import opened Results
  import opened JavaNumbers
  import opened Text

  /** IntegerTypeCaster.safelyParseInteger, and cast, which only calls it. */
  function SafelyParseInteger(s: string): (r: Result<int>)
    ensures r.Ok? <==> ParseLong(s).Some? && ParseLong(s).value >= MIN_INT
    ensures r.Ok? ==> InInt(r.value)
    ensures r.Ok? ==> r.value == if ParseLong(s).value > MAX_INT then MAX_INT else ParseLong(s).value
    ensures r.Err? ==> r.error == NumberFormat(s)
  {
    match ParseLong(s)
    case None => Err(NumberFormat(s))
    case Some(v) =>
      if v > MAX_INT then Ok(MAX_INT)
      else match ParseInt(s)
        case None => Err(NumberFormat(s))
        case Some(i) => Ok(i)
  }

  /** A numeral within int range is returned exactly. */
  lemma ExactInRange(s: string)
    requires ParseInt(s).Some?
    ensures SafelyParseInteger(s) == Ok(ParseInt(s).value)
  {
  }

  /** A numeral above Integer.MAX_VALUE but within long range saturates. */
  lemma SaturatesAbove(s: string)
    requires ParseLong(s).Some? && ParseLong(s).value > MAX_INT
    ensures SafelyParseInteger(s) == Ok(MAX_INT)
  {
  }

  /** Below Integer.MIN_VALUE there is no clamp: Integer.valueOf fails. */
  lemma FailsBelow(s: string)
    requires ParseLong(s).Some? && ParseLong(s).value < MIN_INT
    ensures SafelyParseInteger(s) == Err(NumberFormat(s))
  {
  }

  /** A text Long.parseLong rejects is rejected. */
  lemma FailsUnparsable(s: string)
    requires ParseLong(s).None?
    ensures SafelyParseInteger(s) == Err(NumberFormat(s))
  {
  }

  /** The cast is monotone in the parsed value. */
  lemma Monotone(a: string, b: string)
    requires SafelyParseInteger(a).Ok? && SafelyParseInteger(b).Ok?
    requires ParseLong(a).value <= ParseLong(b).value
    ensures SafelyParseInteger(a).value <= SafelyParseInteger(b).value
  {
  }

  /** Casting the decimal text of any long v gives v clamped from above, or
      fails exactly when v is below Integer.MIN_VALUE. */
  lemma OfLongText(v: int)
    requires InLong(v)
    ensures v >= MIN_INT ==> SafelyParseInteger(IntToString(v)) == Ok(if v > MAX_INT then MAX_INT else v)
    ensures v < MIN_INT ==> SafelyParseInteger(IntToString(v)).Err?
  {
    ParseLongRoundTrip(v);
  }
}
