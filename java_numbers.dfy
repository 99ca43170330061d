/** Java's decimal integer parsing (Long.parseLong, Integer.parseInt,
    Short.parseShort, Byte.parseByte) on ASCII digits, and the fixed-width
    ranges the filter compiler checks against. */
module JavaNumbers {
  import opened Text
  import opened Results

  const MIN_LONG: int := -0x8000_0000_0000_0000
  const MAX_LONG: int := 0x7FFF_FFFF_FFFF_FFFF
  const MIN_INT: int := -0x8000_0000
  const MAX_INT: int := 0x7FFF_FFFF
  const MIN_SHORT: int := -0x8000
  const MAX_SHORT: int := 0x7FFF
  const MIN_BYTE: int := -0x80
  const MAX_BYTE: int := 0x7F

  predicate InLong(v: int) { MIN_LONG <= v <= MAX_LONG }
  predicate InInt(v: int) { MIN_INT <= v <= MAX_INT }

  predicate AllDigits(s: string) {
    forall i :: 0 <= i < |s| ==> IsDigit(s[i])
  }

  /** The value of a string of decimal digits, most significant first. */
  function DigitsValue(s: string): (v: nat)
    requires AllDigits(s)
    decreases |s|
  {
    if |s| == 0 then 0
    else DigitsValue(s[..|s| - 1]) * 10 + (s[|s| - 1] as int - '0' as int)
  }

  function Negate(n: int): int { -n }

  /** The unbounded value of an optional sign followed by at least one digit;
      None for anything else (empty text, a lone sign, any other character). */
  function Numeral(s: string): (r: Option<int>)
    ensures r.Some? <==>
      ((|s| >= 1 && AllDigits(s)) || (|s| >= 2 && (s[0] == '-' || s[0] == '+') && AllDigits(s[1..])))
  {
    if |s| >= 1 && AllDigits(s) then Some(DigitsValue(s))
    else if |s| >= 2 && s[0] == '-' && AllDigits(s[1..]) then Some(Negate(DigitsValue(s[1..])))
    else if |s| >= 2 && s[0] == '+' && AllDigits(s[1..]) then Some(DigitsValue(s[1..]))
    else None
  }

  /** A numeral whose value lies in [lo, hi]; NumberFormatException otherwise. */
  function ParseRange(s: string, lo: int, hi: int): (r: Option<int>)
    ensures r.Some? <==> Numeral(s).Some? && lo <= Numeral(s).value <= hi
    ensures r.Some? ==> r.value == Numeral(s).value
  {
    match Numeral(s)
    case None => None
    case Some(v) => if lo <= v <= hi then Some(v) else None
  }

  /** Long.parseLong */
  function ParseLong(s: string): Option<int> { ParseRange(s, MIN_LONG, MAX_LONG) }

  /** Integer.parseInt / Integer.valueOf(String) */
  function ParseInt(s: string): Option<int> { ParseRange(s, MIN_INT, MAX_INT) }

  /** Short.parseShort */
  function ParseShort(s: string): Option<int> { ParseRange(s, MIN_SHORT, MAX_SHORT) }

  /** Byte.parseByte */
  function ParseByte(s: string): Option<int> { ParseRange(s, MIN_BYTE, MAX_BYTE) }

  lemma {:induction false} NatToStringDigits(n: nat)
    ensures AllDigits(NatToString(n))
    ensures DigitsValue(NatToString(n)) == n
    decreases n
  {
    if n >= 10 {
      NatToStringDigits(n / 10);
      var s := NatToString(n);
      assert s[..|s| - 1] == NatToString(n / 10);
      assert s[|s| - 1] == DigitChar(n % 10);
    }
  }

  /** Parsing the decimal text of a number gives the number back: the
      numerals printed by toString are exactly the ones parse accepts. */
  lemma NumeralOfIntToString(v: int)
    ensures Numeral(IntToString(v)) == Some(v)
  {
    if v < 0 {
      var d := NatToString(-v);
      NatToStringDigits(-v);
      var s := "-" + d;
      assert s[1..] == d && s[0] == '-' && |s| >= 2;
      assert !AllDigits(s) by { assert !IsDigit(s[0]); }
      assert DigitsValue(s[1..]) == -v;
    } else {
      NatToStringDigits(v);
    }
  }

  /** Long.parseLong(Long.toString(v)) == v for every long. */
  lemma ParseLongRoundTrip(v: int)
    requires InLong(v)
    ensures ParseLong(IntToString(v)) == Some(v)
  {
    NumeralOfIntToString(v);
  }

  /** Integer.parseInt(Integer.toString(v)) == v for every int. */
  lemma ParseIntRoundTrip(v: int)
    requires InInt(v)
    ensures ParseInt(IntToString(v)) == Some(v)
  {
    NumeralOfIntToString(v);
  }

  function Pow10(k: nat): (r: nat)
    ensures r >= 1
  {
    if k == 0 then 1 else 10 * Pow10(k - 1)
  }

  /** NatToString(n) has at most k digits exactly when n < 10^k. */
  lemma {:induction false} NatToStringLength(n: nat, k: nat)
    requires k >= 1
    ensures |NatToString(n)| <= k <==> n < Pow10(k)
    decreases n
  {
    if n >= 10 {
      if k == 1 {
        assert |NatToString(n)| >= 2 by { assert |NatToString(n / 10)| >= 1; }
      } else {
        NatToStringLength(n / 10, k - 1);
      }
    }
  }

  /** Appending one digit to a numeral multiplies its value by ten and adds
      the digit. */
  lemma DigitsSnoc(s: string, c: char, t: string)
    requires AllDigits(s) && IsDigit(c) && t == s + [c]
    ensures AllDigits(t) && DigitsValue(t) == DigitsValue(s) * 10 + (c as int - '0' as int)
  {
    assert t[..|s|] == s;
  }

  /** Two's-complement wrap-around of a 64-bit long result. */
  function WrapLong(v: int): (r: int)
    ensures InLong(r)
    ensures InLong(v) ==> r == v
    ensures MAX_LONG < v <= MAX_LONG - MIN_LONG ==> r == v + 2 * MIN_LONG
  {
    (v - MIN_LONG) % 0x1_0000_0000_0000_0000 + MIN_LONG
  }

  /** Two's-complement wrap-around of a 32-bit int result. */
  function WrapInt(v: int): (r: int)
    ensures InInt(r)
    ensures InInt(v) ==> r == v
    ensures MAX_INT < v <= MAX_INT - MIN_INT ==> r == v + 2 * MIN_INT
  {
    (v - MIN_INT) % 0x1_0000_0000 + MIN_INT
  }
}
