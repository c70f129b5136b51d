/** The text forms Java gives to the primitive values a result field can carry:
    `Boolean.toString` and `Long.toString`, together with a decimal parser that
    shows the long text loses nothing. */
module JavaText {
  import opened Wrappers

  /** The range of a Java `long`. */
  const LongMin: int := -0x8000_0000_0000_0000
  const LongMax: int := 0x7FFF_FFFF_FFFF_FFFF
  type Long = v: int | LongMin <= v <= LongMax

  /** `Boolean.toString(b)`. */
  function BoolText(b: bool): (s: string)
    ensures s == "true" || s == "false"
    ensures s == "true" <==> b
  {
    if b then "true" else "false"
  }

  predicate IsDigit(c: char) {
    '0' <= c <= '9'
  }

  predicate AllDigits(s: string) {
    forall k | 0 <= k < |s| :: IsDigit(s[k])
  }

  function DigitChar(d: nat): (c: char)
    requires d < 10
    ensures IsDigit(c)
    ensures c == '0' <==> d == 0
  {
    (48 + d) as char
  }

  function DigitOf(c: char): (d: nat)
    requires IsDigit(c)
    ensures d < 10
  {
    (c as int) - 48
  }

  /** The decimal digits of `n`, most significant first, with no leading zero. */
  function Digits(n: nat): (s: string)
    ensures |s| >= 1 && AllDigits(s)
    ensures s[0] == '0' ==> n == 0
    ensures n == 0 ==> s == "0"
  {
    if n < 10 then [DigitChar(n)] else Digits(n / 10) + [DigitChar(n % 10)]
  }

  /** `Long.toString(v)`: a minus sign for negative values, then the digits of |v|. */
  function LongText(v: Long): (s: string)
    ensures |s| >= 1
    ensures v < 0 <==> s[0] == '-'
    ensures v >= 0 ==> AllDigits(s)
    ensures v > 0 ==> s[0] != '0'
    ensures v == 0 ==> s == "0"
    ensures v < 0 ==> |s| >= 2 && AllDigits(s[1..]) && s[1] != '0'
  {
    if v < 0 then "-" + Digits(-(v as int)) else Digits(v)
  }

  /** The value of a string of decimal digits. */
  function DigitsValue(s: string): nat
    requires AllDigits(s)
  {
    if s == [] then 0 else DigitsValue(s[..|s| - 1]) * 10 + DigitOf(s[|s| - 1])
  }

  /** Reads back an optionally signed decimal numeral; `None` for anything else. */
  function ParseLong(s: string): (r: Option<int>)
    ensures r.Some? ==> |s| >= 1
  {
    if |s| >= 2 && s[0] == '-' && AllDigits(s[1..]) then Some(-(DigitsValue(s[1..]) as int))
    else if |s| >= 1 && AllDigits(s) then Some(DigitsValue(s))
    else None
  }

  lemma {:induction false} DigitsRoundTrip(n: nat)
    ensures DigitsValue(Digits(n)) == n
  {
    if n >= 10 {
      var s := Digits(n);
      assert s[..|s| - 1] == Digits(n / 10);
      DigitsRoundTrip(n / 10);
    }
  }

  /** Long text is a faithful encoding: parsing it gives the long back. */
  lemma LongTextRoundTrip(v: Long)
    ensures ParseLong(LongText(v)) == Some(v)
  {
    var s := LongText(v);
    if v < 0 {
      var digits := Digits(-(v as int));
      assert s == "-" + digits;
      assert s[1..] == digits;
      assert !AllDigits(s) by { assert !IsDigit(s[0]); }
      DigitsRoundTrip(-(v as int));
      assert ParseLong(s) == Some(-(DigitsValue(digits) as int));
    } else {
      DigitsRoundTrip(v);
      assert !(|s| >= 2 && s[0] == '-');
    }
  }

  /** Long text never collides with the boolean texts, the null marker or the empty text. */
  lemma LongTextIsNoMarker(v: Long)
    ensures LongText(v) != "true" && LongText(v) != "false"
    ensures LongText(v) != "NULL" && LongText(v) != ""
  {
    var s := LongText(v);
    if v < 0 {
      assert IsDigit(s[1..][0]);
    } else {
      assert IsDigit(s[0]);
    }
  }
}
