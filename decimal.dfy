/** The decimal text of a Java long, as the data managers store the account
    value: String.valueOf(long) writes it and Long.parseLong reads it back. */
module Decimal {
  import opened Lists

  const LONG_MIN: int := -0x8000_0000_0000_0000
  const LONG_MAX: int := 0x7fff_ffff_ffff_ffff

  predicate IsLong(n: int)
  {
    LONG_MIN <= n <= LONG_MAX
  }

  predicate IsDigit(c: char)
  {
    '0' <= c <= '9'
  }

  predicate AllDigits(s: string)
  {
    forall i :: 0 <= i < |s| ==> IsDigit(s[i])
  }

  function DigitChar(d: nat): (c: char)
    requires d < 10
    ensures IsDigit(c) && c as int - '0' as int == d
  {
    ('0' as int + d) as char
  }

  /** The number a run of ASCII digits denotes, most significant first. */
  function DigitsValue(s: string): nat
    requires AllDigits(s)
  {
    if s == [] then 0
    else DigitsValue(s[..|s| - 1]) * 10 + (s[|s| - 1] as int - '0' as int)
  }

  /** The decimal digits of n with no leading zero. */
  function NatToString(n: nat): (s: string)
    ensures 1 <= |s| && AllDigits(s) && DigitsValue(s) == n
    ensures s[0] == '0' ==> n == 0
  {
    if n < 10 then [DigitChar(n)]
    else
      var front := NatToString(n / 10);
      var s := front + [DigitChar(n % 10)];
      assert s[..|s| - 1] == front;
      s
  }

  /** String.valueOf(long): a minus sign for negative values, then the
      digits of the magnitude. */
  function ValueOf(n: int): (s: string)
    ensures 1 <= |s|
    ensures s[0] == '-' <==> n < 0
    ensures n < 0 ==> AllDigits(s[1..]) && DigitsValue(s[1..]) == -n
    ensures 0 <= n ==> AllDigits(s) && DigitsValue(s) == n
  {
    if n < 0 then "-" + NatToString(-n) else NatToString(n)
  }

  /** Long.parseLong on ASCII text: an optional sign, then at least one
      digit, and a value in the range of a long; anything else is the
      NumberFormatException, here None. */
  function ParseLong(s: string): (r: Option<int>)
    ensures r.Some? ==> IsLong(r.value)
    ensures s == [] || s == "-" || s == "+" ==> r.None?
  {
    if s == [] then None
    else
      var digits := if s[0] == '-' || s[0] == '+' then s[1..] else s;
      if digits == [] || !AllDigits(digits) then None
      else
        var v: int := if s[0] == '-' then -(DigitsValue(digits) as int) else DigitsValue(digits);
        if IsLong(v) then Some(v) else None
  }

  /** Reading back what String.valueOf wrote gives the same long. */
  lemma ParseValueOf(n: int)
    requires IsLong(n)
    ensures ParseLong(ValueOf(n)) == Some(n)
  {
    var s := ValueOf(n);
    if n < 0 {
      assert s[1..] == NatToString(-n);
    } else {
      assert s == NatToString(n);
    }
  }

  /** A parsed value prints back as the text it came from, up to a leading
      plus sign and leading zeros. */
  lemma {:induction false} CanonicalDigitsRoundTrip(s: string)
    requires AllDigits(s) && 1 <= |s| && (s[0] == '0' ==> |s| == 1)
    ensures NatToString(DigitsValue(s)) == s
  {
    var n := DigitsValue(s);
    var front := s[..|s| - 1];
    var d := s[|s| - 1] as int - '0' as int;
    assert n == DigitsValue(front) * 10 + d;
    if |s| == 1 {
      assert front == [];
      assert [DigitChar(n)] == s;
    } else {
      CanonicalDigitsRoundTrip(front);
      PositiveLeadingDigit(front);
      assert n / 10 == DigitsValue(front) && n % 10 == d;
      assert s == front + [DigitChar(d)];
    }
  }

  /** The text String.valueOf writes: an optional minus sign, then digits
      with no leading zero, and no "-0". */
  predicate Canonical(s: string)
  {
    var digits := if s != [] && s[0] == '-' then s[1..] else s;
    && 1 <= |digits| && AllDigits(digits) && (digits[0] == '0' ==> |digits| == 1)
    && (s != [] && s[0] == '-' ==> digits != "0")
  }

  /** Text in String.valueOf's form that Long.parseLong accepts prints back
      as itself: the stored value entry survives a load and a save. */
  lemma ValueOfParse(s: string)
    requires Canonical(s) && ParseLong(s).Some?
    ensures ValueOf(ParseLong(s).value) == s
  {
    if s[0] == '-' {
      var digits := s[1..];
      CanonicalDigitsRoundTrip(digits);
      PositiveLeadingDigit(digits);
      assert s == "-" + digits;
    } else {
      CanonicalDigitsRoundTrip(s);
    }
  }

  lemma {:induction false} PositiveLeadingDigit(s: string)
    requires AllDigits(s) && 1 <= |s| && s[0] != '0'
    ensures DigitsValue(s) >= 1
  {
    if |s| > 1 {
      PositiveLeadingDigit(s[..|s| - 1]);
    }
  }
}
