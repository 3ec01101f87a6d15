/** Decimal notation of natural numbers: `str(n)` for the position written
    to the report, and `int(text)` for the plain digit strings the threshold
    prompt accepts. */
module Decimal {
  import opened Options

  predicate IsDigit(c: char) {
    '0' <= c <= '9'
  }

  predicate AllDigits(s: string) {
    forall k :: 0 <= k < |s| ==> IsDigit(s[k])
  }

  function DigitChar(d: nat): (c: char)
    requires d < 10
    ensures IsDigit(c) && c as int - '0' as int == d
  {
    ('0' as int + d) as char
  }

  function DigitValue(c: char): (d: nat)
    requires IsDigit(c)
    ensures d < 10 && DigitChar(d) == c
  {
    c as int - '0' as int
  }

  /** `str(n)` for a non-negative integer: its digits, most significant
      first, without leading zeros. */
  function NatToString(n: nat): (s: string)
    ensures |s| > 0 && AllDigits(s)
    ensures s[0] == '0' ==> n == 0 && |s| == 1
    decreases n
  {
    if n < 10 then [DigitChar(n)] else NatToString(n / 10) + [DigitChar(n % 10)]
  }

  /** The number a string of digits denotes. */
  function DigitsValue(s: string): nat
    requires AllDigits(s)
    decreases |s|
  {
    if s == [] then 0 else DigitsValue(s[..|s| - 1]) * 10 + DigitValue(s[|s| - 1])
  }

  /** `int(s)` restricted to plain ASCII digit strings: the value, or
      nothing when the text is empty or holds another character. A string
      without leading zeros reads as the number `str` prints that way, and
      leading zeros do not change the value. */
  function ParseNat(s: string): (r: Option<nat>)
    ensures r.Some? <==> |s| > 0 && AllDigits(s)
    ensures r.Some? && (s[0] != '0' || |s| == 1) ==> NatToString(r.value) == s
    ensures r.Some? && |s| > 1 && s[0] == '0' ==> ParseNat(s[1..]) == r
  {
    if |s| > 0 && AllDigits(s) then
      if s[0] != '0' || |s| == 1 then
        NatToStringDigitsValue(s);
        Some(DigitsValue(s))
      else
        LeadingZeroIgnored(s[1..]);
        assert "0" + s[1..] == s;
        Some(DigitsValue(s))
    else None
  }

  /** A digit string whose first digit is not 0 denotes a positive number. */
  lemma {:induction false} LeadingDigitPositive(s: string)
    requires |s| > 0 && AllDigits(s) && s[0] != '0'
    ensures DigitsValue(s) > 0
    decreases |s|
  {
    var init := s[..|s| - 1];
    if |s| == 1 {
      assert init == [];
      assert DigitChar(0) == '0';
    } else {
      assert init[0] == s[0];
      LeadingDigitPositive(init);
    }
  }

  /** Printing the value of a digit string without leading zeros gives the
      string back. */
  lemma {:induction false} NatToStringDigitsValue(s: string)
    requires |s| > 0 && AllDigits(s) && (s[0] != '0' || |s| == 1)
    ensures NatToString(DigitsValue(s)) == s
    decreases |s|
  {
    var init := s[..|s| - 1];
    var last := s[|s| - 1];
    if |s| == 1 {
      assert init == [];
      assert s == [last];
    } else {
      assert init[0] == s[0];
      NatToStringDigitsValue(init);
      LeadingDigitPositive(init);
      var v := DigitsValue(s);
      assert v == DigitsValue(init) * 10 + DigitValue(last);
      assert v / 10 == DigitsValue(init) && v % 10 == DigitValue(last);
      assert s == init + [last];
    }
  }

  /** A leading zero does not change the value of a digit string. */
  lemma {:induction false} LeadingZeroIgnored(s: string)
    requires AllDigits(s)
    ensures AllDigits("0" + s) && DigitsValue("0" + s) == DigitsValue(s)
    decreases |s|
  {
    var z := "0" + s;
    if s == [] {
      assert z[..|z| - 1] == [];
    } else {
      assert z[..|z| - 1] == "0" + s[..|s| - 1];
      LeadingZeroIgnored(s[..|s| - 1]);
    }
  }

  /** Reading back a printed number gives the number. */
  lemma {:induction false} ParseNatToString(n: nat)
    ensures ParseNat(NatToString(n)) == Some(n)
    decreases n
  {
    var s := NatToString(n);
    if n < 10 {
      assert s == [DigitChar(n)];
      assert s[..|s| - 1] == [];
      assert DigitsValue(s) == DigitValue(s[0]);
    } else {
      ParseNatToString(n / 10);
      assert s[..|s| - 1] == NatToString(n / 10);
      assert DigitValue(s[|s| - 1]) == n % 10;
    }
  }

}
