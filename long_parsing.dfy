/**
 * `Long.parseLong` as a partial function: an optional sign, one or more
 * decimal digits, and a value inside the 64-bit range; anything else is
 * the `NumberFormatException` case, `None`.
 */
module LongParsing {
  import opened Domain

  const LongMin: int := -0x8000_0000_0000_0000
  const LongMax: int := 0x7FFF_FFFF_FFFF_FFFF

  predicate IsDigit(c: char) {
    '0' <= c <= '9'
  }

  predicate AllDigits(s: string) {
    forall i :: 0 <= i < |s| ==> IsDigit(s[i])
  }

  function DigitValue(c: char): (d: nat)
    requires IsDigit(c)
    ensures d < 10
  {
    c as int - '0' as int
  }

  function DigitChar(d: nat): (c: char)
    requires d < 10
    ensures IsDigit(c) && DigitValue(c) == d
  {
    ('0' as int + d) as char
  }

  /** The number a string of decimal digits denotes, most significant first. */
  function DigitsValue(s: string): nat
    requires AllDigits(s)
  {
    if |s| == 0 then 0 else DigitsValue(s[..|s| - 1]) * 10 + DigitValue(s[|s| - 1])
  }

  /** A string `parseLong` accepts: a sign or none, then at least one digit, and in range. */
  ghost predicate IsLongLiteral(s: string) {
    var body := if |s| > 0 && (s[0] == '-' || s[0] == '+') then s[1..] else s;
    && |body| > 0
    && AllDigits(body)
    && var m: int := DigitsValue(body);
       LongMin <= (if |s| > 0 && s[0] == '-' then -m else m) <= LongMax
  }

  function ParseLong(s: string): (r: Option<int>)
    ensures r.Some? <==> IsLongLiteral(s)
    ensures r.Some? ==> LongMin <= r.value <= LongMax
    ensures r.Some? && |s| > 0 && s[0] == '-' ==> r.value <= 0
    ensures r.Some? && (|s| == 0 || s[0] != '-') ==> r.value >= 0
  {
    var negative := |s| > 0 && s[0] == '-';
    var body := if |s| > 0 && (s[0] == '-' || s[0] == '+') then s[1..] else s;
    if |body| == 0 || !AllDigits(body) then None
    else
      var m: int := DigitsValue(body);
      var v := if negative then -m else m;
      if LongMin <= v <= LongMax then Some(v) else None
  }

  /** The decimal digits of `n`, without leading zeros. */
  function Digits(n: nat): (s: string)
    ensures |s| > 0 && AllDigits(s)
  {
    if n < 10 then [DigitChar(n)] else Digits(n / 10) + [DigitChar(n % 10)]
  }

  /** `Long.toString`: a minus sign for a negative value, never a plus sign. */
  function LongToString(n: int): string {
    if n < 0 then "-" + Digits(-n) else Digits(n)
  }

  lemma {:induction false} DigitsValueOfDigits(n: nat)
    ensures DigitsValue(Digits(n)) == n
  {
    if n >= 10 {
      var s := Digits(n);
      assert s[..|s| - 1] == Digits(n / 10);
      DigitsValueOfDigits(n / 10);
    }
  }

  /** Reading back the text of any 64-bit value gives the value. */
  lemma ParseLongOfLongToString(n: int)
    requires LongMin <= n <= LongMax
    ensures ParseLong(LongToString(n)) == Some(n)
  {
    var s := LongToString(n);
    if n < 0 {
      var d := Digits(-n);
      assert s == "-" + d && s[0] == '-';
      assert s[1..] == d;
      DigitsValueOfDigits(-n);
      assert DigitsValue(s[1..]) == -n;
    } else {
      var d := Digits(n);
      assert s == d && IsDigit(s[0]);
      DigitsValueOfDigits(n);
    }
  }

  /** A leading zero does not change the value of a digit string. */
  lemma {:induction false} LeadingZeroValue(t: string)
    requires AllDigits(t)
    ensures AllDigits("0" + t) && DigitsValue("0" + t) == DigitsValue(t)
  {
    var z := "0" + t;
    assert forall i :: 1 <= i < |z| ==> z[i] == t[i - 1];
    if |t| > 0 {
      var init := t[..|t| - 1];
      assert z[..|z| - 1] == "0" + init;
      assert z[|z| - 1] == t[|t| - 1];
      LeadingZeroValue(init);
    }
  }

  /**
   * The text forms `Long.toString` never writes read as the canonical one:
   * a leading plus sign and a leading zero, before or after a minus sign,
   * change nothing.
   */
  lemma ParseLongIgnoresPlusAndLeadingZeros(t: string)
    requires |t| > 0 && AllDigits(t)
    ensures ParseLong("+" + t) == ParseLong(t)
    ensures ParseLong("0" + t) == ParseLong(t)
    ensures ParseLong("-0" + t) == ParseLong("-" + t)
  {
    assert ("+" + t)[1..] == t;
    assert ("-" + t)[1..] == t;
    assert ("-0" + t)[1..] == "0" + t;
    assert IsDigit(t[0]);
    LeadingZeroValue(t);
  }

  /** The inputs the service's tests use. */
  lemma ParseLongExamples()
    ensures ParseLong("1") == Some(1)
    ensures ParseLong("99") == Some(99)
    ensures ParseLong("-7") == Some(-7)
    ensures ParseLong("+5") == Some(5)
    ensures ParseLong("invalid-id") == None
    ensures ParseLong("abc") == None
    ensures ParseLong("") == None
    ensures ParseLong("-") == None
    ensures ParseLong("10000000000000000000") == None
  {
    assert "1"[..0] == [];
    assert "99"[..1] == "9" && "9"[..0] == [];
    assert "-7"[1..] == "7" && "7"[..0] == [];
    assert "+5"[1..] == "5" && "5"[..0] == [];
    assert !IsDigit("invalid-id"[0]);
    assert !IsDigit("abc"[0]);
    var big := "10000000000000000000";
    assert AllDigits(big);
    DigitsValueLowerBound(big);
    Pow10Of19();
  }

  function Pow10(k: nat): (p: nat)
    ensures p >= 1
  {
    if k == 0 then 1 else 10 * Pow10(k - 1)
  }

  /** A digit string without a leading zero denotes at least 10^(length - 1). */
  lemma {:induction false} DigitsValueLowerBound(s: string)
    requires |s| > 0 && AllDigits(s) && s[0] != '0'
    ensures DigitsValue(s) >= Pow10(|s| - 1)
  {
    if |s| > 1 {
      var prefix := s[..|s| - 1];
      assert prefix[0] == s[0];
      DigitsValueLowerBound(prefix);
    }
  }

  lemma Pow10Of19()
    ensures Pow10(19) == 10000000000000000000
  {
    assert Pow10(1) == 10;
    assert Pow10(2) == 100;
    assert Pow10(3) == 1000;
    assert Pow10(4) == 10000;
    assert Pow10(5) == 100000;
    assert Pow10(6) == 1000000;
    assert Pow10(7) == 10000000;
    assert Pow10(8) == 100000000;
    assert Pow10(9) == 1000000000;
    assert Pow10(10) == 10000000000;
    assert Pow10(11) == 100000000000;
    assert Pow10(12) == 1000000000000;
    assert Pow10(13) == 10000000000000;
    assert Pow10(14) == 100000000000000;
    assert Pow10(15) == 1000000000000000;
    assert Pow10(16) == 10000000000000000;
    assert Pow10(17) == 100000000000000000;
    assert Pow10(18) == 1000000000000000000;
    assert Pow10(19) == 10000000000000000000;
  }
}
