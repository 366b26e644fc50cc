/** Decimal numerals: the menu numbers the bot prints (`f"{i}"`) and the menu
    choices it reads back (`text.isdigit()` followed by `int(text)`). */
module Decimal {
  import opened Wrappers

  predicate IsDecimalDigit(c: char)
  {
    '0' <= c <= '9'
  }

  /** Characters for which Python's `str.isdigit()` holds: the decimal digits
      and, among the characters this model knows, the superscripts one to
      three (Unicode numeric type "Digit", which `int()` does not accept). */
  predicate IsPythonDigit(c: char)
  {
    IsDecimalDigit(c) || c == '\U{B2}' || c == '\U{B3}' || c == '\U{B9}'
  }

  predicate AllDecimal(s: string)
  {
    forall c | c in s :: IsDecimalDigit(c)
  }

  /** `str.isdigit()`: non-empty and every character a digit. */
  predicate IsDigitString(s: string)
  {
    s != [] && forall c | c in s :: IsPythonDigit(c)
  }

  function DigitValue(c: char): (d: nat)
    requires IsDecimalDigit(c)
    ensures d < 10
  {
    c as int - '0' as int
  }

  function DigitChar(d: nat): (c: char)
    requires d < 10
    ensures IsDecimalDigit(c) && DigitValue(c) == d
  {
    ('0' as int + d) as char
  }

  /** The value of a decimal numeral, leading zeros allowed. */
  function DecimalValue(s: string): (v: nat)
    requires AllDecimal(s)
    ensures v == 0 <==> forall k | 0 <= k < |s| :: s[k] == '0'
  {
    if s == [] then 0
    else DecimalValue(s[..|s| - 1]) * 10 + DigitValue(s[|s| - 1])
  }

  /** `str(n)` for a non-negative integer: no sign, no leading zero. */
  function NatToDecimal(n: nat): (r: string)
    ensures r != [] && AllDecimal(r)
    ensures |r| > 1 ==> r[0] != '0'
  {
    if n < 10 then [DigitChar(n)]
    else NatToDecimal(n / 10) + [DigitChar(n % 10)]
  }

  /** Printing a number and reading it back gives the number. */
  lemma {:induction false} DecimalRoundTrip(n: nat)
    ensures DecimalValue(NatToDecimal(n)) == n
  {
    if n >= 10 {
      var r := NatToDecimal(n);
      assert r[..|r| - 1] == NatToDecimal(n / 10);
      DecimalRoundTrip(n / 10);
    }
  }

  /** Leading zeros do not change the value. */
  lemma {:induction false} LeadingZeroIgnored(s: string)
    requires AllDecimal(s)
    ensures AllDecimal("0" + s) && DecimalValue("0" + s) == DecimalValue(s)
  {
    if s != [] {
      assert ("0" + s)[..|"0" + s| - 1] == "0" + s[..|s| - 1];
      LeadingZeroIgnored(s[..|s| - 1]);
    }
  }

  /** How a message reads as a menu choice. */
  datatype Choice = NotANumber | Number(value: nat)

  /** The bot's reading of a menu choice: a non-empty string of decimal digits
      is that number, anything else is not a number. */
  function ParseChoice(s: string): (r: Choice)
    ensures r.Number? <==> s != [] && AllDecimal(s)
  {
    if s != [] && AllDecimal(s) then Number(DecimalValue(s)) else NotANumber
  }

  /** Every number the bot prints is read back as that number. */
  lemma ParseChoiceRoundTrip(n: nat)
    ensures ParseChoice(NatToDecimal(n)) == Number(n)
  {
    DecimalRoundTrip(n);
  }

  /** `"007"` selects 7. */
  lemma ParseChoiceLeadingZeros()
    ensures ParseChoice("007") == Number(7)
  {
    assert "7"[..0] == "";
    assert DecimalValue("7") == 7;
    LeadingZeroIgnored("7");
    assert "0" + "7" == "07";
    LeadingZeroIgnored("07");
    assert "0" + "07" == "007";
  }

  /** CPython's default cap on the digits `int()` converts from a string
      (`sys.get_int_max_str_digits()`, Python 3.11 on): a longer numeral makes
      it raise `ValueError`. */
  const IntMaxStrDigits: nat := 4300

  /** The choice as the source computes it: `isdigit()` guards `int()`, and
      `None` stands for the `ValueError` that `int()` raises on a digit that is
      not decimal or on more than `IntMaxStrDigits` digits. */
  function ChoiceAsWritten(s: string): (r: Option<Choice>)
    ensures r == Some(NotANumber) <==> !IsDigitString(s)
    ensures r.Some? && r.value.Number? ==> |s| <= IntMaxStrDigits && r.value == ParseChoice(s)
  {
    if IsDigitString(s) then
      if AllDecimal(s) && |s| <= IntMaxStrDigits then Some(Number(DecimalValue(s))) else None
    else Some(NotANumber)
  }

  /** The superscript two passes the `isdigit()` guard and then makes `int()`
      raise. */
  lemma SuperscriptRaises()
    ensures IsDigitString("\U{B2}") && ChoiceAsWritten("\U{B2}") == None
  {
    assert "\U{B2}"[0] == '\U{B2}' && '\U{B2}' in "\U{B2}";
  }

  /** A numeral of 4301 ones passes `isdigit()` and is over `int()`'s digit
      cap, so the source raises; `ParseChoice` reads it as a number. */
  lemma LongNumeralRaises() returns (s: string)
    ensures |s| == IntMaxStrDigits + 1 && forall k | 0 <= k < |s| :: s[k] == '1'
    ensures IsDigitString(s) && ChoiceAsWritten(s) == None && ParseChoice(s).Number?
  {
    s := seq(IntMaxStrDigits + 1, _ => '1');
    assert forall c | c in s :: c == '1';
  }

  /** A numeral of ones is worth at least its length. */
  lemma {:induction false} OnesValue(s: string)
    requires forall k | 0 <= k < |s| :: s[k] == '1'
    ensures AllDecimal(s) && DecimalValue(s) >= |s|
  {
    assert forall c | c in s :: c == '1';
    if s != [] {
      OnesValue(s[..|s| - 1]);
    }
  }

  /** The source raises exactly on digit strings that are not all decimal or
      longer than `IntMaxStrDigits`; everywhere else `ParseChoice` agrees with
      it. */
  lemma ParseChoiceRefinesSource(s: string)
    ensures ChoiceAsWritten(s) == None <==> IsDigitString(s) && (!AllDecimal(s) || |s| > IntMaxStrDigits)
    ensures ChoiceAsWritten(s).Some? ==> ChoiceAsWritten(s).value == ParseChoice(s)
  {
  }
}
