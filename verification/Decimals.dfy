/** Decimal text of numbers. */
module Decimals {
  import opened Options

  predicate IsDigit(c: char) { '0' <= c <= '9' }

  predicate AllDigits(text: string) { forall i :: 0 <= i < |text| ==> IsDigit(text[i]) }

  predicate Digits(text: string) { text != "" && AllDigits(text) }

  function ValueOf(text: string): nat
    requires AllDigits(text)
  {
    if text == "" then 0 else 10 * ValueOf(text[..|text| - 1]) + (text[|text| - 1] as int - '0' as int)
  }

  function DigitOf(n: nat): (c: char)
    requires n < 10
    ensures IsDigit(c) && c as int - '0' as int == n
  {
    ('0' as int + n) as char
  }

  /** `String(n)` for a whole number */
  function Print(n: nat): (text: string)
    ensures Digits(text)
    ensures ValueOf(text) == n
  {
    if n < 10 then
      var text := [DigitOf(n)];
      assert text[..0] == "";
      text
    else
      var text := Print(n / 10) + [DigitOf(n % 10)];
      assert text[..|text| - 1] == Print(n / 10);
      text
  }

  function PrintInt(n: int): string { if n < 0 then "-" + Print(-n) else Print(n) }

  /** The longest prefix of digits. */
  function LeadingDigits(text: string): (r: string)
    ensures AllDigits(r) && |r| <= |text| && r == text[..|r|]
    ensures |r| < |text| ==> !IsDigit(text[|r|])
  {
    if text == "" || !IsDigit(text[0]) then "" else [text[0]] + LeadingDigits(text[1..])
  }

  /** `Number.parseInt(text, 10)` after leading white space; `None` for NaN. */
  function ParseInt(text: string): Option<int> {
    if text != "" && text[0] in "+-" then
      var digits := LeadingDigits(text[1..]);
      if digits == "" then None else Some(if text[0] == '-' then 0 - ValueOf(digits) else ValueOf(digits))
    else
      var digits := LeadingDigits(text);
      if digits == "" then None else Some(ValueOf(digits))
  }

  /** Only zero itself is printed with a zero in front. */
  lemma {:induction false} PrintHasNoZero(n: nat)
    ensures Print(n)[0] != '0' || |Print(n)| == 1
    ensures n > 0 ==> Print(n)[0] != '0'
  {
    if n >= 10 { PrintHasNoZero(n / 10); }
  }

  /** Digits without such a zero are what is printed. */
  lemma {:induction false} PrintsParsed(text: string)
    requires Digits(text) && (text[0] != '0' || |text| == 1)
    ensures Print(ValueOf(text)) == text
  {
    var last := text[|text| - 1];
    if |text| == 1 {
      assert text[..0] == "";
      assert text == [last];
    } else {
      var front := text[..|text| - 1];
      PrintsParsed(front);
      PositiveFront(front);
      assert text == front + [last];
    }
  }

  lemma {:induction false} PositiveFront(text: string)
    requires Digits(text) && text[0] != '0'
    ensures ValueOf(text) > 0
  {
    if |text| > 1 { PositiveFront(text[..|text| - 1]); }
  }

  lemma {:induction false} AllDigitsLead(text: string, rest: string)
    requires AllDigits(text) && (rest != "" ==> !IsDigit(rest[0]))
    ensures LeadingDigits(text + rest) == text
  {
    if text == "" {
      assert text + rest == rest;
    } else {
      AllDigitsLead(text[1..], rest);
      assert (text + rest)[1..] == text[1..] + rest;
    }
  }

  lemma FirstIsDigit(text: string)
    requires Digits(text)
    ensures IsDigit(text[0])
  {
  }

  /** A printed number parses back to itself, whatever follows that is no digit. */
  lemma ParsesPrinted(n: int, rest: string)
    requires rest != "" ==> !IsDigit(rest[0])
    ensures ParseInt(PrintInt(n) + rest) == Some(n)
    ensures n >= 0 ==> ParseInt("+" + PrintInt(n) + rest) == Some(n)
  {
    hide Print, ValueOf, LeadingDigits, AllDigits;
    var text := Print(if n < 0 then -n else n);
    AllDigitsLead(text, rest);
    if n < 0 {
      assert ("-" + text + rest)[1..] == text + rest;
    } else {
      assert (text + rest)[0] == text[0];
      assert ("+" + text + rest)[1..] == text + rest;
      FirstIsDigit(text);
    }
  }

  /** Without a digit at its start, a sign aside, a text is no number. */
  lemma ParsesOnlyDigits(text: string)
    ensures ParseInt(text).Some? <==>
      text != "" && (IsDigit(text[0]) || (text[0] in "+-" && |text| > 1 && IsDigit(text[1])))
  {
  }
}
