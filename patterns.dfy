/** The two regular expressions the validators use, read as predicates on
    strings (JavaScript semantics: `\d` is `[0-9]`, `$` is end of input). */
module Patterns {
  import opened Text

  /** `/^\d{4}-(0[1-9]|1[0-2])$/`: a `YYYY-MM` month with MM in 01..12. */
  predicate IsMonthText(s: string)
  {
    && |s| == 7
    && AllDigits(s[..4])
    && s[4] == '-'
    && ((s[5] == '0' && '1' <= s[6] <= '9') || (s[5] == '1' && '0' <= s[6] <= '2'))
  }

  /** The year and month of a text the month pattern accepts. */
  function ParseMonthText(s: string): (r: (nat, nat))
    requires IsMonthText(s)
    ensures r.0 <= 9999 && 1 <= r.1 <= 12
  {
    var y := DigitValue(s[0]) * 1000 + DigitValue(s[1]) * 100 + DigitValue(s[2]) * 10 + DigitValue(s[3]);
    (y, DigitValue(s[5]) * 10 + DigitValue(s[6]))
  }

  /** The `YYYY-MM` text of a year 0..9999 and month 1..12. */
  function MonthText(year: nat, month: nat): string
    requires year <= 9999 && 1 <= month <= 12
  {
    [DigitChar(year / 1000), DigitChar(year / 100 % 10), DigitChar(year / 10 % 10), DigitChar(year % 10),
     '-', DigitChar(month / 10), DigitChar(month % 10)]
  }

  /** Every year 0..9999 and month 1..12 has a text the pattern accepts,
      and parsing it gives them back. */
  lemma MonthTextRoundTrip(year: nat, month: nat)
    requires year <= 9999 && 1 <= month <= 12
    ensures IsMonthText(MonthText(year, month))
    ensures ParseMonthText(MonthText(year, month)) == (year, month)
  {
    var s := MonthText(year, month);
    assert s[..4] == [s[0], s[1], s[2], s[3]];
    assert DigitValue(s[0]) == year / 1000 && DigitValue(s[1]) == year / 100 % 10;
    assert DigitValue(s[2]) == year / 10 % 10 && DigitValue(s[3]) == year % 10;
    assert DigitValue(s[5]) == month / 10 && DigitValue(s[6]) == month % 10;
    FourDigits(year);
  }

  lemma FourDigits(y: nat)
    requires y <= 9999
    ensures y == y / 1000 * 1000 + y / 100 % 10 * 100 + y / 10 % 10 * 10 + y % 10
  {
    var q1, q2, q3 := y / 10, y / 100, y / 1000;
    assert y == q1 * 10 + y % 10;
    assert q1 == q2 * 10 + q1 % 10 by { assert y == q2 * 100 + (q1 % 10) * 10 + y % 10; }
    assert q2 == q3 * 10 + q2 % 10;
  }

  /** Every text the pattern accepts is the text of its parsed year and month:
      the pattern accepts exactly the `MonthText`s. Any accepted text is
      seven characters long and its month part is 01..12, so "2026-00" and
      "2026-13" are refused. */
  lemma ParseMonthTextRoundTrip(s: string)
    requires IsMonthText(s)
    ensures MonthText(ParseMonthText(s).0, ParseMonthText(s).1) == s
  {
    assert s[..4] == [s[0], s[1], s[2], s[3]];
    assert IsDigit(s[0]) && IsDigit(s[1]) && IsDigit(s[2]) && IsDigit(s[3]);
    var a, b, c, d := DigitValue(s[0]), DigitValue(s[1]), DigitValue(s[2]), DigitValue(s[3]);
    var y := a * 1000 + b * 100 + c * 10 + d;
    assert y == ParseMonthText(s).0;
    YearDigits(a, b, c, d);
    var m := ParseMonthText(s).1;
    assert m / 10 == DigitValue(s[5]) && m % 10 == DigitValue(s[6]);
    var t := MonthText(y, m);
    assert t[0] == s[0] && t[1] == s[1] && t[2] == s[2] && t[3] == s[3];
    assert t[5] == s[5] && t[6] == s[6];
  }

  lemma YearDigits(a: nat, b: nat, c: nat, d: nat)
    requires a < 10 && b < 10 && c < 10 && d < 10
    ensures var y := a * 1000 + b * 100 + c * 10 + d;
      y / 1000 == a && y / 100 % 10 == b && y / 10 % 10 == c && y % 10 == d
  {
    var y := a * 1000 + b * 100 + c * 10 + d;
    assert 0 <= b * 100 + c * 10 + d < 1000;
    assert y / 1000 == a;
    assert y / 100 == a * 10 + b;
    assert (a * 10 + b) % 10 == b;
    assert y / 10 == a * 100 + b * 10 + c;
    assert (a * 100 + b * 10 + c) % 10 == c;
  }

  lemma MonthBoundaries()
    ensures !IsMonthText("2026-00") && !IsMonthText("2026-13")
    ensures IsMonthText("2026-01") && IsMonthText("2026-12")
  {
    assert "2026-01"[..4] == "2026" && "2026-12"[..4] == "2026";
  }

  /** JavaScript `\s`: the ECMAScript WhiteSpace and LineTerminator
      characters. */
  predicate IsJsSpace(c: char)
  {
    || c == '\t' || c == '\n' || c == '\U{000B}' || c == '\U{000C}' || c == '\r' || c == ' '
    || c == '\U{00A0}' || c == '\U{1680}' || ('\U{2000}' <= c <= '\U{200A}')
    || c == '\U{2028}' || c == '\U{2029}' || c == '\U{202F}' || c == '\U{205F}' || c == '\U{3000}'
    || c == '\U{FEFF}'
  }

  /** The character class `[\d\s\-()]`. */
  predicate IsPhoneChar(c: char)
  {
    IsDigit(c) || IsJsSpace(c) || c == '-' || c == '(' || c == ')'
  }

  predicate PhoneBody(s: string)
  {
    7 <= |s| <= 20 && forall i :: 0 <= i < |s| ==> IsPhoneChar(s[i])
  }

  /** `/^\+?[\d\s\-()]{7,20}$/`: the optional `+` is either taken or not. */
  predicate IsPhone(s: string)
  {
    PhoneBody(s) || (|s| >= 1 && s[0] == '+' && PhoneBody(s[1..]))
  }

  /** An accepted phone is 7 to 21 characters long, and a `+` can only be
      its first character. */
  lemma PhoneShape(s: string)
    requires IsPhone(s)
    ensures 7 <= |s| <= 21
    ensures forall i :: 0 < i < |s| ==> s[i] != '+'
  {
    if !PhoneBody(s) {
      assert forall i :: 0 < i < |s| ==> s[i] == s[1..][i - 1];
    }
  }

  /** The pattern read position by position: after an optional leading
      `+`, 7 to 20 characters remain, and each of them is in the class. A
      body that is accepted bare is also accepted with a `+` in front. */
  lemma PhoneCharacterization(s: string)
    ensures IsPhone(s) <==>
      var b := if s != [] && s[0] == '+' then 1 else 0;
      7 <= |s| - b <= 20 && forall i :: b <= i < |s| ==> IsPhoneChar(s[i])
    ensures PhoneBody(s) ==> IsPhone("+" + s)
  {
    if s != [] && s[0] == '+' {
      assert !IsPhoneChar(s[0]);
      assert forall i :: 1 <= i < |s| ==> s[i] == s[1..][i - 1];
    }
    assert ("+" + s)[1..] == s;
  }
}
