/** String helpers the services use through JavaScript and Postgres:
    digit rendering, `split(c)[0]`, `contains` with and without case
    folding. */
module Text {

  predicate IsDigit(c: char)
  {
    '0' <= c <= '9'
  }

  predicate AllDigits(s: string)
  {
    forall i :: 0 <= i < |s| ==> IsDigit(s[i])
  }

  function DigitChar(d: nat): (c: char)
    requires d < 10
    ensures IsDigit(c) && c as int == '0' as int + d
  {
    ('0' as int + d) as char
  }

  function DigitValue(c: char): (d: nat)
    requires IsDigit(c)
    ensures d < 10 && DigitChar(d) == c
  {
    (c as int) - ('0' as int)
  }

  /** The decimal digits of `n`, left-padded with zeros to at least `width`
      characters (`String(n).padStart(width, '0')`). */
  function Padded(n: nat, width: nat): (s: string)
    ensures AllDigits(s)
    ensures |s| >= width && |s| >= 1
    decreases width + n
  {
    if n < 10 && width <= 1 then [DigitChar(n)]
    else Padded(n / 10, if width == 0 then 0 else width - 1) + [DigitChar(n % 10)]
  }

  /** The prefix of `s` before the first `c`: `s.split(c)[0]`. */
  function Before(s: string, c: char): (r: string)
    ensures r <= s
    ensures c !in r
    ensures |r| < |s| ==> s[|r|] == c
  {
    if s == [] || s[0] == c then [] else [s[0]] + Before(s[1..], c)
  }

  /** `t` occurs in `s` as a contiguous substring. */
  predicate Contains(s: string, t: string)
  {
    exists i :: 0 <= i <= |s| - |t| && OccursAt(s, t, i)
  }

  predicate OccursAt(s: string, t: string, i: int)
  {
    0 <= i <= |s| - |t| && s[i..i + |t|] == t
  }

  /** Lower-casing of the upper-case ASCII and basic Cyrillic letters (the
      alphabets the client records are written in); every other character
      is kept. */
  function LowerChar(c: char): char
  {
    if 'A' <= c <= 'Z' then ((c as int) + 32) as char
    else if 'А' <= c <= 'Я' then ((c as int) + 32) as char
    else if c == 'Ё' then 'ё'
    else c
  }

  function Lower(s: string): (r: string)
    ensures |r| == |s|
    ensures forall i :: 0 <= i < |s| ==> r[i] == LowerChar(s[i])
  {
    seq(|s|, i requires 0 <= i < |s| => LowerChar(s[i]))
  }

  /** Postgres `ILIKE '%t%'`: `t` occurs in `s` ignoring case. */
  predicate ContainsInsensitive(s: string, t: string)
  {
    Contains(Lower(s), Lower(t))
  }
}
