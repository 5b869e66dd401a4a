/** Dates written the way both the backend and the browser show them,
    "6th July, 2025": the day in decimal, its ordinal suffix, the English
    month name, a comma and the year. This module holds what the two share:
    decimal numerals, month names, the English ordinal rule the suffixes are
    meant to follow, and a reader that recovers the date from its text. */
module Dates {
  import opened Values

  predicate IsDigit(c: char) {
    '0' <= c <= '9'
  }

  predicate AllDigits(s: string) {
    forall i :: 0 <= i < |s| ==> IsDigit(s[i])
  }

  function DigitChar(d: nat): char
    requires d < 10
  {
    '0' + d as char
  }

  function DigitValue(c: char): nat
    requires IsDigit(c)
  {
    (c - '0') as nat
  }

  /** The decimal numeral of `n`, as Python's `str` and a JavaScript template
      write a non-negative integer: no sign and no leading zeros. */
  function DecimalString(n: nat): (s: string)
    ensures |s| >= 1 && AllDigits(s)
    ensures s[0] == '0' ==> n == 0 && s == "0"
  {
    if n < 10 then [DigitChar(n)] else DecimalString(n / 10) + [DigitChar(n % 10)]
  }

  /** The value of a string of decimal digits. */
  function DigitsValue(s: string): nat
    requires AllDigits(s)
  {
    if s == [] then 0 else DigitsValue(s[..|s| - 1]) * 10 + DigitValue(s[|s| - 1])
  }

  lemma {:induction false} DecimalRoundTrip(n: nat)
    ensures DigitsValue(DecimalString(n)) == n
  {
    if n >= 10 {
      var s := DecimalString(n);
      assert s[..|s| - 1] == DecimalString(n / 10);
      DecimalRoundTrip(n / 10);
    }
  }

  /** Full English month names, `%B` in the C locale and `{ month: 'long' }`
      in the `en-US` locale. */
  const MonthNames: seq<string> := ["January", "February", "March", "April", "May", "June",
    "July", "August", "September", "October", "November", "December"]

  function MonthName(m: int): string
    requires 1 <= m <= 12
  {
    MonthNames[m - 1]
  }

  /** The month whose name is `name`, if any. */
  function MonthNumber(name: string): (r: Option<int>)
    ensures r.Some? ==> 1 <= r.value <= 12 && MonthName(r.value) == name
    ensures r.None? ==> forall m :: 1 <= m <= 12 ==> MonthName(m) != name
  {
    if name in MonthNames then
      var m :| 0 <= m < 12 && MonthNames[m] == name; Some(m + 1)
    else None
  }

  lemma MonthNameNumber(m: int)
    requires 1 <= m <= 12
    ensures MonthNumber(MonthName(m)) == Some(m)
  {
    var r := MonthNumber(MonthName(m));
    assert MonthNames[m - 1] in MonthNames;
  }

  /** The English rule: 11, 12 and 13 (also 111, 112, 113 ...) take "th";
      otherwise a last digit 1, 2 or 3 takes "st", "nd" or "rd"; anything
      else takes "th". */
  function EnglishOrdinalSuffix(n: nat): string {
    if 11 <= n % 100 <= 13 then "th"
    else if n % 10 == 1 then "st"
    else if n % 10 == 2 then "nd"
    else if n % 10 == 3 then "rd"
    else "th"
  }

  predicate IsLetter(c: char) {
    'a' <= c <= 'z' || 'A' <= c <= 'Z'
  }

  /** A suffix both formatters may produce: two letters. */
  predicate IsSuffix(s: string) {
    |s| == 2 && IsLetter(s[0]) && IsLetter(s[1])
  }

  /** `f"{day}{suffix} {month}, {year}"`. */
  function DateString(day: nat, suffix: string, month: int, year: nat): string
    requires 1 <= month <= 12
  {
    DecimalString(day) + suffix + " " + MonthName(month) + ", " + DecimalString(year)
  }

  /** Number of leading decimal digits of `s`. */
  function LeadingDigits(s: string): (k: nat)
    ensures k <= |s| && AllDigits(s[..k])
    ensures k < |s| ==> !IsDigit(s[k])
  {
    if s == [] || !IsDigit(s[0]) then 0 else 1 + LeadingDigits(s[1..])
  }

  /** Index of the first `c` in `s`, or `|s|` when there is none. */
  function IndexOf(s: string, c: char): (k: nat)
    ensures k <= |s| && (k < |s| ==> s[k] == c)
    ensures forall i :: 0 <= i < k ==> s[i] != c
  {
    if s == [] then 0 else if s[0] == c then 0 else 1 + IndexOf(s[1..], c)
  }

  /** Reads a date back: digits, a two-letter suffix, a space, then the
      month and year. Returns `(day, month, year)`. */
  function ParseDate(s: string): Option<(nat, int, nat)> {
    var i := LeadingDigits(s);
    if i == 0 || |s| < i + 3 || !IsSuffix(s[i..i + 2]) || s[i + 2] != ' ' then None
    else
      match ParseMonthYear(s[i + 3..])
      case None => None
      case Some((m, year)) => Some((DigitsValue(s[..i]), m, year))
  }

  /** Reads a month name, a comma and a space, then the year's digits to the
      end. */
  function ParseMonthYear(rest: string): Option<(int, nat)> {
    var j := IndexOf(rest, ',');
    if |rest| < j + 3 || rest[j + 1] != ' ' then None
    else
      var year := rest[j + 2..];
      match MonthNumber(rest[..j])
      case None => None
      case Some(m) => if AllDigits(year) then Some((m, DigitsValue(year))) else None
  }

  lemma LeadingDigitsOf(d: string, t: string)
    requires AllDigits(d)
    requires t == [] || !IsDigit(t[0])
    ensures LeadingDigits(d + t) == |d|
  {
    if d != [] {
      assert (d + t)[1..] == d[1..] + t;
      LeadingDigitsOf(d[1..], t);
    } else {
      assert d + t == t;
    }
  }

  lemma IndexOfNone(name: string, t: string)
    requires forall i :: 0 <= i < |name| ==> name[i] != ','
    requires t != [] && t[0] == ','
    ensures IndexOf(name + t, ',') == |name|
  {
    if name != [] {
      assert (name + t)[1..] == name[1..] + t;
      IndexOfNone(name[1..], t);
    } else {
      assert name + t == t;
    }
  }

  lemma MonthHasNoComma(m: int)
    requires 1 <= m <= 12
    ensures forall i :: 0 <= i < |MonthName(m)| ==> MonthName(m)[i] != ','
  {
  }

  /** The written date determines the day, month and year it was written
      from, whatever two-letter suffix was used. */
  lemma DateStringRoundTrip(day: nat, suffix: string, month: int, year: nat)
    requires 1 <= month <= 12 && IsSuffix(suffix)
    ensures ParseDate(DateString(day, suffix, month, year)) == Some((day, month, year))
  {
    var d := DecimalString(day);
    var rest := MonthName(month) + ", " + DecimalString(year);
    var s := DateString(day, suffix, month, year);
    Regroup(d, suffix, " ", MonthName(month), ", ", DecimalString(year));
    LeadingDigitsOf(d, suffix + " " + rest);
    assert s[..|d|] == d;
    assert s[|d|..|d| + 2] == suffix;
    assert s[|d| + 2] == ' ';
    assert s[|d| + 3..] == rest;
    MonthYearRoundTrip(month, year);
    DecimalRoundTrip(day);
  }

  /** The written date opens with the day's numeral, without leading zeros,
      followed directly by the suffix. */
  lemma DateStringShape(day: nat, suffix: string, month: int, year: nat)
    requires 1 <= month <= 12 && IsSuffix(suffix)
    ensures var r := DateString(day, suffix, month, year);
      var i := LeadingDigits(r);
      i + 2 <= |r| && r[..i] == DecimalString(day) && r[i..i + 2] == suffix
  {
    var d := DecimalString(day);
    var rest := MonthName(month) + ", " + DecimalString(year);
    var r := DateString(day, suffix, month, year);
    Regroup(d, suffix, " ", MonthName(month), ", ", DecimalString(year));
    assert r == d + (suffix + " " + rest);
    LeadingDigitsOf(d, suffix + " " + rest);
    assert r[..|d|] == d;
    assert r[|d|..|d| + 2] == suffix;
  }

  lemma Regroup(a: string, b: string, c: string, e: string, f: string, g: string)
    ensures a + b + c + e + f + g == a + (b + c + (e + f + g))
  {
  }

  lemma MonthYearRoundTrip(month: int, year: nat)
    requires 1 <= month <= 12
    ensures ParseMonthYear(MonthName(month) + ", " + DecimalString(year)) == Some((month, year))
  {
    var name := MonthName(month);
    var y := DecimalString(year);
    var rest := name + ", " + y;
    MonthHasNoComma(month);
    assert rest == name + (", " + y);
    IndexOfNone(name, ", " + y);
    assert rest[..|name|] == name;
    assert rest[|name| + 2..] == y;
    MonthNameNumber(month);
    DecimalRoundTrip(year);
  }

  /** Hence two calls that write the same text had the same date. */
  lemma DateStringInjective(d1: nat, s1: string, m1: int, y1: nat, d2: nat, s2: string, m2: int, y2: nat)
    requires 1 <= m1 <= 12 && IsSuffix(s1) && 1 <= m2 <= 12 && IsSuffix(s2)
    requires DateString(d1, s1, m1, y1) == DateString(d2, s2, m2, y2)
    ensures d1 == d2 && m1 == m2 && y1 == y2
  {
    DateStringRoundTrip(d1, s1, m1, y1);
    DateStringRoundTrip(d2, s2, m2, y2);
  }
}
