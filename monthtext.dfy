/**
 * The two renderings of a bucket month in app.py:110-111: the key
 * `strftime("%Y-%m")` ("2024-03"), compared by the SQL queries against
 * `strftime('%Y-%m', date)` of each stored row, and the label
 * `strftime("%b %Y")` ("Mar 2024") shown on the chart. Parsers for both
 * give their meaning back: the year and month they name.
 */
module MonthText {
  import opened Wrappers
  import opened Calendar

  predicate IsDigit(c: char) {
    '0' <= c <= '9'
  }

  predicate AllDigits(s: string) {
    forall i :: 0 <= i < |s| ==> IsDigit(s[i])
  }

  function Digit(n: int): (c: char)
    requires 0 <= n <= 9
    ensures IsDigit(c)
  {
    (('0' as int) + n) as char
  }

  /** The value of a string of decimal digits. */
  function Number(s: string): nat
    requires AllDigits(s)
  {
    if s == [] then 0 else Number(s[..|s| - 1]) * 10 + (s[|s| - 1] as int - '0' as int)
  }

  /** `%Y`: the year in four digits, zero-padded (as SQLite writes it). */
  function Year4(y: int): (s: string)
    requires 0 <= y <= 9999
    ensures |s| == 4 && AllDigits(s)
  {
    [Digit(y / 1000), Digit(y / 100 % 10), Digit(y / 10 % 10), Digit(y % 10)]
  }

  /** `%m`: the month in two digits. */
  function Month2(m: int): (s: string)
    requires 1 <= m <= 12
    ensures |s| == 2 && AllDigits(s)
  {
    [Digit(m / 10), Digit(m % 10)]
  }

  /** `%b` in the C locale. */
  const MonthAbbreviations: seq<string> :=
    ["Jan", "Feb", "Mar", "Apr", "May", "Jun", "Jul", "Aug", "Sep", "Oct", "Nov", "Dec"]

  /** `month.strftime("%Y-%m")` (app.py:110); for a valid date also SQLite's `strftime('%Y-%m', date)`. */
  function MonthKey(d: CalDate): (s: string)
    ensures |s| == 7
  {
    Year4(d.year) + "-" + Month2(d.month)
  }

  /** `month.strftime("%b %Y")` (app.py:111). */
  function MonthLabel(d: CalDate): (s: string)
    ensures |s| == 8
  {
    MonthAbbreviations[d.month - 1] + " " + Year4(d.year)
  }

  /** The month number (1..12) whose abbreviation is `s`. */
  function MonthOfAbbreviation(s: string): (r: Option<int>)
    ensures r.Some? ==> 1 <= r.value <= 12 && MonthAbbreviations[r.value - 1] == s
    ensures r.None? ==> forall k :: 0 <= k < 12 ==> MonthAbbreviations[k] != s
  {
    FindAbbreviation(s, 1)
  }

  function FindAbbreviation(s: string, m: int): (r: Option<int>)
    requires 1 <= m <= 13
    ensures r.Some? ==> m <= r.value <= 12 && MonthAbbreviations[r.value - 1] == s
    ensures r.None? ==> forall k :: m - 1 <= k < 12 ==> MonthAbbreviations[k] != s
    decreases 13 - m
  {
    if m == 13 then None
    else if MonthAbbreviations[m - 1] == s then Some(m)
    else FindAbbreviation(s, m + 1)
  }

  /** Reads a "YYYY-MM" key back as (year, month). */
  function ParseMonthKey(s: string): Option<(int, int)> {
    if |s| == 7 && s[4] == '-' && AllDigits(s[..4]) && AllDigits(s[5..]) then
      Some((Number(s[..4]), Number(s[5..])))
    else
      None
  }

  /** Reads a "Mon YYYY" label back as (year, month). */
  function ParseMonthLabel(s: string): Option<(int, int)> {
    if |s| == 8 && s[3] == ' ' && AllDigits(s[4..]) then
      match MonthOfAbbreviation(s[..3])
      case Some(m) => Some((Number(s[4..]), m))
      case None => None
    else
      None
  }

  /** The value of a digit string is that of its prefix, times ten, plus its last digit. */
  lemma NumberLast(s: string, k: nat)
    requires AllDigits(s) && 1 <= k <= |s|
    ensures AllDigits(s[..k]) && AllDigits(s[..k - 1])
    ensures Number(s[..k]) == Number(s[..k - 1]) * 10 + (s[k - 1] as int - '0' as int)
  {
    assert s[..k][..k - 1] == s[..k - 1];
  }

  lemma Year4Value(y: int)
    requires 0 <= y <= 9999
    ensures Number(Year4(y)) == y
  {
    var s := Year4(y);
    var a, b, c, d := y / 1000, y / 100 % 10, y / 10 % 10, y % 10;
    assert s[..0] == [];
    NumberLast(s, 1);
    NumberLast(s, 2);
    NumberLast(s, 3);
    NumberLast(s, 4);
    assert s[..4] == s;
    assert y / 10 == y / 100 * 10 + c;
    assert y / 100 == a * 10 + b;
  }

  lemma Month2Value(m: int)
    requires 1 <= m <= 12
    ensures Number(Month2(m)) == m
  {
    var s := Month2(m);
    assert s[..0] == [];
    NumberLast(s, 1);
    NumberLast(s, 2);
    assert s[..2] == s;
  }

  /** The key names the year and month of the date it was made from. */
  lemma MonthKeyRoundTrip(d: CalDate)
    ensures ParseMonthKey(MonthKey(d)) == Some((d.year, d.month))
  {
    var s := MonthKey(d);
    assert s[..4] == Year4(d.year);
    assert s[5..] == Month2(d.month);
    Year4Value(d.year);
    Month2Value(d.month);
  }

  /** The label names the same year and month as the key made from the same date. */
  lemma MonthLabelRoundTrip(d: CalDate)
    ensures ParseMonthLabel(MonthLabel(d)) == Some((d.year, d.month))
    ensures ParseMonthLabel(MonthLabel(d)) == ParseMonthKey(MonthKey(d))
  {
    var s := MonthLabel(d);
    assert s[..3] == MonthAbbreviations[d.month - 1];
    assert s[4..] == Year4(d.year);
    Year4Value(d.year);
    MonthKeyRoundTrip(d);
  }

  /** Two dates have the same key exactly when they are in the same month of the same year. */
  lemma MonthKeyInjective(a: CalDate, b: CalDate)
    ensures MonthKey(a) == MonthKey(b) <==> a.year == b.year && a.month == b.month
  {
    MonthKeyRoundTrip(a);
    MonthKeyRoundTrip(b);
  }
}
