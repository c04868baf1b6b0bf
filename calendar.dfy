/**
 * Calendar dates as the search compares them: a year, a zero-based month
 * index and a day, ordered lexicographically. A listing's date is built from
 * its month NAME, and a criterion's date from a "YYYY-MM-DD" text.
 */
module Calendar {
  import opened Wrappers
  import opened Numbers
  import Sequences

  const MonthNames: seq<string> := [
    "January", "February", "March", "April", "May", "June",
    "July", "August", "September", "October", "November", "December"
  ]

  /** `getMonthIndex`: the position of a month name, or -1 for any other text. */
  function MonthIndex(name: string): (r: int)
    ensures -1 <= r < 12
    ensures r == -1 <==> name !in MonthNames
    ensures 0 <= r ==> MonthNames[r] == name
  {
    Sequences.IndexOf(MonthNames, name)
  }

  /** No two month names are the same: their first three letters differ. */
  lemma MonthNamesDistinct(j: nat, k: nat)
    requires j < k < 12
    ensures MonthNames[j] != MonthNames[k]
  {
    var a, b := MonthNames[j], MonthNames[k];
    assert a[0] != b[0] || a[1] != b[1] || a[2] != b[2];
  }

  /** Each of the twelve names maps back to its own position. */
  lemma MonthIndexOfName(i: nat)
    requires i < 12
    ensures MonthIndex(MonthNames[i]) == i
  {
    var r := MonthIndex(MonthNames[i]);
    if r < i {
      MonthNamesDistinct(r, i);
    }
  }

  /** `month` is a zero-based index; every constructed date has it in 0..11. */
  datatype Date = Date(year: int, month: int, day: int)

  /** The strict order `<` on dates, compared field by field. */
  predicate Before(a: Date, b: Date) {
    a.year < b.year ||
    (a.year == b.year && (a.month < b.month || (a.month == b.month && a.day < b.day)))
  }

  /** `a` is on or before `b`. */
  predicate OnOrBefore(a: Date, b: Date) {
    a == b || Before(a, b)
  }

  lemma BeforeIrreflexive(a: Date)
    ensures !Before(a, a)
  {
  }

  lemma BeforeTransitive(a: Date, b: Date, c: Date)
    requires Before(a, b) && Before(b, c)
    ensures Before(a, c)
  {
  }

  /** Dates are totally ordered: `a < b` exactly when `b <= a` fails. */
  lemma BeforeTotal(a: Date, b: Date)
    ensures Before(a, b) <==> !OnOrBefore(b, a)
  {
  }

  /** `new Date` reads a year 0..99 as 1900 onwards; any other year is taken as it is. */
  function FullYear(year: int): int {
    if 0 <= year <= 99 then 1900 + year else year
  }

  /**
   * `new Date(year, monthIndex, day)`: a month index outside 0..11 moves the
   * year, so index -1 (an unknown month name) means December of the year before.
   */
  function MakeDate(year: int, monthIndex: int, day: int): (d: Date)
    ensures 0 <= d.month < 12 && d.day == day
    ensures 12 * d.year + d.month == 12 * FullYear(year) + monthIndex
  {
    var y := FullYear(year);
    Date(y + monthIndex / 12, monthIndex % 12, day)
  }

  lemma MakeDateInRange(year: int, monthIndex: int, day: int)
    requires 0 <= monthIndex < 12
    ensures MakeDate(year, monthIndex, day) == Date(FullYear(year), monthIndex, day)
  {
  }

  lemma MakeDateUnknownMonth(year: int, day: int)
    ensures MakeDate(year, -1, day) == Date(FullYear(year) - 1, 11, day)
  {
  }

  /** A two-digit year is a year of the twentieth century; a year from 100 on is kept. */
  lemma MakeDateYears(year: int, monthIndex: int, day: int)
    requires 0 <= monthIndex < 12
    ensures 0 <= year <= 99 ==> MakeDate(year, monthIndex, day).year == 1900 + year
    ensures (year < 0 || 100 <= year) ==> MakeDate(year, monthIndex, day).year == year
  {
  }

  /**
   * The value of a date input, "YYYY-MM-DD", as a date; `None` (the source's
   * Invalid Date) for any other text.
   */
  function ParseIsoDate(s: string): (r: Option<Date>)
    ensures r.Some? ==> 0 <= r.value.year < 10000 && 0 <= r.value.month < 12
    ensures r.Some? ==> 1 <= r.value.day <= 31
  {
    if |s| == 10 && s[4] == '-' && s[7] == '-' &&
       AllDigits(s[..4]) && AllDigits(s[5..7]) && AllDigits(s[8..])
    then
      var y, m, d := DecimalValue(s[..4]), DecimalValue(s[5..7]), DecimalValue(s[8..]);
      if y < 10000 && 1 <= m <= 12 && 1 <= d <= 31 then Some(Date(y, m - 1, d)) else None
    else None
  }

  /** The "YYYY-MM-DD" text of a date with a four-digit year. */
  function ShowIsoDate(d: Date): (s: string)
    requires 0 <= d.year < 10000 && 0 <= d.month < 12 && 1 <= d.day <= 31
    ensures |s| == 10
  {
    PadDigits(d.year, 4) + "-" + PadDigits(d.month + 1, 2) + "-" + PadDigits(d.day, 2)
  }

  lemma FourDigitsValue(n: nat)
    requires n < 10000
    ensures DecimalValue(PadDigits(n, 4)) == n
  {
    assert Pow10(4) == 10000;
    PadDigitsValue(n, 4);
  }

  lemma TwoDigitsValue(n: nat)
    requires n < 100
    ensures DecimalValue(PadDigits(n, 2)) == n
  {
    assert Pow10(2) == 100;
    PadDigitsValue(n, 2);
  }

  /** Parsing the text of a date gives the date back. */
  lemma ParseShowIsoDate(d: Date)
    requires 0 <= d.year < 10000 && 0 <= d.month < 12 && 1 <= d.day <= 31
    ensures ParseIsoDate(ShowIsoDate(d)) == Some(d)
  {
    var y, m, dd := PadDigits(d.year, 4), PadDigits(d.month + 1, 2), PadDigits(d.day, 2);
    var s := ShowIsoDate(d);
    assert s == y + "-" + m + "-" + dd;
    assert s[..4] == y && s[5..7] == m && s[8..] == dd;
    FourDigitsValue(d.year);
    TwoDigitsValue(d.month + 1);
    TwoDigitsValue(d.day);
  }

  /** Every accepted text is the text of the date it denotes. */
  lemma ShowParseIsoDate(s: string)
    requires ParseIsoDate(s).Some?
    ensures ShowIsoDate(ParseIsoDate(s).value) == s
  {
    var d := ParseIsoDate(s).value;
    PadDigitsOfValue(s[..4]);
    PadDigitsOfValue(s[5..7]);
    PadDigitsOfValue(s[8..]);
    assert s == s[..4] + "-" + s[5..7] + "-" + s[8..];
  }

  /** A string of digits is the padded rendering of its own value. */
  lemma {:induction false} PadDigitsOfValue(s: string)
    requires AllDigits(s)
    ensures PadDigits(DecimalValue(s), |s|) == s
  {
    if s != [] {
      var init, last := s[..|s| - 1], s[|s| - 1];
      PadDigitsOfValue(init);
      var v := DecimalValue(s);
      var digit := last as int - '0' as int;
      assert v == 10 * DecimalValue(init) + digit;
      assert v / 10 == DecimalValue(init) && v % 10 == digit;
      assert DigitChar(digit) == last;
      assert s == init + [last];
    }
  }
}
