/** Full-dates (section 5.6 of RFC 3339) as Go's "2006-01-02" layout reads and
    writes them, and why sorting their spellings sorts the days. */
module FullDate {
  import opened Common

  datatype Date = Date(year: int, month: int, day: int)

  predicate Leap(year: int) {
    year % 4 == 0 && (year % 100 != 0 || year % 400 == 0)
  }

  function DaysIn(month: int, year: int): int {
    if month == 2 then (if Leap(year) then 29 else 28)
    else if month in {4, 6, 9, 11} then 30
    else 31
  }

  /** A date of the calendar whose year takes four digits; Go accepts year 0. */
  predicate OnCalendar(d: Date) {
    0 <= d.year <= 9999 && 1 <= d.month <= 12 && 1 <= d.day <= DaysIn(d.month, d.year)
  }

  predicate Digits(s: string) {
    forall i :: 0 <= i < |s| ==> '0' <= s[i] <= '9'
  }

  function Number(s: string): int {
    if s == [] then 0 else 10 * Number(Front(s)) + (Last(s) as int - '0' as int)
  }

  function ParseDay(s: string): Option<Date> {
    if |s| != 10 || !Digits(s[..4]) || s[4] != '-' || !Digits(s[5..7]) || s[7] != '-' || !Digits(s[8..]) then None
    else
      var d := Date(Number(s[..4]), Number(s[5..7]), Number(s[8..]));
      if OnCalendar(d) then Some(d) else None
  }

  /** n in exactly width digits. */
  function Padded(n: int, width: nat): (s: string)
    requires 0 <= n
    ensures |s| == width && Digits(s)
  {
    if width == 0 then "" else Padded(n / 10, width - 1) + [('0' as int + n % 10) as char]
  }

  function FormatDay(d: Date): string
    requires OnCalendar(d)
  {
    Padded(d.year, 4) + "-" + Padded(d.month, 2) + "-" + Padded(d.day, 2)
  }

  // ---------- days counted one by one ----------

  function DaysBeforeYear(year: int): int {
    if year <= 0 then 0 else DaysBeforeYear(year - 1) + if Leap(year - 1) then 366 else 365
  }

  function DaysBeforeMonth(month: int, year: int): int {
    if month <= 1 then 0 else DaysBeforeMonth(month - 1, year) + DaysIn(month - 1, year)
  }

  /** How many days separate d from the first day of year 0. */
  function DayNumber(d: Date): int {
    DaysBeforeYear(d.year) + DaysBeforeMonth(d.month, d.year) + d.day - 1
  }

  lemma {:induction false} LaterMonth(m: int, n: int, year: int)
    requires 1 <= m < n
    ensures DaysBeforeMonth(m, year) + DaysIn(m, year) <= DaysBeforeMonth(n, year)
    decreases n
  {
    if m < n - 1 {
      LaterMonth(m, n - 1, year);
    }
  }

  lemma {:induction false} LaterYear(y: int, z: int)
    requires 0 <= y < z
    ensures DaysBeforeYear(y) + (if Leap(y) then 366 else 365) <= DaysBeforeYear(z)
    decreases z
  {
    if y < z - 1 {
      LaterYear(y, z - 1);
    }
  }

  lemma InsideTheYear(d: Date)
    requires OnCalendar(d)
    ensures 0 <= DaysBeforeMonth(d.month, d.year)
    ensures DaysBeforeMonth(d.month, d.year) + d.day <= if Leap(d.year) then 366 else 365
  {
    var y := d.year;
    assert DaysBeforeMonth(2, y) == 31;
    assert DaysBeforeMonth(3, y) == 31 + DaysIn(2, y);
    assert DaysBeforeMonth(5, y) == 92 + DaysIn(2, y);
    assert DaysBeforeMonth(7, y) == 153 + DaysIn(2, y);
    assert DaysBeforeMonth(9, y) == 215 + DaysIn(2, y);
    assert DaysBeforeMonth(11, y) == 276 + DaysIn(2, y);
    assert DaysBeforeMonth(13, y) == 337 + DaysIn(2, y);
    LaterMonth(d.month, 13, y);
    if 1 < d.month {
      LaterMonth(1, d.month, y);
    }
  }

  predicate Earlier(a: Date, b: Date) {
    a.year < b.year
    || (a.year == b.year && (a.month < b.month || (a.month == b.month && a.day < b.day)))
  }

  lemma EarlierCountsLess(a: Date, b: Date)
    requires OnCalendar(a) && OnCalendar(b) && Earlier(a, b)
    ensures DayNumber(a) < DayNumber(b)
  {
    InsideTheYear(a);
    InsideTheYear(b);
    if a.year < b.year {
      LaterYear(a.year, b.year);
    } else if a.month < b.month {
      LaterMonth(a.month, b.month, a.year);
    }
  }

  // ---------- the order of strings ----------

  predicate LexLess(a: string, b: string) {
    b != [] && (a == [] || a[0] < b[0] || (a[0] == b[0] && LexLess(a[1..], b[1..])))
  }

  lemma {:induction false} LexSplit(a: string, b: string, c: string, d: string)
    requires |a| == |c|
    ensures LexLess(a + b, c + d) <==> LexLess(a, c) || (a == c && LexLess(b, d))
  {
    if a == [] {
      assert a + b == b && c + d == d;
    } else {
      assert a == [a[0]] + a[1..] && c == [c[0]] + c[1..];
      assert (a + b)[1..] == a[1..] + b && (c + d)[1..] == c[1..] + d;
      LexSplit(a[1..], b, c[1..], d);
    }
  }

  lemma {:induction false} NumberOrder(a: string, b: string)
    requires |a| == |b| && Digits(a) && Digits(b)
    ensures LexLess(a, b) <==> Number(a) < Number(b)
    ensures a == b <==> Number(a) == Number(b)
    ensures 0 <= Number(a)
  {
    if a != [] {
      assert a == Front(a) + [Last(a)] && b == Front(b) + [Last(b)];
      NumberOrder(Front(a), Front(b));
      LexSplit(Front(a), [Last(a)], Front(b), [Last(b)]);
    }
  }

  lemma SpellingOrderIsFieldOrder(s: string, t: string)
    requires ParseDay(s).Some? && ParseDay(t).Some?
    ensures LexLess(s, t) <==> Earlier(ParseDay(s).value, ParseDay(t).value)
    ensures s == t <==> ParseDay(s) == ParseDay(t)
  {
    var y, m, d := s[..4], s[5..7], s[8..];
    var y', m', d' := t[..4], t[5..7], t[8..];
    NumberOrder(y, y');
    NumberOrder(m, m');
    NumberOrder(d, d');
    assert s == y + (['-'] + (m + (['-'] + d)));
    assert t == y' + (['-'] + (m' + (['-'] + d')));
    LexSplit(y, ['-'] + (m + (['-'] + d)), y', ['-'] + (m' + (['-'] + d')));
    LexSplit(['-'], m + (['-'] + d), ['-'], m' + (['-'] + d'));
    LexSplit(m, ['-'] + d, m', ['-'] + d');
    LexSplit(['-'], d, ['-'], d');
  }

  /** A lexical sort of spelled dates is a chronological one. */
  lemma SpellingOrderIsDayOrder(s: string, t: string)
    requires ParseDay(s).Some? && ParseDay(t).Some?
    ensures LexLess(s, t) <==> DayNumber(ParseDay(s).value) < DayNumber(ParseDay(t).value)
    ensures s == t <==> DayNumber(ParseDay(s).value) == DayNumber(ParseDay(t).value)
  {
    SpellingOrderIsFieldOrder(s, t);
    var a, b := ParseDay(s).value, ParseDay(t).value;
    if Earlier(a, b) {
      EarlierCountsLess(a, b);
    } else if Earlier(b, a) {
      EarlierCountsLess(b, a);
    }
  }

  // ---------- reading back what was written ----------

  lemma {:induction false} PaddedReadsBack(n: int, width: nat, bound: int)
    requires 0 <= n < bound && bound == Power(10, width)
    ensures Number(Padded(n, width)) == n
  {
    if width != 0 {
      PaddedReadsBack(n / 10, width - 1, bound / 10);
      assert Front(Padded(n, width)) == Padded(n / 10, width - 1);
    }
  }

  function Power(b: int, n: nat): int {
    if n == 0 then 1 else b * Power(b, n - 1)
  }

  /** Every date formats to a spelling that parses to that date. */
  lemma FormattedDayParses(d: Date)
    requires OnCalendar(d)
    ensures ParseDay(FormatDay(d)) == Some(d)
  {
    var s := FormatDay(d);
    assert s[..4] == Padded(d.year, 4) && s[5..7] == Padded(d.month, 2) && s[8..] == Padded(d.day, 2);
    assert Power(10, 2) == 100 && Power(10, 4) == 10 * (10 * Power(10, 2));
    PaddedReadsBack(d.year, 4, 10000);
    PaddedReadsBack(d.month, 2, 100);
    PaddedReadsBack(d.day, 2, 100);
  }

  lemma {:induction false} NumberPadsBack(s: string, width: nat)
    requires |s| == width && Digits(s)
    ensures 0 <= Number(s) && Padded(Number(s), width) == s
  {
    if width != 0 {
      NumberPadsBack(Front(s), width - 1);
      assert s == Front(s) + [Last(s)];
    }
  }

  /** And every string that parses is the spelling of its date. */
  lemma ParsedDayFormats(s: string)
    requires ParseDay(s).Some?
    ensures OnCalendar(ParseDay(s).value) && FormatDay(ParseDay(s).value) == s
  {
    NumberPadsBack(s[..4], 4);
    NumberPadsBack(s[5..7], 2);
    NumberPadsBack(s[8..], 2);
    assert s == s[..4] + "-" + s[5..7] + "-" + s[8..];
  }

  // ---------- the calendar ----------

  lemma Fours(year: int)
    requires year > 0
    ensures (year + 3) / 4 == (year + 2) / 4 + if (year - 1) % 4 == 0 then 1 else 0
  {
    var q, r := (year - 1) / 4, (year - 1) % 4;
    assert year - 1 == 4 * q + r;
    assert (year + 3) / 4 == q + 1;
    assert (year + 2) / 4 == if r == 0 then q else q + 1;
  }

  lemma Hundreds(year: int)
    requires year > 0
    ensures (year + 99) / 100 == (year + 98) / 100 + if (year - 1) % 100 == 0 then 1 else 0
  {
    var q, r := (year - 1) / 100, (year - 1) % 100;
    assert year - 1 == 100 * q + r;
    assert (year + 99) / 100 == q + 1;
    assert (year + 98) / 100 == if r == 0 then q else q + 1;
  }

  lemma FourHundreds(year: int)
    requires year > 0
    ensures (year + 399) / 400 == (year + 398) / 400 + if (year - 1) % 400 == 0 then 1 else 0
  {
    var q, r := (year - 1) / 400, (year - 1) % 400;
    assert year - 1 == 400 * q + r;
    assert (year + 399) / 400 == q + 1;
    assert (year + 398) / 400 == if r == 0 then q else q + 1;
  }

  lemma Multiples(k: int)
    ensures 100 * k % 100 == 0 && 4 * k % 4 == 0
  {
  }

  lemma FactorsNest(year: int)
    ensures year % 400 == 0 ==> year % 100 == 0
    ensures year % 100 == 0 ==> year % 4 == 0
  {
    if year % 400 == 0 {
      Multiples(4 * (year / 400));
      assert year == 100 * (4 * (year / 400));
    }
    if year % 100 == 0 {
      Multiples(25 * (year / 100));
      assert year == 4 * (25 * (year / 100));
    }
  }

  lemma LeapIsAlternating(year: int)
    ensures (if Leap(year) then 1 else 0) ==
            (if year % 4 == 0 then 1 else 0) - (if year % 100 == 0 then 1 else 0) + if year % 400 == 0 then 1 else 0
  {
    FactorsNest(year);
  }

  /** The years are Gregorian: 365 days, and one more every fourth year but for
      three centuries out of four. */
  lemma {:induction false} YearsAreGregorian(year: nat)
    ensures DaysBeforeYear(year) == 365 * year + (year + 3) / 4 - (year + 99) / 100 + (year + 399) / 400
  {
    if year > 0 {
      YearsAreGregorian(year - 1);
      Fours(year);
      Hundreds(year);
      FourHundreds(year);
      LeapIsAlternating(year - 1);
    }
  }

  /** So are the months: the days before each in a common year, and from March
      on one more in a leap year. */
  lemma MonthsAreGregorian(year: int, month: int)
    requires 1 <= month <= 12
    ensures DaysBeforeMonth(month, year) ==
            [0, 31, 59, 90, 120, 151, 181, 212, 243, 273, 304, 334][month - 1]
            + if month > 2 && Leap(year) then 1 else 0
    ensures DaysBeforeMonth(month, year) + DaysIn(month, year) <= if Leap(year) then 366 else 365
  {
    assert DaysBeforeMonth(2, year) == 31;
    assert DaysBeforeMonth(3, year) == 31 + DaysIn(2, year);
    assert DaysBeforeMonth(5, year) == 92 + DaysIn(2, year);
    assert DaysBeforeMonth(7, year) == 153 + DaysIn(2, year);
    assert DaysBeforeMonth(9, year) == 215 + DaysIn(2, year);
    assert DaysBeforeMonth(11, year) == 276 + DaysIn(2, year);
  }

  lemma {:induction false} YearOfDay(n: int, last: nat) returns (year: int)
    requires 0 <= n < DaysBeforeYear(last + 1)
    ensures 0 <= year <= last && DaysBeforeYear(year) <= n < DaysBeforeYear(year + 1)
  {
    if last == 0 || DaysBeforeYear(last) <= n {
      year := last;
    } else {
      year := YearOfDay(n, last - 1);
    }
  }

  lemma {:induction false} MonthOfDay(n: int, year: int, last: nat) returns (month: int)
    requires 1 <= last && 0 <= n < DaysBeforeMonth(last + 1, year)
    ensures 1 <= month <= last && DaysBeforeMonth(month, year) <= n < DaysBeforeMonth(month + 1, year)
  {
    if last == 1 || DaysBeforeMonth(last, year) <= n {
      month := last;
    } else {
      month := MonthOfDay(n, year, last - 1);
    }
  }

  lemma MonthsFillTheYear(year: int)
    ensures DaysBeforeMonth(13, year) == if Leap(year) then 366 else 365
  {
    MonthsAreGregorian(year, 12);
    assert DaysIn(12, year) == 31;
  }

  /** No day is missing: every day from the first of year 0 to the last of year
      9999 is the day of some date of the calendar. */
  lemma EveryDayHasADate(n: int)
    requires 0 <= n < DaysBeforeYear(10000)
    ensures exists d :: OnCalendar(d) && DayNumber(d) == n
  {
    var year := YearOfDay(n, 9999);
    MonthsFillTheYear(year);
    var month := MonthOfDay(n - DaysBeforeYear(year), year, 12);
    var d := Date(year, month, n - DaysBeforeYear(year) - DaysBeforeMonth(month, year) + 1);
    assert OnCalendar(d) && DayNumber(d) == n;
  }
}
