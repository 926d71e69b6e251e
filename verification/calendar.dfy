/** Calendar dates written "YYYY-MM-DD": parsing, the proleptic Gregorian
    day number (days since 1970-01-01), the weekday with Sunday as 0 (as
    `Date.prototype.getDay`), and the Monday that starts a date's week. */
module Calendar {

  predicate IsDigit(c: char) { '0' <= c <= '9' }

  function DigitValue(c: char): int
    requires IsDigit(c)
  {
    c as int - '0' as int
  }

  predicate IsLeapYear(y: int)
  {
    (y % 4 == 0 && y % 100 != 0) || y % 400 == 0
  }

  function DaysInMonth(y: int, m: int): int
    requires 1 <= m <= 12
  {
    if m == 2 then (if IsLeapYear(y) then 29 else 28)
    else if m == 4 || m == 6 || m == 9 || m == 11 then 30
    else 31
  }

  /** The shape "YYYY-MM-DD" with digits in the numeric places. */
  predicate WellFormed(s: string)
  {
    |s| == 10 && s[4] == '-' && s[7] == '-'
    && IsDigit(s[0]) && IsDigit(s[1]) && IsDigit(s[2]) && IsDigit(s[3])
    && IsDigit(s[5]) && IsDigit(s[6]) && IsDigit(s[8]) && IsDigit(s[9])
  }

  function Year(s: string): int
    requires WellFormed(s)
  {
    1000 * DigitValue(s[0]) + 100 * DigitValue(s[1]) + 10 * DigitValue(s[2]) + DigitValue(s[3])
  }

  function Month(s: string): int
    requires WellFormed(s)
  {
    10 * DigitValue(s[5]) + DigitValue(s[6])
  }

  function Day(s: string): int
    requires WellFormed(s)
  {
    10 * DigitValue(s[8]) + DigitValue(s[9])
  }

  /** A real calendar date in "YYYY-MM-DD" form. */
  predicate ValidDate(s: string)
  {
    WellFormed(s) && 1 <= Month(s) <= 12 && 1 <= Day(s) <= DaysInMonth(Year(s), Month(s))
  }

  /** Days from 1970-01-01 to the given civil date (H. Hinnant's
      days-from-civil; Dafny's `/` on a positive divisor floors, as needed). */
  function DaysFromCivil(y: int, m: int, d: int): int
    requires 1 <= m <= 12
  {
    var y' := if m <= 2 then y - 1 else y;
    var era := y' / 400;
    var yoe := y' - era * 400;
    var mp := if m > 2 then m - 3 else m + 9;
    var doy := (153 * mp + 2) / 5 + d - 1;
    var doe := yoe * 365 + yoe / 4 - yoe / 100 + doy;
    era * 146097 + doe - 719468
  }

  function DayNumber(s: string): int
    requires ValidDate(s)
  {
    DaysFromCivil(Year(s), Month(s), Day(s))
  }

  /** 0 = Sunday, 1 = Monday, ..., 6 = Saturday; day 0 was a Thursday. */
  function Weekday(n: int): (w: int)
    ensures 0 <= w < 7
  {
    (n + 4) % 7
  }

  /** The Monday on or before day `n`: a Sunday goes back six days, any
      other day back to the Monday of the same week. */
  function WeekStart(n: int): (k: int)
    ensures Weekday(k) == 1
    ensures k <= n <= k + 6
  {
    var wd := Weekday(n);
    if wd == 0 then n - 6 else n - wd + 1
  }

  /** A week is determined by any of its days: the Monday `k` is the start
      of the week of every day from `k` to `k + 6`. */
  lemma WeekStartUnique(n: int, k: int)
    requires Weekday(k) == 1 && k <= n <= k + 6
    ensures WeekStart(n) == k
  {
    var j := n - k;
    assert Weekday(n) == (j + 1) % 7 by {
      assert n + 4 == (k + 4) + j;
    }
    if j == 6 {
      assert Weekday(n) == 0;
    } else {
      assert Weekday(n) == j + 1;
    }
  }

  /** Two days share a week start iff they lie in the same Monday-to-Sunday
      week. */
  lemma SameWeek(a: int, b: int)
    ensures WeekStart(a) == WeekStart(b) <==> WeekStart(a) <= b <= WeekStart(a) + 6
  {
    if WeekStart(a) <= b <= WeekStart(a) + 6 {
      WeekStartUnique(b, WeekStart(a));
    }
  }

  lemma EpochIsThursday()
    ensures ValidDate("1970-01-01") && DayNumber("1970-01-01") == 0
    ensures Weekday(DayNumber("1970-01-01")) == 4
  {
    var s := "1970-01-01";
    assert WellFormed(s);
    assert Year(s) == 1970 && Month(s) == 1 && Day(s) == 1;
    assert DaysFromCivil(1970, 1, 1) == 0;
  }

  /** 2024-01-07 is a Sunday; its week began on Monday 2024-01-01. */
  lemma SundayBelongsToPreviousMonday()
    ensures ValidDate("2024-01-01") && ValidDate("2024-01-07")
    ensures Weekday(DayNumber("2024-01-01")) == 1
    ensures Weekday(DayNumber("2024-01-07")) == 0
    ensures WeekStart(DayNumber("2024-01-07")) == DayNumber("2024-01-01")
  {
    assert Year("2024-01-01") == 2024 && Month("2024-01-01") == 1;
    assert DayNumber("2024-01-01") == 19723;
    assert DayNumber("2024-01-07") == 19729;
    assert Weekday(19723) == 1;
    WeekStartUnique(19729, 19723);
  }
}
