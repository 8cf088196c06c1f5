/**
 * The civil calendar pinned to its origin: instant 0 falls on 1 January 1970, three in the morning in
 * Kuwait, and each day is followed by the next date of the Gregorian calendar.
 */
module GregorianDays {
  import opened Wrappers
  import opened DecimalText
  import opened KuwaitCalendar

  /** Thirty days hath September; February has one more in the years of four, not of a hundred, but of four hundred. */
  function LastOfMonth(y: int, m: int): int {
    if m == 2 then (if y % 400 == 0 || (y % 4 == 0 && y % 100 != 0) then 29 else 28)
    else if m == 4 || m == 6 || m == 9 || m == 11 then 30
    else 31
  }

  function NextDate(t: Date): Date {
    if t.d < LastOfMonth(t.y, t.m) then Date(t.y, t.m, t.d + 1)
    else if t.m < 12 then Date(t.y, t.m + 1, 1)
    else Date(t.y + 1, 1, 1)
  }

  lemma MonthLengths(y: int, m: nat)
    requires 1 <= m <= 12
    ensures DaysInMonth(y, m) == LastOfMonth(y, m) >= 28
  {
    FourHundreds(y);
  }

  lemma FourHundreds(y: int)
    ensures y % 400 == 0 ==> y % 4 == 0
  {
  }

  lemma WholeYear(y: int)
    ensures DaysBefore(12, Leap(y)) == DaysInYear(y) && DaysBefore(0, Leap(y)) == 0
  {
  }

  lemma NextIsOneLater(t: Date)
    requires ValidDate(t)
    ensures ValidDate(NextDate(t)) && DayOfDate(NextDate(t)) == DayOfDate(t) + 1
  {
    hide DayFromYear, Leap, DaysBefore, DayOfDate, LastOfMonth;
    var u := NextDate(t);
    MonthLengths(t.y, t.m);
    MonthLengths(u.y, u.m);
    InsideYear(t);
    InsideYear(u);
    NextYear(t.y);
    WholeYear(t.y);
    WholeYear(t.y + 1);
  }

  lemma EpochYear()
    ensures DayFromYear(1970) == 0
  {
  }

  lemma EpochDay()
    ensures DayOfDate(Date(1970, 1, 1)) == 0 && ValidDate(Date(1970, 1, 1))
  {
    hide DayFromYear, Leap, DaysBefore, DayOfDate, LastOfMonth;
    EpochYear();
    MonthLengths(1970, 1);
    WholeYear(1970);
    InsideYear(Date(1970, 1, 1));
  }

  /** Day 0 is 1 January 1970, and the day after a day has the next date: this fixes the date of every day. */
  lemma EveryDayHasItsDate(n: int)
    ensures Civil(0) == Date(1970, 1, 1)
    ensures Civil(n + 1) == NextDate(Civil(n))
  {
    hide DayFromYear, Leap, DaysBefore, DayOfDate, LastOfMonth, Civil, NextDate;
    EpochDay();
    CivilOfDay(Date(1970, 1, 1));
    NextIsOneLater(Civil(n));
    DayOfCivil(n);
    CivilOfDay(NextDate(Civil(n)));
  }

  /** Counting n days from 1 January 1970. */
  function DateAfter(n: nat): Date {
    if n == 0 then Date(1970, 1, 1) else NextDate(DateAfter(n - 1))
  }

  /** An instant n days and some hours after midnight of 1 January 1970 in Kuwait is on the n-th date counted from there. */
  lemma {:induction false} InstantHasItsDate(n: nat, sinceMidnight: nat)
    requires sinceMidnight < 86_400_000
    ensures Civil(n) == DateAfter(n)
    ensures ToKuwaitIsoDay(n * 86_400_000 + sinceMidnight - 10_800_000) == DateText(DateAfter(n))
  {
    hide Civil, NextDate, DateText;
    SinceMidnight(n, sinceMidnight);
    EveryDayHasItsDate(n - 1);
    if n > 0 { InstantHasItsDate(n - 1, 0); }
  }

  lemma SinceMidnight(n: nat, sinceMidnight: nat)
    requires sinceMidnight < 86_400_000
    ensures KuwaitDay(n * 86_400_000 + sinceMidnight - 10_800_000) == n
  {
  }

  /** The text of a date of a four-digit year: year, month and day in four, two and two digits. */
  lemma TextOfDate(t: Date)
    requires ValidDate(t) && 1000 <= t.y <= 9999
    ensures |DateText(t)| == 10 && DateText(t)[4] == DateText(t)[7] == '-'
    ensures AllDigits(DateText(t)[..4]) && ParseNat(DateText(t)[..4]) == t.y
    ensures AllDigits(DateText(t)[5..7]) && ParseNat(DateText(t)[5..7]) == t.m
    ensures AllDigits(DateText(t)[8..]) && ParseNat(DateText(t)[8..]) == t.d
  {
    hide DateText;
    ShapeOfText(t);
  }
}
