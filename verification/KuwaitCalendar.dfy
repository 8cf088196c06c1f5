/**
 * The civil calendar behind Date.UTC and the UTC getters (section 21.4.1 of ECMA-262), and the
 * Kuwait day helpers built on it. An instant is a number of milliseconds; Kuwait is three hours
 * ahead of UTC all year.
 */
module KuwaitCalendar {
  import opened Wrappers
  import opened DecimalText
  import opened Whitespace

  const MS_PER_DAY := 86400000
  const KUWAIT_OFFSET_MS := 3 * 60 * 60 * 1000

  // ---- civil days

  predicate Leap(y: int) {
    y % 4 == 0 && (y % 100 != 0 || y % 400 == 0)
  }

  function DaysInYear(y: int): int {
    if Leap(y) then 366 else 365
  }

  /** The day number of 1 January of year y. */
  function DayFromYear(y: int): int {
    365 * (y - 1970) + (y - 1969) / 4 - (y - 1901) / 100 + (y - 1601) / 400
  }

  /** Days of the year before the first of month m, counted from 0. */
  function DaysBefore(m: nat, leap: bool): nat
    requires m <= 12
  {
    [0, 31, 59, 90, 120, 151, 181, 212, 243, 273, 304, 334, 365][m] + if leap && m >= 2 then 1 else 0
  }

  function DaysInMonth(y: int, m: nat): nat
    requires 1 <= m <= 12
  {
    DaysBefore(m, Leap(y)) - DaysBefore(m - 1, Leap(y))
  }

  /** Months and days outside their range carry over. */
  function MakeDay(y: int, month0: int, date: int): int {
    var ym := y + month0 / 12;
    DayFromYear(ym) + DaysBefore(month0 % 12, Leap(ym)) + date - 1
  }

  lemma NextYear(y: int)
    ensures DayFromYear(y + 1) == DayFromYear(y) + DaysInYear(y)
  {
    Multiples4(y - 1968);
    Multiples100(y - 1900);
    Multiples400(y - 1600);
    Remainder4(y);
    Remainder100(y);
    Remainder400(y);
    LeapByRemainders(y);
  }

  lemma Multiples4(x: int)
    ensures x / 4 == (x - 1) / 4 + if x % 4 == 0 then 1 else 0
  {
  }

  lemma Multiples100(x: int)
    ensures x / 100 == (x - 1) / 100 + if x % 100 == 0 then 1 else 0
  {
  }

  lemma Multiples400(x: int)
    ensures x / 400 == (x - 1) / 400 + if x % 400 == 0 then 1 else 0
  {
  }

  lemma Remainder4(y: int)
    ensures (y - 1968) % 4 == y % 4
  {
    assert y - 1968 == 4 * (y / 4 - 492) + y % 4;
  }

  lemma Remainder100(y: int)
    ensures (y - 1900) % 100 == y % 100
  {
    assert y - 1900 == 100 * (y / 100 - 19) + y % 100;
  }

  lemma Remainder400(y: int)
    ensures (y - 1600) % 400 == y % 400
  {
    assert y - 1600 == 400 * (y / 400 - 4) + y % 400;
  }

  lemma LeapByRemainders(y: int)
    ensures y % 400 == 0 ==> y % 100 == 0
    ensures y % 100 == 0 ==> y % 4 == 0
  {
  }

  lemma YearsApart(y: int)
    ensures DayFromYear(y) + 365 <= DayFromYear(y + 1) <= DayFromYear(y) + 366
  {
    hide DayFromYear;
    NextYear(y);
  }

  lemma {:induction false} YearsGrow(a: int, b: int)
    requires a <= b
    ensures DayFromYear(a) + 365 * (b - a) <= DayFromYear(b)
    decreases b - a
  {
    if a < b {
      NextYear(b - 1);
      YearsGrow(a, b - 1);
    }
  }

  /** The year y with DayFromYear(y) <= day < DayFromYear(y + 1). */
  function YearFrom(day: int, y: int): (r: int)
    ensures DayFromYear(r) <= day < DayFromYear(r + 1)
    decreases if day < DayFromYear(y) then DayFromYear(y) - day
              else if day >= DayFromYear(y + 1) then day - DayFromYear(y) + 1 else 0
  {
    hide DayFromYear;
    YearsApart(y - 1);
    YearsApart(y);
    YearsApart(y + 1);
    if day < DayFromYear(y) then YearFrom(day, y - 1)
    else if day >= DayFromYear(y + 1) then YearFrom(day, y + 1)
    else y
  }

  function YearOf(day: int): (r: int)
    ensures DayFromYear(r) <= day < DayFromYear(r + 1)
  {
    YearFrom(day, 1970)
  }

  lemma YearOfUnique(day: int, y: int)
    requires DayFromYear(y) <= day < DayFromYear(y + 1)
    ensures YearOf(day) == y
  {
    var r := YearOf(day);
    if r < y { YearsGrow(r + 1, y); }
    if y < r { YearsGrow(y + 1, r); }
  }

  /** The month, from 0, that holds day k of the year. */
  function MonthFrom(k: nat, leap: bool, m: nat): (r: nat)
    requires m <= 11 && DaysBefore(m, leap) <= k < DaysBefore(12, leap)
    ensures r <= 11 && DaysBefore(r, leap) <= k < DaysBefore(r + 1, leap)
    decreases 11 - m
  {
    if k < DaysBefore(m + 1, leap) then m else MonthFrom(k, leap, m + 1)
  }

  datatype Date = Date(y: int, m: int, d: int)

  ghost predicate ValidDate(t: Date) {
    1 <= t.m <= 12 && 1 <= t.d <= DaysInMonth(t.y, t.m)
  }

  /** Year, month and day of the month, as the UTC getters read them. */
  function Civil(day: int): (t: Date)
    ensures ValidDate(t) && t.y == YearOf(day)
  {
    var y := YearOf(day);
    NextYear(y);
    var k := day - DayFromYear(y);
    var m := MonthFrom(k, Leap(y), 0);
    Date(y, m + 1, k - DaysBefore(m, Leap(y)) + 1)
  }

  function DayOfDate(t: Date): int {
    MakeDay(t.y, t.m - 1, t.d)
  }

  /** A month of the year itself carries nothing over. */
  lemma MakeDayInYear(y: int, month0: nat, date: int)
    requires month0 < 12
    ensures MakeDay(y, month0, date) == DayFromYear(y) + DaysBefore(month0, Leap(y)) + date - 1
  {
    hide DayFromYear, Leap, DaysBefore;
  }

  lemma DayOfCivil(day: int)
    ensures DayOfDate(Civil(day)) == day
  {
    hide DayFromYear, Leap, YearOf, DaysBefore, MakeDay, MonthFrom;
    var t := Civil(day);
    MakeDayInYear(t.y, t.m - 1, t.d);
  }

  lemma MonthsGrow(m: nat, n: nat, leap: bool)
    requires m <= n <= 12
    ensures DaysBefore(m, leap) <= DaysBefore(n, leap)
  {
  }

  lemma InsideYear(t: Date)
    requires ValidDate(t)
    ensures DayOfDate(t) == DayFromYear(t.y) + DaysBefore(t.m - 1, Leap(t.y)) + t.d - 1
    ensures DayFromYear(t.y) <= DayOfDate(t) < DayFromYear(t.y + 1)
  {
    hide DayFromYear, Leap, MakeDay;
    NextYear(t.y);
    MakeDayInYear(t.y, t.m - 1, t.d);
    MonthsGrow(t.m, 12, Leap(t.y));
  }

  lemma CivilOfDay(t: Date)
    requires ValidDate(t)
    ensures Civil(DayOfDate(t)) == t
  {
    hide DayFromYear;
    var leap := Leap(t.y);
    InsideYear(t);
    YearOfUnique(DayOfDate(t), t.y);
    var m := Civil(DayOfDate(t)).m - 1;
    if m < t.m - 1 { MonthsGrow(m + 1, t.m - 1, leap); }
    if t.m - 1 < m { MonthsGrow(t.m, m, leap); }
  }

  /** Earlier year, or earlier month of the same year, or earlier day of the same month. */
  predicate DateBefore(a: Date, b: Date) {
    a.y < b.y || (a.y == b.y && (a.m < b.m || (a.m == b.m && a.d < b.d)))
  }

  lemma EarlierDate(a: Date, b: Date)
    requires ValidDate(a) && ValidDate(b) && DateBefore(a, b)
    ensures DayOfDate(a) < DayOfDate(b)
  {
    hide DayFromYear, DaysBefore, MakeDay, DayOfDate;
    InsideYear(a);
    InsideYear(b);
    if a.y < b.y {
      YearsGrow(a.y + 1, b.y);
    } else if a.m < b.m {
      MonthsGrow(a.m, b.m - 1, Leap(a.y));
    }
  }

  /** Earlier days are those with the earlier date, field by field. */
  lemma DateOrder(n: int, m: int)
    ensures DateBefore(Civil(n), Civil(m)) <==> n < m
  {
    var a, b := Civil(n), Civil(m);
    DayOfCivil(n);
    DayOfCivil(m);
    if DateBefore(a, b) {
      EarlierDate(a, b);
    } else if DateBefore(b, a) {
      EarlierDate(b, a);
    }
  }

  // ---- text of a day

  function YearText(y: int): string {
    if y < 0 then "-" + ToString(-y) else ToString(y)
  }

  function DateText(t: Date): string
    requires t.m >= 0 && t.d >= 0
  {
    YearText(t.y) + "-" + Padded(t.m, 2) + "-" + Padded(t.d, 2)
  }

  predicate HasShape(s: string) {
    && |s| == 10
    && AllDigits(s[..4]) && s[4] == '-' && AllDigits(s[5..7]) && s[7] == '-' && AllDigits(s[8..])
  }

  function FieldsOf(s: string): Date
    requires HasShape(s)
  {
    Date(ParseNat(s[..4]), ParseNat(s[5..7]), ParseNat(s[8..]))
  }

  ghost predicate InRange(t: Date) {
    ValidDate(t) && 1000 <= t.y <= 9999
  }

  lemma SmallFields(t: Date)
    requires ValidDate(t)
    ensures 0 <= t.m < 100 && 0 <= t.d < 100
  {
  }

  lemma TwoDigits(n: nat)
    requires n < 100
    ensures |Padded(n, 2)| == 2 && ParseNat(Padded(n, 2)) == n
  {
    assert Pow10(2) == 100;
    PaddedWidth(n, 2);
    ParsePadded(n, 2);
  }

  lemma FourDigits(n: nat)
    ensures |ToString(n)| == 4 <==> 1000 <= n <= 9999
  {
    assert Pow10(3) == 1000;
    assert Pow10(4) == 10 * Pow10(3);
    ToStringWidth(n, 3);
    ToStringWidth(n, 4);
  }

  lemma TextParts(t: Date)
    requires ValidDate(t)
    ensures |DateText(t)| == |YearText(t.y)| + 6
    ensures
      var s, n := DateText(t), |YearText(t.y)|;
      s[..n] == YearText(t.y) && s[n] == '-' && s[n + 1..n + 3] == Padded(t.m, 2)
      && s[n + 3] == '-' && s[n + 4..] == Padded(t.d, 2)
  {
    TwoDigits(t.m);
    TwoDigits(t.d);
  }

  /** The text of a date can be read back exactly when its year has four digits. */
  lemma ShapeOfText(t: Date)
    requires ValidDate(t)
    ensures HasShape(DateText(t)) <==> InRange(t)
    ensures HasShape(DateText(t)) ==> FieldsOf(DateText(t)) == t
  {
    TextParts(t);
    TwoDigits(t.m);
    TwoDigits(t.d);
    if t.y >= 0 {
      FourDigits(t.y);
      ParseToString(t.y);
    } else {
      var s := DateText(t);
      assert s[0] == '-';
      if |s| == 10 { assert s[..4][0] == '-'; }
    }
  }

  lemma TextOfFields(s: string)
    requires HasShape(s) && ValidDate(FieldsOf(s))
    ensures DateText(FieldsOf(s)) == s <==> FieldsOf(s).y >= 1000
  {
    var t := FieldsOf(s);
    ParseBound(s[..4]);
    assert Pow10(4) == 10000 by { assert Pow10(2) == 100; }
    if t.y >= 1000 {
      FourDigits(t.y);
      ParseToString(t.y);
      ParseInjective(ToString(t.y), s[..4]);
      PaddedParse(s[5..7], 2);
      PaddedParse(s[8..], 2);
      assert s == s[..4] + "-" + s[5..7] + "-" + s[8..];
    } else if DateText(t) == s {
      ShapeOfText(t);
    }
  }

  // ---- the helpers

  datatype DateError = InvalidDate(text: string)

  /** The Kuwait calendar day an instant falls in. */
  function KuwaitDay(now: int): int {
    (now + KUWAIT_OFFSET_MS) / MS_PER_DAY
  }

  /** Midnight in Kuwait. */
  function StartOfDay(day: int): int {
    day * MS_PER_DAY - KUWAIT_OFFSET_MS
  }

  /** The day Date.UTC means: years 0 to 99 stand for 1900 to 1999. */
  function UtcDay(y: int, month0: int, d: int): int {
    MakeDay(if 0 <= y <= 99 then 1900 + y else y, month0, d)
  }

  function DateUTC(y: int, month0: int, d: int): int {
    UtcDay(y, month0, d) * MS_PER_DAY
  }

  datatype DayBounds = DayBounds(dayStart: int, dayEnd: int, dayIsoLocal: string)

  function KuwaitDayBounds(now: int): DayBounds {
    var t := Civil(KuwaitDay(now));
    var dayStart := DateUTC(t.y, t.m - 1, t.d) - KUWAIT_OFFSET_MS;
    DayBounds(dayStart, dayStart + 24 * 60 * 60 * 1000, DateText(t))
  }

  function ToKuwaitIsoDay(now: int): string {
    DateText(Civil(KuwaitDay(now)))
  }

  function ParseKuwaitCalendarDateStart(iso: string): Result<int, DateError> {
    var s := Trim(iso);
    if HasShape(s) then
      var t := FieldsOf(s);
      Ok(DateUTC(t.y, t.m - 1, t.d) - KUWAIT_OFFSET_MS)
    else Err(InvalidDate(iso))
  }

  function AddKuwaitCalendarDays(iso: string, deltaDays: int): Result<string, DateError> {
    match ParseKuwaitCalendarDateStart(iso)
    case Err(e) => Err(e)
    case Ok(start) => Ok(ToKuwaitIsoDay(start + deltaDays * MS_PER_DAY))
  }

  // ---- one day is one half-open interval

  lemma DayHolds(now: int)
    ensures StartOfDay(KuwaitDay(now)) <= now < StartOfDay(KuwaitDay(now) + 1)
  {
  }

  lemma DayIsUnique(now: int, day: int)
    requires StartOfDay(day) <= now < StartOfDay(day + 1)
    ensures KuwaitDay(now) == day
  {
  }

  lemma UtcDayOfCivil(day: int)
    ensures
      var t := Civil(day);
      if 0 <= YearOf(day) <= 99 then UtcDay(t.y, t.m - 1, t.d) > day else UtcDay(t.y, t.m - 1, t.d) == day
  {
    hide DayFromYear, DaysBefore;
    var t := Civil(day);
    DayOfCivil(day);
    if 0 <= t.y <= 99 {
      assert day < DayFromYear(t.y + 1);
      assert DayFromYear(t.y + 1) < DayFromYear(1900 + t.y) by { YearsGrow(t.y + 1, 1900 + t.y); }
      assert MakeDay(1900 + t.y, t.m - 1, t.d) >= DayFromYear(1900 + t.y);
    }
  }

  lemma BoundsStart(now: int)
    ensures
      var b, day := KuwaitDayBounds(now), KuwaitDay(now);
      && b.dayEnd == b.dayStart + MS_PER_DAY
      && b.dayIsoLocal == ToKuwaitIsoDay(now)
      && exists d :: b.dayStart == StartOfDay(d) && if 0 <= YearOf(day) <= 99 then d > day else d == day
  {
    hide Civil, UtcDay, YearOf, DateText;
    var t := Civil(KuwaitDay(now));
    var d := UtcDay(t.y, t.m - 1, t.d);
    UtcDayOfCivil(KuwaitDay(now));
    assert KuwaitDayBounds(now).dayStart == StartOfDay(d);
  }

  /**
   * The bounds computed for an instant contain it, except in the years 0 to 99, where Date.UTC
   * answers for the twentieth century.
   */
  lemma BoundsHoldTheInstant(now: int)
    ensures
      var b := KuwaitDayBounds(now);
      b.dayStart <= now < b.dayEnd <==> !(0 <= YearOf(KuwaitDay(now)) <= 99)
  {
    BoundsStart(now);
    DayHolds(now);
  }

  lemma SameDaySameBounds(x: int, y: int)
    requires KuwaitDay(x) == KuwaitDay(y)
    ensures KuwaitDayBounds(x) == KuwaitDayBounds(y)
  {
    hide Civil, UtcDay, YearOf, DateText;
  }

  /** Outside those years the days tile the time line: each ends where the next one starts. */
  lemma DaysTile(now: int)
    requires !(0 <= YearOf(KuwaitDay(now)) <= 99) && !(0 <= YearOf(KuwaitDay(now) + 1) <= 99)
    ensures
      var b := KuwaitDayBounds(now);
      && KuwaitDayBounds(b.dayEnd).dayStart == b.dayEnd
      && forall other :: !(0 <= YearOf(KuwaitDay(other)) <= 99) ==>
           (b.dayStart <= other < b.dayEnd <==> KuwaitDayBounds(other) == b)
  {
    hide Civil, YearOf, KuwaitDayBounds, DateText;
    var day := KuwaitDay(now);
    var b := KuwaitDayBounds(now);
    BoundsStart(now);
    assert b.dayStart == StartOfDay(day) && b.dayEnd == StartOfDay(day + 1);
    DayIsUnique(b.dayEnd, day + 1);
    BoundsStart(b.dayEnd);
    forall other | !(0 <= YearOf(KuwaitDay(other)) <= 99)
      ensures b.dayStart <= other < b.dayEnd <==> KuwaitDayBounds(other) == b
    {
      TileMember(now, other);
    }
  }

  lemma TileMember(now: int, other: int)
    requires !(0 <= YearOf(KuwaitDay(now)) <= 99) && !(0 <= YearOf(KuwaitDay(other)) <= 99)
    ensures KuwaitDayBounds(now).dayStart <= other < KuwaitDayBounds(now).dayEnd
       <==> KuwaitDayBounds(other) == KuwaitDayBounds(now)
  {
    hide Civil, YearOf, KuwaitDayBounds, DateText;
    BoundsStart(now);
    if KuwaitDayBounds(now).dayStart <= other < KuwaitDayBounds(now).dayEnd {
      DayIsUnique(other, KuwaitDay(now));
      SameDaySameBounds(now, other);
    }
    if KuwaitDayBounds(other) == KuwaitDayBounds(now) {
      BoundsHoldTheInstant(other);
    }
  }

  // ---- reading and printing

  /** The text of day number n. */
  function IsoOfDay(n: int): string {
    DateText(Civil(n))
  }

  ghost predicate FourDigitDay(n: int) {
    1000 <= YearOf(n) <= 9999
  }

  lemma DayOfStart(n: int, k: int)
    ensures KuwaitDay(StartOfDay(n) + k * MS_PER_DAY) == n + k
  {
  }

  lemma ReadsUtcDay(s: string)
    requires HasShape(Trim(s))
    ensures
      var t := FieldsOf(Trim(s));
      ParseKuwaitCalendarDateStart(s) == Ok(StartOfDay(UtcDay(t.y, t.m - 1, t.d)))
  {
    hide Trim, HasShape, FieldsOf, MakeDay, AllDigits;
  }

  lemma TrimKeeps(s: string)
    requires HasShape(s)
    ensures Trim(s) == s
  {
    assert s[0] == s[..4][0] && s[9] == s[8..][1];
  }

  lemma ParseOfIso(n: int)
    requires FourDigitDay(n)
    ensures HasShape(IsoOfDay(n)) && ParseKuwaitCalendarDateStart(IsoOfDay(n)) == Ok(StartOfDay(n))
  {
    ShapeOfText(Civil(n));
    TrimKeeps(IsoOfDay(n));
    ReadsUtcDay(IsoOfDay(n));
    UtcDayOfCivil(n);
  }

  /**
   * Reading a day and printing it again gives the (trimmed) text back exactly for the valid
   * Gregorian dates of the years 1000 to 9999.
   */
  lemma ParseThenFormat(iso: string)
    ensures
      var r := ParseKuwaitCalendarDateStart(iso);
      (r.Ok? && ToKuwaitIsoDay(r.value) == Trim(iso))
      <==>
      (HasShape(Trim(iso)) && ValidDate(FieldsOf(Trim(iso))) && FieldsOf(Trim(iso)).y >= 1000)
  {
    hide Trim, HasShape, FieldsOf, Civil, DateText, ValidDate, UtcDay, AllDigits,
         ParseKuwaitCalendarDateStart, ToKuwaitIsoDay;
    var s := Trim(iso);
    if HasShape(s) {
      ReadsUtcDay(iso);
      ReprintedField(s);
      PrintOfStart(UtcDay(FieldsOf(s).y, FieldsOf(s).m - 1, FieldsOf(s).d));
    } else {
      NoShape(iso);
    }
  }

  lemma NoShape(iso: string)
    requires !HasShape(Trim(iso))
    ensures ParseKuwaitCalendarDateStart(iso).Err?
  {
  }

  lemma PrintOfStart(n: int)
    ensures ToKuwaitIsoDay(StartOfDay(n)) == IsoOfDay(n)
  {
    hide IsoOfDay, ToKuwaitIsoDay, KuwaitDay, StartOfDay;
    DayOfStart(n, 0);
    PrintOfInstant(StartOfDay(n) + 0 * MS_PER_DAY);
  }

  lemma UtcDayOfDate(t: Date)
    requires t.y >= 1000
    ensures UtcDay(t.y, t.m - 1, t.d) == DayOfDate(t)
  {
    hide MakeDay;
  }

  lemma ReprintedField(s: string)
    requires HasShape(s)
    ensures
      var t := FieldsOf(s);
      IsoOfDay(UtcDay(t.y, t.m - 1, t.d)) == s <==> ValidDate(t) && t.y >= 1000
  {
    hide HasShape, FieldsOf, DateText, ValidDate, AllDigits, UtcDay, Civil, DayOfDate;
    var t := FieldsOf(s);
    var day := UtcDay(t.y, t.m - 1, t.d);
    if ValidDate(t) && t.y >= 1000 {
      UtcDayOfDate(t);
      CivilOfDay(t);
      TextOfFields(s);
    }
    if IsoOfDay(day) == s {
      ShapeOfText(Civil(day));
    }
  }

  /** Printing the start of a day and reading it gives the instant back. */
  lemma FormatThenParse(now: int)
    requires FourDigitDay(KuwaitDay(now))
    ensures ParseKuwaitCalendarDateStart(ToKuwaitIsoDay(now)) == Ok(StartOfDay(KuwaitDay(now)))
  {
    ParseOfIso(KuwaitDay(now));
  }

  /** The texts of the valid Gregorian dates of the years 1000 to 9999. */
  ghost predicate IsDayText(s: string) {
    HasShape(s) && ValidDate(FieldsOf(s)) && FieldsOf(s).y >= 1000
  }

  function DayNumber(s: string): int
    requires HasShape(s)
  {
    DayOfDate(FieldsOf(s))
  }

  lemma DayTextIsIso(s: string)
    requires IsDayText(s)
    ensures FourDigitDay(DayNumber(s)) && IsoOfDay(DayNumber(s)) == s
  {
    hide HasShape, FieldsOf, DateText, ValidDate, AllDigits, UtcDay, Civil, DayOfDate;
    UtcDayOfDate(FieldsOf(s));
    ReprintedField(s);
    ShapeOfText(Civil(DayNumber(s)));
    assert Civil(DayNumber(s)).y == YearOf(DayNumber(s));
  }

  lemma IsoIsDayText(n: int)
    requires FourDigitDay(n)
    ensures IsDayText(IsoOfDay(n)) && DayNumber(IsoOfDay(n)) == n
  {
    hide HasShape, FieldsOf, DateText, ValidDate, AllDigits, UtcDay, Civil;
    ShapeOfText(Civil(n));
    DayOfCivil(n);
  }

  lemma AddToText(iso: string, k: int)
    requires HasShape(Trim(iso))
    ensures
      var t := FieldsOf(Trim(iso));
      AddKuwaitCalendarDays(iso, k) == Ok(IsoOfDay(UtcDay(t.y, t.m - 1, t.d) + k))
  {
    hide Trim, HasShape, FieldsOf, UtcDay, ParseKuwaitCalendarDateStart, ToKuwaitIsoDay, IsoOfDay, StartOfDay, KuwaitDay;
    var t := FieldsOf(Trim(iso));
    var n := UtcDay(t.y, t.m - 1, t.d);
    ReadsUtcDay(iso);
    DayOfStart(n, k);
    PrintOfInstant(StartOfDay(n) + k * MS_PER_DAY);
  }

  lemma PrintOfInstant(at: int)
    ensures ToKuwaitIsoDay(at) == IsoOfDay(KuwaitDay(at))
  {
    hide Civil, DateText;
  }

  lemma AddToIso(n: int, k: int)
    requires FourDigitDay(n)
    ensures AddKuwaitCalendarDays(IsoOfDay(n), k) == Ok(IsoOfDay(n + k))
  {
    hide IsoOfDay, ToKuwaitIsoDay, HasShape, ParseKuwaitCalendarDateStart, KuwaitDay, StartOfDay, FourDigitDay;
    ParseOfIso(n);
    DayOfStart(n, k);
    PrintOfInstant(StartOfDay(n) + k * MS_PER_DAY);
  }

  /** Adding days composes whenever the first result is still a day that can be read. */
  lemma AddComposes(iso: string, a: int, b: int)
    requires HasShape(Trim(iso))
    requires
      var first := AddKuwaitCalendarDays(iso, a);
      first.Ok? && HasShape(first.value)
    ensures
      var first := AddKuwaitCalendarDays(iso, a);
      && AddKuwaitCalendarDays(first.value, b).Ok?
      && AddKuwaitCalendarDays(first.value, b) == AddKuwaitCalendarDays(iso, a + b)
  {
    hide *;
    var t := FieldsOf(Trim(iso));
    var n := UtcDay(t.y, t.m - 1, t.d);
    AddToText(iso, a);
    AddToText(iso, a + b);
    ShapedDay(n + a);
    AddToIso(n + a, b);
    assert n + a + b == n + (a + b);
  }

  lemma ShapedDay(n: int)
    requires HasShape(IsoOfDay(n))
    ensures FourDigitDay(n)
  {
    hide HasShape, Civil, DateText;
    ShapeOfText(Civil(n));
  }

  // ---- the string order is the day order

  lemma IsoOrder(n: int, m: int)
    requires FourDigitDay(n) && FourDigitDay(m)
    ensures StringLess(IsoOfDay(n), IsoOfDay(m)) <==> n < m
  {
    DateOrder(n, m);
    TextOrder(Civil(n), Civil(m));
  }

  lemma MonthDayOrder(m: nat, d: nat, n: nat, e: nat)
    requires m < 100 && d < 100 && n < 100 && e < 100
    ensures StringLess("-" + Padded(m, 2) + "-" + Padded(d, 2), "-" + Padded(n, 2) + "-" + Padded(e, 2))
       <==> (m < n || (m == n && d < e))
  {
    TwoDigits(m);
    TwoDigits(n);
    var x, y := "-" + Padded(d, 2), "-" + Padded(e, 2);
    assert "-" + Padded(m, 2) + "-" + Padded(d, 2) == "-" + (Padded(m, 2) + x);
    assert "-" + Padded(n, 2) + "-" + Padded(e, 2) == "-" + (Padded(n, 2) + y);
    StringLessPrefix("-", Padded(m, 2) + x, Padded(n, 2) + y);
    if m != n {
      StringLessDecided(Padded(m, 2), Padded(n, 2), x, y);
      StringLessIsNumeric(Padded(m, 2), Padded(n, 2));
    } else {
      TwoDigits(d);
      TwoDigits(e);
      StringLessPrefix(Padded(m, 2), x, y);
      StringLessPrefix("-", Padded(d, 2), Padded(e, 2));
      StringLessIsNumeric(Padded(d, 2), Padded(e, 2));
    }
  }

  lemma TextOrder(a: Date, b: Date)
    requires InRange(a) && InRange(b)
    ensures StringLess(DateText(a), DateText(b)) <==> DateBefore(a, b)
  {
    hide StringLess, Padded, ToString, ParseNat, DaysBefore;
    var x := "-" + Padded(a.m, 2) + "-" + Padded(a.d, 2);
    var y := "-" + Padded(b.m, 2) + "-" + Padded(b.d, 2);
    assert DateText(a) == ToString(a.y) + x && DateText(b) == ToString(b.y) + y;
    FourDigits(a.y);
    FourDigits(b.y);
    ParseToString(a.y);
    ParseToString(b.y);
    if a.y != b.y {
      StringLessDecided(ToString(a.y), ToString(b.y), x, y);
      StringLessIsNumeric(ToString(a.y), ToString(b.y));
    } else {
      StringLessPrefix(ToString(a.y), x, y);
      SmallFields(a);
      SmallFields(b);
      MonthDayOrder(a.m, a.d, b.m, b.d);
    }
  }
}
