/**
 * The debt recovery report: a bucket for each Kuwait day, filled row by row, every bucket amount
 * rounded to four decimals at each addition while the grand totals round once at the end.
 */
module DebtRecovery {
  import opened Wrappers
  import opened DecimalText
  import opened Whitespace
  import opened KuwaitCalendar

  // ---- four-decimal rounding, half away from zero

  const TICK := 0.0001
  const HALF_TICK := 0.00005

  function Round4(x: real): real {
    if x >= 0.0 then (x * 10000.0 + 0.5).Floor as real / 10000.0
    else -((-x * 10000.0 + 0.5).Floor as real / 10000.0)
  }

  /** x has at most four decimals. */
  predicate IsFixed4(x: real) {
    (x * 10000.0).Floor as real == x * 10000.0
  }

  lemma RoundError(x: real)
    ensures -HALF_TICK <= Round4(x) - x <= HALF_TICK
  {
  }

  lemma RoundExact(x: real)
    requires IsFixed4(x) && x >= 0.0
    ensures Round4(x) == x
  {
    var k := (x * 10000.0).Floor;
    assert (k as real + 0.5).Floor == k;
  }

  lemma FixedSum(x: real, y: real)
    requires IsFixed4(x) && IsFixed4(y)
    ensures IsFixed4(x + y)
  {
    var a, b := (x * 10000.0).Floor, (y * 10000.0).Floor;
    assert (x + y) * 10000.0 == (a + b) as real;
  }

  // ---- rows and buckets

  datatype Kind = OrderWalletSettlement | SubscriptionActivation

  /** A history row; `debtSettled` is 0 when the metadata holds no readable amount. */
  datatype TxRow = TxRow(
    createdAt: int, kind: Kind, debtSettled: real,
    confirmedMethod: Option<string>, posMethod: Option<string>, paymentMethod: Option<string>)

  datatype Channel = Cash | Electronic | Wallet

  datatype Amounts = Amounts(recovered: real, cash: real, electronic: real, wallet: real)

  datatype Bucket = Bucket(dayIso: string, amounts: Amounts, settlementCount: nat, subscriptionCount: nat)

  datatype State = State(buckets: map<string, Bucket>, totals: Amounts)

  function ChannelOf(r: TxRow): Channel {
    if r.kind == SubscriptionActivation then Wallet
    else
      var raw := if r.confirmedMethod.Some? then r.confirmedMethod
                 else if r.posMethod.Some? then r.posMethod else r.paymentMethod;
      if raw in {Some("KNET"), Some("PAYMENT_LINK"), Some("ONLINE")} then Electronic else Cash
  }

  function Count(b: Bucket, kind: Kind): Bucket {
    if kind == OrderWalletSettlement then b.(settlementCount := b.settlementCount + 1)
    else b.(subscriptionCount := b.subscriptionCount + 1)
  }

  /** Adds to the total and to the channel the row belongs to. */
  function AddTo(a: Amounts, c: Channel, x: real): Amounts {
    match c
    case Cash => a.(recovered := a.recovered + x, cash := a.cash + x)
    case Electronic => a.(recovered := a.recovered + x, electronic := a.electronic + x)
    case Wallet => a.(recovered := a.recovered + x, wallet := a.wallet + x)
  }

  function Rounded(a: Amounts): Amounts {
    Amounts(Round4(a.recovered), Round4(a.cash), Round4(a.electronic), Round4(a.wallet))
  }

  /** The two fields an addition touches are rounded; the other two are left as they are. */
  function AddRounded(a: Amounts, c: Channel, x: real): Amounts {
    var s := AddTo(a, c, x);
    match c
    case Cash => s.(recovered := Round4(s.recovered), cash := Round4(s.cash))
    case Electronic => s.(recovered := Round4(s.recovered), electronic := Round4(s.electronic))
    case Wallet => s.(recovered := Round4(s.recovered), wallet := Round4(s.wallet))
  }

  function Step(s: State, r: TxRow): State {
    var key := ToKuwaitIsoDay(r.createdAt);
    if key !in s.buckets then s
    else
      var b := s.buckets[key];
      if r.debtSettled <= 0.0 then s.(buckets := s.buckets[key := Count(b, r.kind)])
      else
        var c := ChannelOf(r);
        State(s.buckets[key := Count(b.(amounts := AddRounded(b.amounts, c, r.debtSettled)), r.kind)],
              AddTo(s.totals, c, r.debtSettled))
  }

  function Fold(s: State, rows: seq<TxRow>): State {
    if rows == [] then s else Step(Fold(s, rows[..|rows| - 1]), rows[|rows| - 1])
  }

  const ZERO := Amounts(0.0, 0.0, 0.0, 0.0)

  function EmptyBucket(key: string): Bucket {
    Bucket(key, ZERO, 0, 0)
  }

  function Seeded(keys: seq<string>): State {
    State(map k | k in keys :: EmptyBucket(k), ZERO)
  }

  /** The days n to m, in order. */
  function Days(n: int, m: int): seq<string>
    requires n <= m + 1
  {
    seq(m - n + 1, i requires 0 <= i => IsoOfDay(n + i))
  }

  datatype Report = Report(totals: Amounts, days: seq<Bucket>)

  datatype ReportError = FromAfterTo | BadDate(text: string)

  function Fetch(table: seq<TxRow>, fromBound: int, windowEnd: int): seq<TxRow> {
    if table == [] then []
    else
      var r := table[|table| - 1];
      Fetch(table[..|table| - 1], fromBound, windowEnd) + if fromBound <= r.createdAt < windowEnd then [r] else []
  }

  /** What the report holds for the seeded keys and the fetched rows. */
  function ReportWith(keys: seq<string>, rows: seq<TxRow>): Report {
    var s := Fold(Seeded(keys), rows);
    FoldKeepsKeys(Seeded(keys), rows);
    Report(Rounded(s.totals), seq(|keys|, i requires 0 <= i < |keys| => s.buckets[keys[i]]))
  }

  /** What the report must hold for the days n to m. */
  function ReportOf(n: int, m: int, table: seq<TxRow>): Report
    requires n <= m
  {
    ReportWith(Days(n, m), Fetch(table, StartOfDay(n), StartOfDay(m + 1)))
  }

  lemma {:induction false} FoldKeepsKeys(s: State, rows: seq<TxRow>)
    ensures Fold(s, rows).buckets.Keys == s.buckets.Keys
  {
    if rows != [] { FoldKeepsKeys(s, rows[..|rows| - 1]); }
  }

  // ---- the loops

  /** The first day no four-digit year can name. */
  const END_OF_TIME := DayFromYear(10000)

  lemma FourDigitIff(n: int)
    ensures FourDigitDay(n) <==> DayFromYear(1000) <= n < END_OF_TIME
  {
    hide DayFromYear;
    var y := YearOf(n);
    if y < 1000 { YearsGrow(y + 1, 1000); } else { YearsGrow(1000, y); }
    if y <= 9999 { YearsGrow(y + 1, 10000); } else { YearsGrow(10000, y); }
  }

  /** What one turn of the loop can do to a text that names a day, and to any other text. */
  lemma SeedStep(d: string, day: int)
    ensures d == IsoOfDay(day) && AddKuwaitCalendarDays(d, 1).Ok? ==>
              FourDigitDay(day) && AddKuwaitCalendarDays(d, 1) == Ok(IsoOfDay(day + 1))
    ensures d == IsoOfDay(day) && AddKuwaitCalendarDays(d, 1).Err? ==> !FourDigitDay(day)
    ensures AddKuwaitCalendarDays(d, 1).Ok? ==> exists n :: AddKuwaitCalendarDays(d, 1) == Ok(IsoOfDay(n))
  {
    hide Civil, DateText, HasShape, FieldsOf, Trim, AllDigits, AddKuwaitCalendarDays, YearOf;
    if AddKuwaitCalendarDays(d, 1).Ok? {
      ReadableHasShape(d);
      AddToText(d, 1);
    }
    if d == IsoOfDay(day) {
      if FourDigitDay(day) {
        AddToIso(day, 1);
      } else if AddKuwaitCalendarDays(d, 1).Ok? {
        UntrimmedShape(day);
        ShapeOfText(Civil(day));
      }
    }
  }

  lemma ReadableHasShape(d: string)
    requires AddKuwaitCalendarDays(d, 1).Ok?
    ensures HasShape(Trim(d))
  {
    hide HasShape, Trim, FieldsOf, Civil, DateText;
  }

  /** The text of a day starts and ends with a sign or a digit, so trimming leaves it alone. */
  lemma UntrimmedShape(day: int)
    ensures Trim(IsoOfDay(day)) == IsoOfDay(day)
  {
    hide Civil, DateText, ToString, Trim;
    var t := Civil(day);
    var s, n := IsoOfDay(day), |YearText(t.y)|;
    TextParts(t);
    SmallFields(t);
    TwoDigits(t.d);
    assert s[|s| - 1] == s[n + 4..][1] && IsDigit(Padded(t.d, 2)[1]);
    assert s[0] == s[..n][0] == YearText(t.y)[0];
    assert YearText(t.y)[0] == '-' || IsDigit(YearText(t.y)[0]);
    TrimKeepsEnds(s);
  }

  /** The day a text of the right shape stands for, whether or not it is a date: excess days and months carry over. */
  function StampDay(s: string): int
    requires HasShape(s)
  {
    var t := FieldsOf(s);
    UtcDay(t.y, t.m - 1, t.d)
  }

  /** The first text as given, then the days after it up to `last`, the last day whose text is not beyond `to`. */
  ghost predicate SeededUpTo(keys: seq<string>, from: string, to: string, last: int)
    requires HasShape(from)
  {
    var n := StampDay(from);
    && n <= last && keys == [from] + Days(n + 1, last)
    && (forall k :: n < k <= last ==> FourDigitDay(k) && StringAtMost(IsoOfDay(k), to))
    && !StringAtMost(IsoOfDay(last + 1), to)
  }

  ghost predicate SeededKeys(keys: seq<string>, from: string, to: string)
    requires HasShape(from)
  {
    exists last :: SeededUpTo(keys, from, to, last)
  }

  lemma FirstStep(from: string)
    requires HasShape(from)
    ensures AddKuwaitCalendarDays(from, 1) == Ok(IsoOfDay(StampDay(from) + 1))
  {
    hide HasShape, FieldsOf, UtcDay, AddKuwaitCalendarDays, IsoOfDay;
    TrimKeeps(from);
    AddToText(from, 1);
  }

  lemma ValidStamp(s: string)
    requires IsDayText(s)
    ensures StampDay(s) == DayNumber(s)
  {
    hide HasShape, FieldsOf, UtcDay, DayOfDate, ValidDate;
    UtcDayOfDate(FieldsOf(s));
  }

  lemma DaysGrow(n: int, m: int)
    requires n <= m + 1
    ensures Days(n, m) + [IsoOfDay(m + 1)] == Days(n, m + 1)
  {
    hide IsoOfDay;
  }

  /** Two valid dates, the first not after the second. */
  ghost predicate Between(from: string, to: string) {
    IsDayText(from) && IsDayText(to) && DayNumber(from) <= DayNumber(to)
  }

  /** After the first turn the text names the day. */
  ghost predicate Stepped(from: string, keys: seq<string>, d: string, day: int) {
    if keys == [] then d == from else d == IsoOfDay(day)
  }

  /** From a text of the right shape: the day it stands for, and the days since. */
  ghost predicate SteppedFrom(from: string, to: string, keys: seq<string>, day: int)
    requires HasShape(from)
  {
    var n := StampDay(from);
    && (if keys == [] then day == n else n < day && keys == [from] + Days(n + 1, day - 1))
    && forall k :: n < k < day ==> FourDigitDay(k) && StringAtMost(IsoOfDay(k), to)
  }

  /** Between valid dates: every day so far, once, in order. */
  ghost predicate Counted(from: string, to: string, keys: seq<string>, d: string, day: int)
    requires Between(from, to)
  {
    day == DayNumber(from) + |keys| <= DayNumber(to) + 1 && d == IsoOfDay(day) && keys == Days(DayNumber(from), day - 1)
  }

  /** A later turn that succeeds leads from a day of a four-digit year to the next one. */
  lemma NextDay(from: string, keys: seq<string>, d: string, day: int)
    requires Stepped(from, keys, d, day) && keys != [] && AddKuwaitCalendarDays(d, 1).Ok?
    ensures AddKuwaitCalendarDays(d, 1) == Ok(IsoOfDay(day + 1)) && FourDigitDay(day) && day < END_OF_TIME
  {
    hide AddKuwaitCalendarDays, IsoOfDay, FourDigitDay, DayFromYear;
    SeedStep(d, day);
    FourDigitIff(day);
  }

  lemma NextSteppedFrom(from: string, to: string, keys: seq<string>, d: string, day: int)
    requires HasShape(from) && Stepped(from, keys, d, day) && SteppedFrom(from, to, keys, day)
    requires StringAtMost(d, to) && AddKuwaitCalendarDays(d, 1).Ok?
    ensures AddKuwaitCalendarDays(d, 1) == Ok(IsoOfDay(day + 1)) && SteppedFrom(from, to, keys + [d], day + 1)
  {
    hide AddKuwaitCalendarDays, IsoOfDay, FourDigitDay, StringAtMost, HasShape, StampDay;
    if keys == [] {
      FirstStep(from);
      assert Days(day + 1, day) == [];
    } else {
      NextDay(from, keys, d, day);
      DaysGrow(StampDay(from) + 1, day - 1);
    }
  }

  lemma CountedStart(from: string, to: string)
    requires Between(from, to)
    ensures HasShape(from) && StampDay(from) == DayNumber(from) && Counted(from, to, [], from, DayNumber(from))
    ensures from == IsoOfDay(DayNumber(from)) && to == IsoOfDay(DayNumber(to)) && FourDigitDay(DayNumber(to))
    ensures DayFromYear(1000) <= DayNumber(from)
  {
    hide Civil, DateText, HasShape, FieldsOf, DayNumber, DayFromYear, IsoOfDay, ValidDate, StampDay;
    DayTextIsIso(from);
    DayTextIsIso(to);
    ValidStamp(from);
    FourDigitIff(DayNumber(from));
    assert Days(DayNumber(from), DayNumber(from) - 1) == [];
  }

  lemma NextCounted(from: string, to: string, keys: seq<string>, d: string, day: int)
    requires Between(from, to) && Counted(from, to, keys, d, day) && StringAtMost(d, to)
    ensures AddKuwaitCalendarDays(d, 1).Err? ==> DayNumber(to) + 1 >= END_OF_TIME
    ensures AddKuwaitCalendarDays(d, 1).Ok? ==>
      AddKuwaitCalendarDays(d, 1) == Ok(IsoOfDay(day + 1)) && Counted(from, to, keys + [d], IsoOfDay(day + 1), day + 1)
  {
    hide AddKuwaitCalendarDays, IsoOfDay, FourDigitDay, StringAtMost, DayNumber, DayFromYear, HasShape, FieldsOf, ValidDate;
    CountedStart(from, to);
    SeedStep(d, day);
    GuardIsNumeric(day, DayNumber(to), to);
    DaysGrow(DayNumber(from), day - 1);
  }

  lemma CountedEnd(from: string, to: string, keys: seq<string>, d: string, day: int)
    requires Between(from, to) && Counted(from, to, keys, d, day) && !StringAtMost(d, to)
    ensures keys == Days(DayNumber(from), DayNumber(to)) && DayNumber(to) + 1 < END_OF_TIME
  {
    hide IsoOfDay, FourDigitDay, StringAtMost, DayNumber, DayFromYear, HasShape, FieldsOf, ValidDate;
    CountedStart(from, to);
    GuardIsNumeric(day, DayNumber(to), to);
  }

  lemma SteppedEnd(from: string, to: string, keys: seq<string>, d: string, day: int)
    requires HasShape(from) && Stepped(from, keys, d, day) && SteppedFrom(from, to, keys, day)
    requires keys != [] && !StringAtMost(d, to)
    ensures SeededKeys(keys, from, to)
  {
    hide IsoOfDay, FourDigitDay, StringAtMost, HasShape, StampDay;
    assert SeededUpTo(keys, from, to, day - 1);
  }

  /**
   * The loop is guarded by a comparison of texts and stops for every input: after its first turn
   * the text names a day, the day grows by one each turn, and a day that no longer has a four-digit
   * year cannot be read. Between two valid dates it seeds every day once, in order, unless the last
   * one is 31 December 9999, which it steps beyond and then fails to read.
   */
  method SeedDays(from: string, to: string) returns (r: Result<seq<string>, DateError>)
    ensures IsDayText(from) && IsDayText(to) && DayNumber(from) <= DayNumber(to) ==>
      if DayNumber(to) + 1 < END_OF_TIME then r == Ok(Days(DayNumber(from), DayNumber(to))) else r.Err?
    ensures r.Ok? && HasShape(from) && StringAtMost(from, to) ==> SeededKeys(r.value, from, to)
  {
    hide *;
    var keys: seq<string> := [];
    var d := from;
    ghost var shaped, valid := HasShape(from), Between(from, to);
    ghost var day := if shaped then StampDay(from) else 0;
    SeedStart(from, to, day);
    while StringAtMost(d, to)
      invariant Stepped(from, keys, d, day)
      invariant shaped ==> SteppedFrom(from, to, keys, day)
      invariant valid ==> shaped && Counted(from, to, keys, d, day)
      invariant keys == [] ==> d == from
      decreases keys == [], END_OF_TIME - day
    {
      if valid { NextCounted(from, to, keys, d, day); }
      var next := AddKuwaitCalendarDays(d, 1);
      if next.Err? {
        BetweenMeans(from, to);
        return Err(next.error);
      }
      if keys != [] { NextDay(from, keys, d, day); }
      if shaped {
        NextSteppedFrom(from, to, keys, d, day);
        day := day + 1;
      } else if keys == [] {
        SeedStep(d, 0);
        day :| next == Ok(IsoOfDay(day));
      } else {
        day := day + 1;
      }
      NowStepped(from, keys + [d], day);
      keys := keys + [d];
      d := next.value;
    }
    if valid { CountedEnd(from, to, keys, d, day); }
    if shaped && keys != [] { SteppedEnd(from, to, keys, d, day); }
    BetweenMeans(from, to);
    return Ok(keys);
  }

  lemma SeedStart(from: string, to: string, day: int)
    requires HasShape(from) ==> day == StampDay(from)
    ensures Stepped(from, [], from, day) && (HasShape(from) ==> SteppedFrom(from, to, [], day))
    ensures Between(from, to) ==> HasShape(from) && Counted(from, to, [], from, day)
  {
    hide HasShape, StampDay, Between, Counted, FourDigitDay, StringAtMost, IsoOfDay, SteppedFrom, IsDayText, DayNumber;
    if HasShape(from) { SteppedStart(from, to, day); }
    if Between(from, to) { CountedStart(from, to); }
  }

  lemma SteppedStart(from: string, to: string, day: int)
    requires HasShape(from) && day == StampDay(from)
    ensures SteppedFrom(from, to, [], day)
  {
    hide HasShape, StampDay, FourDigitDay, StringAtMost, IsoOfDay;
  }

  lemma NowStepped(from: string, keys: seq<string>, day: int)
    requires keys != []
    ensures Stepped(from, keys, IsoOfDay(day), day)
  {
    hide IsoOfDay;
  }

  lemma BetweenMeans(from: string, to: string)
    ensures Between(from, to) <==> IsDayText(from) && IsDayText(to) && DayNumber(from) <= DayNumber(to)
  {
  }

  /** Between valid dates the guard compares day numbers, except on the first day nobody can name. */
  lemma GuardIsNumeric(day: int, m: int, to: string)
    requires FourDigitDay(m) && to == IsoOfDay(m) && DayFromYear(1000) <= day <= m + 1
    ensures StringAtMost(IsoOfDay(day), to) <==> day <= m || day == END_OF_TIME
    ensures day <= END_OF_TIME && (FourDigitDay(day) <==> day < END_OF_TIME)
  {
    hide Civil, DateText, StringLess, DayFromYear;
    FourDigitIff(day);
    FourDigitIff(m);
    if day < END_OF_TIME {
      IsoOrder(m, day);
    } else {
      assert m == END_OF_TIME - 1;
      TurnOfTheMillennium();
    }
  }

  /** As a text, 1 January 10000 comes before 31 December 9999. */
  lemma TurnOfTheMillennium()
    ensures StringLess(IsoOfDay(END_OF_TIME), IsoOfDay(END_OF_TIME - 1))
    ensures !StringLess(IsoOfDay(END_OF_TIME - 1), IsoOfDay(END_OF_TIME))
  {
    hide ToString, DayFromYear, Padded;
    var a, b := Civil(END_OF_TIME), Civil(END_OF_TIME - 1);
    NextYear(10000);
    YearOfUnique(END_OF_TIME, 10000);
    NextYear(9999);
    YearOfUnique(END_OF_TIME - 1, 9999);
    FirstDigits();
    assert DateText(a)[0] == ToString(a.y)[0] && DateText(b)[0] == ToString(b.y)[0];
  }

  lemma FirstDigits()
    ensures ToString(10000)[0] == '1' && ToString(9999)[0] == '9'
  {
    FirstDigit(10000);
    FirstDigit(1000);
    FirstDigit(100);
    FirstDigit(10);
    FirstDigit(9999);
    FirstDigit(999);
    FirstDigit(99);
  }

  lemma FirstDigit(n: nat)
    requires n >= 10
    ensures ToString(n)[0] == ToString(n / 10)[0]
    ensures n < 100 ==> ToString(n)[0] == DigitChar(n / 10)
  {
  }

  /** Fills the seeded buckets; the totals stay unrounded. */
  method Accumulate(keys: seq<string>, rows: seq<TxRow>) returns (buckets: map<string, Bucket>, totals: Amounts)
    ensures State(buckets, totals) == Fold(Seeded(keys), rows)
  {
    hide ToKuwaitIsoDay, Round4;
    buckets := Seeded(keys).buckets;
    var total, totalCash, totalElectronic, totalWallet := 0.0, 0.0, 0.0, 0.0;
    var i := 0;
    while i < |rows|
      invariant 0 <= i <= |rows|
      invariant State(buckets, Amounts(total, totalCash, totalElectronic, totalWallet)) == Fold(Seeded(keys), rows[..i])
    {
      var r := rows[i];
      var key := ToKuwaitIsoDay(r.createdAt);
      assert rows[..i + 1][..i] == rows[..i] && rows[..i + 1][i] == r;
      if key in buckets {
        var bucket := buckets[key];
        if r.debtSettled > 0.0 {
          var x, a := r.debtSettled, bucket.amounts;
          total := total + x;
          a := a.(recovered := Round4(a.recovered + x));
          match ChannelOf(r) {
            case Cash =>
              totalCash := totalCash + x;
              a := a.(cash := Round4(a.cash + x));
            case Electronic =>
              totalElectronic := totalElectronic + x;
              a := a.(electronic := Round4(a.electronic + x));
            case Wallet =>
              totalWallet := totalWallet + x;
              a := a.(wallet := Round4(a.wallet + x));
          }
          bucket := bucket.(amounts := a);
        }
        buckets := buckets[key := Count(bucket, r.kind)];
      }
      i := i + 1;
    }
    assert rows[..i] == rows;
    totals := Amounts(total, totalCash, totalElectronic, totalWallet);
  }

  function ResolveTo(now: int, toIso: Option<string>): string {
    var t := if toIso.Some? then Trim(toIso.value) else "";
    if t != "" then t else ToKuwaitIsoDay(now)
  }

  /** Without a first day: the thirty days that end today. */
  function ResolveFrom(now: int, fromIso: Option<string>): Result<string, DateError> {
    var t := if fromIso.Some? then Trim(fromIso.value) else "";
    if t != "" then Ok(t) else AddKuwaitCalendarDays(ToKuwaitIsoDay(now), -29)
  }

  lemma ParseOfShape(s: string)
    requires HasShape(s)
    ensures ParseKuwaitCalendarDateStart(s) == Ok(StartOfDay(StampDay(s)))
  {
    hide HasShape, FieldsOf, UtcDay, ParseKuwaitCalendarDateStart, StartOfDay;
    TrimKeeps(s);
    ReadsUtcDay(s);
  }

  method GetDebtRecoveryReport(now: int, fromIso: Option<string>, toIso: Option<string>, table: seq<TxRow>)
    returns (r: Result<Report, ReportError>)
    ensures ResolveFrom(now, fromIso).Err? ==> r.Err?
    ensures
      var from, to := ResolveFrom(now, fromIso), ResolveTo(now, toIso);
      from.Ok? && IsDayText(from.value) && IsDayText(to) ==>
        var n, m := DayNumber(from.value), DayNumber(to);
        if m < n then r == Err(FromAfterTo)
        else if m + 1 < END_OF_TIME then r == Ok(ReportOf(n, m, table))
        else r.Err?
    ensures
      var from, to := ResolveFrom(now, fromIso), ResolveTo(now, toIso);
      from.Ok? && HasShape(from.value) && HasShape(to) && r.Ok? ==>
        && StringAtMost(from.value, to)
        && exists keys :: SeededKeys(keys, from.value, to) &&
             r.value == ReportWith(keys, Fetch(table, StartOfDay(StampDay(from.value)), StartOfDay(StampDay(to) + 1)))
  {
    hide Civil, DateText, StringLess, HasShape, FieldsOf, ToKuwaitIsoDay, DayNumber, DayFromYear, Trim, Round4, Fold,
         ParseKuwaitCalendarDateStart, AddKuwaitCalendarDays, ValidDate, YearOf, SeededKeys, UtcDay;
    var to := ResolveTo(now, toIso);
    var resolved := ResolveFrom(now, fromIso);
    if resolved.Err? {
      return Err(BadDate(resolved.error.text));
    }
    var from := resolved.value;
    if IsDayText(from) && IsDayText(to) {
      DayTextIsIso(from);
      DayTextIsIso(to);
      IsoOrder(DayNumber(to), DayNumber(from));
      ParseOfIso(DayNumber(from));
      ParseOfIso(DayNumber(to));
    }
    if HasShape(from) { ParseOfShape(from); }
    if HasShape(to) { ParseOfShape(to); }
    if StringLess(to, from) {
      return Err(FromAfterTo);
    }
    var fromBound := ParseKuwaitCalendarDateStart(from);
    if fromBound.Err? {
      return Err(BadDate(from));
    }
    var lastStart := ParseKuwaitCalendarDateStart(to);
    if lastStart.Err? {
      return Err(BadDate(to));
    }
    var windowEnd := lastStart.value + 86400000;
    var rows := Fetch(table, fromBound.value, windowEnd);
    var seeded := SeedDays(from, to);
    if seeded.Err? {
      return Err(BadDate(seeded.error.text));
    }
    var keys := seeded.value;
    var buckets, totals := Accumulate(keys, rows);
    FoldKeepsKeys(Seeded(keys), rows);
    assert forall i :: 0 <= i < |keys| ==> keys[i] in Seeded(keys).buckets;
    var report := Report(Rounded(totals), seq(|keys|, i requires 0 <= i < |keys| => buckets[keys[i]]));
    assert report == ReportWith(keys, rows);
    return Ok(report);
  }

  // ---- what the report is good for

  datatype Field = Recovered | CashPart | ElectronicPart | WalletPart

  function Get(a: Amounts, f: Field): real {
    match f
    case Recovered => a.recovered
    case CashPart => a.cash
    case ElectronicPart => a.electronic
    case WalletPart => a.wallet
  }

  function SumOf(days: seq<Bucket>, f: Field): real {
    if days == [] then 0.0 else SumOf(days[..|days| - 1], f) + Get(days[|days| - 1].amounts, f)
  }

  function RowCount(days: seq<Bucket>): nat {
    if days == [] then 0
    else
      var b := days[|days| - 1];
      RowCount(days[..|days| - 1]) + b.settlementCount + b.subscriptionCount
  }

  function Positives(rows: seq<TxRow>): nat {
    if rows == [] then 0
    else Positives(rows[..|rows| - 1]) + if rows[|rows| - 1].debtSettled > 0.0 then 1 else 0
  }

  lemma {:induction false} SumOfUpdate(days: seq<Bucket>, j: nat, b: Bucket, f: Field)
    requires j < |days|
    ensures SumOf(days[j := b], f) == SumOf(days, f) - Get(days[j].amounts, f) + Get(b.amounts, f)
  {
    var n := |days| - 1;
    if j == n {
      assert days[j := b][..n] == days[..n];
    } else {
      assert days[j := b][..n] == days[..n][j := b];
      SumOfUpdate(days[..n], j, b, f);
    }
  }

  lemma {:induction false} RowCountUpdate(days: seq<Bucket>, j: nat, b: Bucket)
    requires j < |days|
    ensures RowCount(days[j := b]) + days[j].settlementCount + days[j].subscriptionCount
         == RowCount(days) + b.settlementCount + b.subscriptionCount
  {
    var n := |days| - 1;
    if j == n {
      assert days[j := b][..n] == days[..n];
    } else {
      assert days[j := b][..n] == days[..n][j := b];
      RowCountUpdate(days[..n], j, b);
    }
  }

  ghost predicate Distinct(keys: seq<string>) {
    forall i, j :: 0 <= i < j < |keys| ==> keys[i] != keys[j]
  }

  ghost predicate Covers(keys: seq<string>, buckets: map<string, Bucket>) {
    forall i :: 0 <= i < |keys| ==> keys[i] in buckets
  }

  function Listed(keys: seq<string>, buckets: map<string, Bucket>): (days: seq<Bucket>)
    requires Covers(keys, buckets)
    ensures |days| == |keys| && forall i :: 0 <= i < |keys| ==> days[i] == buckets[keys[i]]
  {
    seq(|keys|, i requires 0 <= i < |keys| => buckets[keys[i]])
  }

  /** A row that finds its bucket changes one entry of the listed days. */
  lemma StepListed(keys: seq<string>, s: State, r: TxRow) returns (j: nat)
    requires Distinct(keys) && Covers(keys, s.buckets) && ToKuwaitIsoDay(r.createdAt) in keys
    ensures j < |keys| && Covers(keys, Step(s, r).buckets)
    ensures
      var b := s.buckets[keys[j]];
      Listed(keys, Step(s, r).buckets) == Listed(keys, s.buckets)[j :=
        if r.debtSettled <= 0.0 then Count(b, r.kind)
        else Count(b.(amounts := AddRounded(b.amounts, ChannelOf(r), r.debtSettled)), r.kind)]
  {
    hide ToKuwaitIsoDay, AddRounded, ChannelOf;
    var key := ToKuwaitIsoDay(r.createdAt);
    j :| 0 <= j < |keys| && keys[j] == key;
  }

  /** Every row in the window is counted in one bucket, and each addition errs by half a tick at most. */
  ghost predicate Drifted(keys: seq<string>, s: State, n: nat, positives: nat) {
    && Covers(keys, s.buckets)
    && RowCount(Listed(keys, s.buckets)) == n
    && forall f :: -(positives as real * HALF_TICK)
                   <= SumOf(Listed(keys, s.buckets), f) - Get(s.totals, f)
                   <= positives as real * HALF_TICK
  }

  lemma AddRoundedError(a: Amounts, b: Amounts, c: Channel, x: real, f: Field)
    ensures
      var e := (Get(AddRounded(a, c, x), f) - Get(a, f)) - (Get(AddTo(b, c, x), f) - Get(b, f));
      -HALF_TICK <= e <= HALF_TICK
  {
    hide Round4;
    RoundError(Get(a, f) + x);
  }

  lemma StepDrifts(keys: seq<string>, s: State, r: TxRow, n: nat, positives: nat)
    requires Distinct(keys) && Drifted(keys, s, n, positives) && ToKuwaitIsoDay(r.createdAt) in keys
    ensures Drifted(keys, Step(s, r), n + 1, positives + if r.debtSettled > 0.0 then 1 else 0)
  {
    hide ToKuwaitIsoDay, AddRounded, AddTo, ChannelOf, SumOf, RowCount;
    var j := StepListed(keys, s, r);
    var days := Listed(keys, s.buckets);
    var b := Listed(keys, Step(s, r).buckets)[j];
    RowCountUpdate(days, j, b);
    forall f
      ensures
        var p := positives + if r.debtSettled > 0.0 then 1 else 0;
        -(p as real * HALF_TICK)
        <= SumOf(Listed(keys, Step(s, r).buckets), f) - Get(Step(s, r).totals, f)
        <= p as real * HALF_TICK
    {
      SumOfUpdate(days, j, b, f);
      if r.debtSettled > 0.0 {
        AddRoundedError(days[j].amounts, s.totals, ChannelOf(r), r.debtSettled, f);
      }
    }
  }

  lemma {:induction false} FoldDrifts(keys: seq<string>, rows: seq<TxRow>)
    requires Distinct(keys)
    requires forall i :: 0 <= i < |rows| ==> ToKuwaitIsoDay(rows[i].createdAt) in keys
    ensures Drifted(keys, Fold(Seeded(keys), rows), |rows|, Positives(rows))
  {
    hide ToKuwaitIsoDay, Step;
    if rows == [] {
      SeededIsZero(keys);
    } else {
      var n := |rows| - 1;
      FoldDrifts(keys, rows[..n]);
      StepDrifts(keys, Fold(Seeded(keys), rows[..n]), rows[n], n, Positives(rows[..n]));
    }
  }

  lemma SeededIsZero(keys: seq<string>)
    ensures Drifted(keys, Seeded(keys), 0, 0)
  {
    var days := Listed(keys, Seeded(keys).buckets);
    forall f ensures SumOf(days, f) == 0.0 { ZeroDays(days, f); }
    ZeroDays(days, Recovered);
  }

  lemma {:induction false} ZeroDays(days: seq<Bucket>, f: Field)
    requires forall i :: 0 <= i < |days| ==> days[i] == EmptyBucket(days[i].dayIso)
    ensures SumOf(days, f) == 0.0 && RowCount(days) == 0
  {
    if days != [] { ZeroDays(days[..|days| - 1], f); }
  }

  // ---- four-decimal amounts lose nothing

  ghost predicate FixedAmounts(a: Amounts) {
    && (forall f :: IsFixed4(Get(a, f)) && Get(a, f) >= 0.0)
    && a.recovered == a.cash + a.electronic + a.wallet
  }

  ghost predicate Exact(keys: seq<string>, s: State) {
    && Covers(keys, s.buckets)
    && FixedAmounts(s.totals)
    && (forall i :: 0 <= i < |keys| ==> FixedAmounts(s.buckets[keys[i]].amounts))
    && forall f :: SumOf(Listed(keys, s.buckets), f) == Get(s.totals, f)
  }

  lemma AddExact(a: Amounts, c: Channel, x: real)
    requires FixedAmounts(a) && IsFixed4(x) && x > 0.0
    ensures AddRounded(a, c, x) == AddTo(a, c, x) && FixedAmounts(AddTo(a, c, x))
  {
    hide IsFixed4, Round4;
    forall f ensures IsFixed4(Get(a, f) + x) && Round4(Get(a, f) + x) == Get(a, f) + x {
      FixedSum(Get(a, f), x);
      RoundExact(Get(a, f) + x);
    }
    assert a.recovered + x == Get(a, Recovered) + x;
    assert a.cash + x == Get(a, CashPart) + x;
    assert a.electronic + x == Get(a, ElectronicPart) + x;
    assert a.wallet + x == Get(a, WalletPart) + x;
    var t := AddTo(a, c, x);
    forall f ensures IsFixed4(Get(t, f)) && Get(t, f) >= 0.0 {
      assert Get(t, f) == Get(a, f) || Get(t, f) == Get(a, f) + x;
    }
  }

  lemma StepExact(keys: seq<string>, s: State, r: TxRow)
    requires Distinct(keys) && Exact(keys, s) && ToKuwaitIsoDay(r.createdAt) in keys
    requires IsFixed4(r.debtSettled)
    ensures Exact(keys, Step(s, r))
  {
    hide ToKuwaitIsoDay, AddRounded, ChannelOf, SumOf, IsFixed4;
    var t := Step(s, r);
    var j := StepListed(keys, s, r);
    var days := Listed(keys, s.buckets);
    var b := Listed(keys, t.buckets)[j];
    if r.debtSettled > 0.0 {
      AddExact(days[j].amounts, ChannelOf(r), r.debtSettled);
      AddExact(s.totals, ChannelOf(r), r.debtSettled);
    }
    forall i | 0 <= i < |keys| ensures FixedAmounts(t.buckets[keys[i]].amounts) {
      assert t.buckets[keys[i]] == Listed(keys, t.buckets)[i];
      assert FixedAmounts(days[i].amounts);
    }
    forall f ensures SumOf(Listed(keys, t.buckets), f) == Get(t.totals, f) {
      SumOfUpdate(days, j, b, f);
    }
  }

  lemma ZeroIsFixed()
    ensures FixedAmounts(ZERO)
  {
    assert IsFixed4(0.0);
    forall f ensures IsFixed4(Get(ZERO, f)) && Get(ZERO, f) >= 0.0 {
      assert Get(ZERO, f) == 0.0;
    }
  }

  lemma SeededIsExact(keys: seq<string>)
    ensures Exact(keys, Seeded(keys))
  {
    hide FixedAmounts, IsFixed4;
    ZeroIsFixed();
    var days := Listed(keys, Seeded(keys).buckets);
    forall f ensures SumOf(days, f) == Get(ZERO, f) { ZeroDays(days, f); }
  }

  lemma {:induction false} FoldExact(keys: seq<string>, rows: seq<TxRow>)
    requires Distinct(keys)
    requires forall i :: 0 <= i < |rows| ==> ToKuwaitIsoDay(rows[i].createdAt) in keys && IsFixed4(rows[i].debtSettled)
    ensures Exact(keys, Fold(Seeded(keys), rows))
  {
    hide ToKuwaitIsoDay, Step, IsFixed4;
    if rows == [] {
      SeededIsExact(keys);
    } else {
      var n := |rows| - 1;
      FoldExact(keys, rows[..n]);
      StepExact(keys, Fold(Seeded(keys), rows[..n]), rows[n]);
    }
  }

  // ---- the report as a whole

  lemma {:induction false} FetchedInWindow(table: seq<TxRow>, fromBound: int, windowEnd: int)
    ensures forall i :: 0 <= i < |Fetch(table, fromBound, windowEnd)| ==>
              fromBound <= Fetch(table, fromBound, windowEnd)[i].createdAt < windowEnd
  {
    if table != [] { FetchedInWindow(table[..|table| - 1], fromBound, windowEnd); }
  }

  /** Every instant of the window falls on a seeded day. */
  lemma WindowIsSeeded(n: int, m: int, at: int)
    requires n <= m && StartOfDay(n) <= at < StartOfDay(m + 1)
    ensures ToKuwaitIsoDay(at) in Days(n, m)
  {
    hide Civil, DateText;
    DayHolds(at);
    var k := KuwaitDay(at);
    assert n <= k <= m;
    assert Days(n, m)[k - n] == IsoOfDay(k);
  }

  lemma DaysAreDistinct(n: int, m: int)
    requires FourDigitDay(n) && FourDigitDay(m) && n <= m
    ensures Distinct(Days(n, m))
  {
    hide Civil, DateText, DayFromYear, YearOf, HasShape, FieldsOf, DayNumber, ValidDate;
    FourDigitIff(n);
    FourDigitIff(m);
    var keys := Days(n, m);
    forall i, j | 0 <= i < j < |keys| ensures keys[i] != keys[j] {
      FourDigitIff(n + i);
      FourDigitIff(n + j);
      IsoIsDayText(n + i);
      IsoIsDayText(n + j);
    }
  }

  /**
   * For valid days no fetched row is dropped, and the day amounts add up to the reported totals:
   * within half a tick for each positive row and half a tick more for rounding the total itself.
   */
  lemma ReportDriftIsBounded(n: int, m: int, table: seq<TxRow>)
    requires FourDigitDay(n) && FourDigitDay(m) && n <= m
    ensures
      var rows := Fetch(table, StartOfDay(n), StartOfDay(m + 1));
      var report := ReportOf(n, m, table);
      var bound := (Positives(rows) + 1) as real * HALF_TICK;
      && RowCount(report.days) == |rows|
      && forall f :: -bound <= SumOf(report.days, f) - Get(report.totals, f) <= bound
  {
    hide ToKuwaitIsoDay, Fold, SumOf, RowCount, Positives, Civil, DateText, YearOf, Round4, StartOfDay;
    var rows := Fetch(table, StartOfDay(n), StartOfDay(m + 1));
    var keys := Days(n, m);
    FetchedInWindow(table, StartOfDay(n), StartOfDay(m + 1));
    forall i | 0 <= i < |rows| ensures ToKuwaitIsoDay(rows[i].createdAt) in keys {
      WindowIsSeeded(n, m, rows[i].createdAt);
    }
    DaysAreDistinct(n, m);
    FoldDrifts(keys, rows);
    var s := Fold(Seeded(keys), rows);
    assert ReportOf(n, m, table).days == Listed(keys, s.buckets);
    forall f ensures -HALF_TICK <= Get(Rounded(s.totals), f) - Get(s.totals, f) <= HALF_TICK {
      RoundError(Get(s.totals, f));
    }
  }

  /** With four-decimal amounts nothing drifts, and every amount splits exactly into its channels. */
  lemma ReportIsExact(n: int, m: int, table: seq<TxRow>)
    requires FourDigitDay(n) && FourDigitDay(m) && n <= m
    requires forall i :: 0 <= i < |table| ==> IsFixed4(table[i].debtSettled)
    ensures
      var report := ReportOf(n, m, table);
      && (forall f :: SumOf(report.days, f) == Get(report.totals, f))
      && report.totals.recovered == report.totals.cash + report.totals.electronic + report.totals.wallet
      && forall i :: 0 <= i < |report.days| ==>
           var a := report.days[i].amounts;
           a.recovered == a.cash + a.electronic + a.wallet
  {
    hide ToKuwaitIsoDay, Fold, SumOf, Civil, DateText, YearOf, Round4, StartOfDay, IsFixed4;
    var rows := Fetch(table, StartOfDay(n), StartOfDay(m + 1));
    var keys := Days(n, m);
    FetchedInWindow(table, StartOfDay(n), StartOfDay(m + 1));
    FetchedFromTable(table, StartOfDay(n), StartOfDay(m + 1));
    forall i | 0 <= i < |rows| ensures ToKuwaitIsoDay(rows[i].createdAt) in keys && IsFixed4(rows[i].debtSettled) {
      WindowIsSeeded(n, m, rows[i].createdAt);
      assert rows[i] in table;
    }
    DaysAreDistinct(n, m);
    FoldExact(keys, rows);
    var s := Fold(Seeded(keys), rows);
    assert ReportOf(n, m, table).days == Listed(keys, s.buckets);
    forall f ensures Get(Rounded(s.totals), f) == Get(s.totals, f) {
      RoundExact(Get(s.totals, f));
    }
    assert Rounded(s.totals) == s.totals by {
      assert Get(Rounded(s.totals), Recovered) == s.totals.recovered;
      assert Get(Rounded(s.totals), CashPart) == s.totals.cash;
      assert Get(Rounded(s.totals), ElectronicPart) == s.totals.electronic;
      assert Get(Rounded(s.totals), WalletPart) == s.totals.wallet;
    }
    assert FixedAmounts(s.totals);
  }

  lemma {:induction false} FetchedFromTable(table: seq<TxRow>, fromBound: int, windowEnd: int)
    ensures forall r :: r in Fetch(table, fromBound, windowEnd) ==> r in table
  {
    if table != [] { FetchedFromTable(table[..|table| - 1], fromBound, windowEnd); }
  }

  /** The drift is real: on any day, two payments of half a tick print as two ticks under a total of one. */
  lemma DriftHappens(n: int)
    requires FourDigitDay(n)
    ensures
      var row := TxRow(StartOfDay(n), OrderWalletSettlement, HALF_TICK, None, None, None);
      var report := ReportOf(n, n, [row, row]);
      SumOf(report.days, Recovered) == 2.0 * TICK && report.totals.recovered == TICK
  {
    hide Civil, DateText, YearOf, Round4, StartOfDay, ToKuwaitIsoDay, KuwaitDay, IsoOfDay, Fold, Step, Fetch, SumOf, Seeded;
    var row := TxRow(StartOfDay(n), OrderWalletSettlement, HALF_TICK, None, None, None);
    var keys, key := Days(n, n), IsoOfDay(n);
    assert keys == [key];
    PrintOfStart(n);
    DayLength(n);
    FetchBoth(row, StartOfDay(n), StartOfDay(n + 1));
    FoldBoth(Seeded(keys), row);
    SeededAlone(key);
    CashStep(Seeded(keys), row, key);
    CashStep(Step(Seeded(keys), row), row, key);
    HalfTicks();
    var days := ReportOf(n, n, [row, row]).days;
    assert days == [Fold(Seeded(keys), [row, row]).buckets[key]];
    SumOfOne(days[0]);
  }

  lemma SeededAlone(key: string)
    ensures key in Seeded([key]).buckets && Seeded([key]).buckets[key].amounts == ZERO && Seeded([key]).totals == ZERO
  {
  }

  lemma SumOfOne(b: Bucket)
    ensures SumOf([b], Recovered) == b.amounts.recovered
  {
    assert [b][..0] == [];
  }

  lemma FetchBoth(row: TxRow, fromBound: int, windowEnd: int)
    requires fromBound <= row.createdAt < windowEnd
    ensures Fetch([row, row], fromBound, windowEnd) == [row, row]
  {
    var table := [row, row];
    assert table[..1] == [row] && table[..1][..0] == [];
    assert Fetch(table[..1], fromBound, windowEnd) == [row];
  }

  lemma FoldBoth(s: State, row: TxRow)
    ensures Fold(s, [row, row]) == Step(Step(s, row), row)
  {
    hide Step;
    var table := [row, row];
    assert table[..1] == [row] && table[..1][..0] == [];
    assert Fold(s, table[..1]) == Step(s, row);
  }

  lemma CashStep(s: State, r: TxRow, key: string)
    requires key in s.buckets && ToKuwaitIsoDay(r.createdAt) == key && r.debtSettled > 0.0 && ChannelOf(r) == Cash
    ensures key in Step(s, r).buckets
    ensures Step(s, r).buckets[key].amounts == AddRounded(s.buckets[key].amounts, Cash, r.debtSettled)
    ensures Step(s, r).totals == AddTo(s.totals, Cash, r.debtSettled)
  {
    hide ToKuwaitIsoDay, Round4, ChannelOf;
  }

  lemma DayLength(n: int)
    ensures StartOfDay(n + 1) == StartOfDay(n) + MS_PER_DAY
  {
  }

  lemma HalfTicks()
    ensures Round4(0.0 + HALF_TICK) == TICK && Round4(TICK + HALF_TICK) == 2.0 * TICK
    ensures Round4(0.0 + HALF_TICK + HALF_TICK) == TICK
  {
  }
}
