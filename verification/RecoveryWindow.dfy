/**
 * Which requested ranges lose rows: the request checks only the shape of a date, so a range may start or
 * end on a text such as 2026-02-31, which the query and the seeding loop read differently.
 */
module RecoveryWindow {
  import opened Wrappers
  import opened DecimalText
  import opened KuwaitCalendar
  import opened DebtRecovery

  /** Every instant the query can fetch has a seeded bucket, so no row of any table is dropped. */
  ghost predicate NothingDropped(keys: seq<string>, n: int, m: int) {
    forall at :: StartOfDay(n) <= at < StartOfDay(m + 1) ==> ToKuwaitIsoDay(at) in keys
  }

  lemma NothingDroppedByDay(keys: seq<string>, n: int, m: int)
    ensures NothingDropped(keys, n, m) <==> forall k :: n <= k <= m ==> IsoOfDay(k) in keys
  {
    hide IsoOfDay, ToKuwaitIsoDay;
    if NothingDropped(keys, n, m) {
      forall k | n <= k <= m ensures IsoOfDay(k) in keys {
        StartInWindow(n, k, m);
        PrintOfStart(k);
      }
    }
    if forall k :: n <= k <= m ==> IsoOfDay(k) in keys {
      forall at | StartOfDay(n) <= at < StartOfDay(m + 1) ensures ToKuwaitIsoDay(at) in keys {
        PrintOfInstant(at);
        DayInWindow(n, at, m);
      }
    }
  }

  lemma StartInWindow(n: int, k: int, m: int)
    requires n <= k <= m
    ensures StartOfDay(n) <= StartOfDay(k) < StartOfDay(m + 1)
  {
  }

  lemma DayInWindow(n: int, at: int, m: int)
    requires StartOfDay(n) <= at < StartOfDay(m + 1)
    ensures n <= KuwaitDay(at) <= m
  {
    DayHolds(at);
  }

  /** A key of the loop is the first text or one of the days after it. */
  lemma KeyIs(keys: seq<string>, from: string, to: string, last: int, key: string) returns (k: int)
    requires HasShape(from) && SeededUpTo(keys, from, to, last) && key in keys && key != from
    ensures StampDay(from) < k <= last && key == IsoOfDay(k) && FourDigitDay(k) && StringAtMost(key, to)
  {
    hide IsoOfDay, FourDigitDay, StringLess, StampDay;
    var n := StampDay(from);
    var i :| 0 <= i < |keys| && keys[i] == key;
    assert i > 0 && keys[i] == Days(n + 1, last)[i - 1];
    k := n + i;
  }

  lemma SameTextSameDay(n: int, k: int)
    requires FourDigitDay(k) && IsoOfDay(n) == IsoOfDay(k)
    ensures n == k
  {
    hide IsoOfDay, FourDigitDay, HasShape, DayNumber;
    IsoIsDayText(k);
    ShapedDay(n);
    IsoIsDayText(n);
  }

  lemma DayIsKey(keys: seq<string>, from: string, to: string, last: int, k: int)
    requires HasShape(from) && SeededUpTo(keys, from, to, last) && StampDay(from) < k <= last
    ensures IsoOfDay(k) in keys
  {
    hide IsoOfDay, StringLess, StampDay;
    var n := StampDay(from);
    assert keys[1 + k - (n + 1)] == Days(n + 1, last)[k - (n + 1)] == IsoOfDay(k);
  }

  lemma BetweenFourDigits(n: int, k: int, m: int)
    requires FourDigitDay(n) && FourDigitDay(m) && n <= k <= m
    ensures FourDigitDay(k)
  {
    hide FourDigitDay, DayFromYear;
    FourDigitIff(n);
    FourDigitIff(k);
    FourDigitIff(m);
  }

  /** A day up to one whose text is not beyond `to` is seeded. */
  lemma ReachedByLoop(keys: seq<string>, from: string, to: string, last: int, k: int, m: int)
    requires HasShape(from) && SeededUpTo(keys, from, to, last)
    requires from == IsoOfDay(StampDay(from)) && FourDigitDay(m) && StringAtMost(IsoOfDay(m), to)
    requires StampDay(from) <= k <= m
    ensures IsoOfDay(k) in keys
  {
    hide IsoOfDay, FourDigitDay, StringLess, StringAtMost, StampDay, HasShape;
    var n := StampDay(from);
    if k == n {
      assert keys[0] == from;
    } else if k <= last {
      DayIsKey(keys, from, to, last, k);
    } else {
      ShapedDay(n);
      BetweenFourDigits(n, last + 1, m);
      NotLater(last + 1, m);
      StringAtMostTransitive(IsoOfDay(last + 1), IsoOfDay(m), to);
    }
  }

  lemma NotLater(k: int, m: int)
    requires FourDigitDay(k) && FourDigitDay(m) && k <= m
    ensures StringAtMost(IsoOfDay(k), IsoOfDay(m))
  {
    hide IsoOfDay, FourDigitDay;
    IsoOrder(m, k);
  }

  /**
   * The exact condition on the two texts: nothing is fetched at all, or the range starts on a date and the
   * day its end stands for has a text that is not beyond the end as written.
   */
  lemma NothingDroppedIff(keys: seq<string>, from: string, to: string)
    requires HasShape(from) && HasShape(to) && StringAtMost(from, to) && SeededKeys(keys, from, to)
    ensures
      var n, m := StampDay(from), StampDay(to);
      NothingDropped(keys, n, m) <==>
        (m < n || (from == IsoOfDay(n) && FourDigitDay(m) && StringAtMost(IsoOfDay(m), to)))
  {
    hide IsoOfDay, FourDigitDay, StringLess, StringAtMost, StampDay, HasShape, NothingDropped, SeededUpTo;
    var n, m := StampDay(from), StampDay(to);
    var last :| SeededUpTo(keys, from, to, last);
    NothingDroppedByDay(keys, n, m);
    if n <= m && NothingDropped(keys, n, m) {
      assert IsoOfDay(n) in keys && IsoOfDay(m) in keys;
      if IsoOfDay(n) != from {
        var k := KeyIs(keys, from, to, last, IsoOfDay(n));
        SameTextSameDay(n, k);
      }
      if IsoOfDay(m) != from {
        var k := KeyIs(keys, from, to, last, IsoOfDay(m));
        SameTextSameDay(m, k);
      } else {
        ShapedDay(m);
      }
    }
    if n <= m && from == IsoOfDay(n) && FourDigitDay(m) && StringAtMost(IsoOfDay(m), to) {
      forall k | n <= k <= m ensures IsoOfDay(k) in keys {
        ReachedByLoop(keys, from, to, last, k, m);
      }
    }
  }

  /** Valid dates in order never drop a row. */
  lemma ValidRangesDropNothing(keys: seq<string>, from: string, to: string)
    requires IsDayText(from) && IsDayText(to) && StringAtMost(from, to) && SeededKeys(keys, from, to)
    ensures NothingDropped(keys, DayNumber(from), DayNumber(to))
  {
    hide IsoOfDay, FourDigitDay, StringLess, StampDay, HasShape, NothingDropped, SeededKeys, ValidDate, FieldsOf, DayNumber;
    ValidStamp(from);
    ValidStamp(to);
    DayTextIsIso(from);
    DayTextIsIso(to);
    StringAtMostSelf(to);
    NothingDroppedIff(keys, from, to);
  }

  lemma {:induction false} StringAtMostSelf(s: string)
    ensures StringAtMost(s, s)
  {
    if s != [] { StringAtMostSelf(s[1..]); }
  }

  // ---- two ends that are no dates

  lemma ReadFields(y: string, m: string, d: string)
    requires |y| == 4 && |m| == |d| == 2 && AllDigits(y) && AllDigits(m) && AllDigits(d)
    ensures
      var s := y + "-" + m + "-" + d;
      HasShape(s) && FieldsOf(s) == Date(ParseNat(y), ParseNat(m), ParseNat(d))
  {
    hide AllDigits, ParseNat;
    var s := y + "-" + m + "-" + d;
    assert s[..4] == y && s[5..7] == m && s[8..] == d;
  }

  lemma Numerals()
    ensures AllDigits("2026") && AllDigits("01") && AllDigits("02") && AllDigits("03") && AllDigits("31") && AllDigits("00")
    ensures ParseNat("2026") == 2026 && ParseNat("01") == 1 && ParseNat("02") == 2 && ParseNat("03") == 3
    ensures ParseNat("31") == 31 && ParseNat("00") == 0
  {
    assert "2026"[..3] == "202" && "202"[..2] == "20" && "20"[..1] == "2" && "2"[..0] == "";
    assert ParseNat("20") == 20 && ParseNat("202") == 202;
    assert "01"[..1] == "0" && "02"[..1] == "0" && "03"[..1] == "0" && "31"[..1] == "3" && "00"[..1] == "0";
    assert "0"[..0] == "" && "3"[..0] == "";
  }

  /** The text y-m-d of a valid date is the text of its day. */
  lemma TextOfDay(y: string, m: string, d: string)
    requires |y| == 4 && |m| == |d| == 2 && AllDigits(y) && AllDigits(m) && AllDigits(d)
    requires ParseNat(y) >= 1000 && ValidDate(Date(ParseNat(y), ParseNat(m), ParseNat(d)))
    ensures
      var s := y + "-" + m + "-" + d;
      var n := DayOfDate(Date(ParseNat(y), ParseNat(m), ParseNat(d)));
      IsDayText(s) && IsoOfDay(n) == s && FourDigitDay(n)
  {
    hide AllDigits, ParseNat, IsoOfDay, FourDigitDay, HasShape, FieldsOf, ValidDate, DayOfDate;
    ReadFields(y, m, d);
    DayTextIsIso(y + "-" + m + "-" + d);
  }

  lemma CarriedOver()
    ensures UtcDay(2026, 1, 31) == DayOfDate(Date(2026, 3, 3))
    ensures UtcDay(2026, 1, 0) == DayOfDate(Date(2026, 1, 31))
    ensures UtcDay(2026, 0, 1) == DayOfDate(Date(2026, 1, 1)) <= DayOfDate(Date(2026, 3, 3))
  {
    hide DayFromYear;
  }

  lemma StampOf(y: string, m: string, d: string)
    requires |y| == 4 && |m| == |d| == 2 && AllDigits(y) && AllDigits(m) && AllDigits(d)
    ensures
      var s := y + "-" + m + "-" + d;
      HasShape(s) && StampDay(s) == UtcDay(ParseNat(y), ParseNat(m) - 1, ParseNat(d))
  {
    hide AllDigits, ParseNat, HasShape, FieldsOf, UtcDay;
    ReadFields(y, m, d);
  }

  /** 31 February stands for 3 March, day 0 of February for 31 January. */
  lemma StampDays()
    ensures
      && HasShape("2026-02-31") && StampDay("2026-02-31") == DayOfDate(Date(2026, 3, 3))
      && HasShape("2026-02-00") && StampDay("2026-02-00") == DayOfDate(Date(2026, 1, 31))
      && HasShape("2026-01-01") && StampDay("2026-01-01") == DayOfDate(Date(2026, 1, 1))
  {
    hide HasShape, FieldsOf, AllDigits, ParseNat, StampDay, UtcDay, DayOfDate;
    Numerals();
    StampOf("2026", "02", "31");
    StampOf("2026", "02", "00");
    StampOf("2026", "01", "01");
    CarriedOver();
    assert "2026" + "-" + "02" + "-" + "31" == "2026-02-31";
    assert "2026" + "-" + "02" + "-" + "00" == "2026-02-00";
    assert "2026" + "-" + "01" + "-" + "01" == "2026-01-01";
  }

  lemma Texts()
    ensures IsoOfDay(DayOfDate(Date(2026, 3, 3))) == "2026-03-03" && FourDigitDay(DayOfDate(Date(2026, 3, 3)))
    ensures IsoOfDay(DayOfDate(Date(2026, 1, 31))) == "2026-01-31" && FourDigitDay(DayOfDate(Date(2026, 1, 31)))
    ensures IsoOfDay(DayOfDate(Date(2026, 1, 1))) == "2026-01-01"
  {
    hide AllDigits, ParseNat, IsoOfDay, FourDigitDay, DayOfDate, HasShape, FieldsOf;
    Numerals();
    TextOfDay("2026", "03", "03");
    TextOfDay("2026", "01", "31");
    TextOfDay("2026", "01", "01");
    assert "2026" + "-" + "03" + "-" + "03" == "2026-03-03";
    assert "2026" + "-" + "01" + "-" + "31" == "2026-01-31";
    assert "2026" + "-" + "01" + "-" + "01" == "2026-01-01";
  }

  lemma StringOrders()
    ensures !StringAtMost("2026-03-03", "2026-02-31") && StringAtMost("2026-01-31", "2026-02-00")
    ensures StringAtMost("2026-01-01", "2026-02-31") && StringAtMost("2026-01-01", "2026-02-00")
  {
    assert "2026-03-03" == "2026-0" + "3-03" && "2026-02-31" == "2026-0" + "2-31";
    assert "2026-01-31" == "2026-0" + "1-31" && "2026-02-00" == "2026-0" + "2-00" && "2026-01-01" == "2026-0" + "1-01";
    StringLessPrefix("2026-0", "2-31", "3-03");
    StringLessPrefix("2026-0", "2-00", "1-31");
    StringLessPrefix("2026-0", "2-31", "1-01");
    StringLessPrefix("2026-0", "2-00", "1-01");
  }

  /** A range that ends on 31 February drops rows the query fetches. */
  lemma LateEndDropsRows(keys: seq<string>)
    requires HasShape("2026-01-01") && SeededKeys(keys, "2026-01-01", "2026-02-31")
    ensures HasShape("2026-02-31") && !NothingDropped(keys, StampDay("2026-01-01"), StampDay("2026-02-31"))
  {
    hide HasShape, SeededKeys, IsoOfDay, FourDigitDay, StringLess, StringAtMost, StampDay, NothingDropped, DayOfDate;
    StampDays();
    Texts();
    StringOrders();
    CarriedOver();
    NothingDroppedIff(keys, "2026-01-01", "2026-02-31");
  }

  /** A range that ends on day 0 of February is no date either, and drops nothing. */
  lemma DayZeroDropsNothing(keys: seq<string>)
    requires HasShape("2026-01-01") && SeededKeys(keys, "2026-01-01", "2026-02-00")
    ensures HasShape("2026-02-00") && !IsDayText("2026-02-00")
    ensures NothingDropped(keys, StampDay("2026-01-01"), StampDay("2026-02-00"))
  {
    hide HasShape, SeededKeys, IsoOfDay, FourDigitDay, StringLess, StringAtMost, StampDay, NothingDropped, ParseNat, AllDigits,
         DayOfDate;
    StampDays();
    Texts();
    StringOrders();
    Numerals();
    ReadFields("2026", "02", "00");
    assert "2026" + "-" + "02" + "-" + "00" == "2026-02-00";
    NothingDroppedIff(keys, "2026-01-01", "2026-02-00");
  }
}
