/**
 * The recovery report on the fields of the history rows: which payments stand behind each printed amount,
 * and which rows behind each count.
 */
module RecoveryAmounts {
  import opened Wrappers
  import opened KuwaitCalendar
  import opened DebtRecovery
  import RecoveryWindow

  // ---- the streams

  /** The first method recorded, in the order confirmed, till, general, is this one. */
  predicate PaidBy(r: TxRow, method_: string) {
    || r.confirmedMethod == Some(method_)
    || (r.confirmedMethod == None && r.posMethod == Some(method_))
    || (r.confirmedMethod == None && r.posMethod == None && r.paymentMethod == Some(method_))
  }

  predicate PaidElectronically(r: TxRow) {
    PaidBy(r, "KNET") || PaidBy(r, "PAYMENT_LINK") || PaidBy(r, "ONLINE")
  }

  /** The row belongs to the stream: activations to the wallet, settlements to the method they were paid by. */
  predicate Joins(r: TxRow, f: Field) {
    match f
    case Recovered => true
    case WalletPart => r.kind == SubscriptionActivation
    case ElectronicPart => r.kind == OrderWalletSettlement && PaidElectronically(r)
    case CashPart => r.kind == OrderWalletSettlement && !PaidElectronically(r)
  }

  lemma ChannelMeans(r: TxRow)
    ensures ChannelOf(r) == Wallet <==> Joins(r, WalletPart)
    ensures ChannelOf(r) == Electronic <==> Joins(r, ElectronicPart)
    ensures ChannelOf(r) == Cash <==> Joins(r, CashPart)
  {
  }

  // ---- rounding

  /** Rounding gives the nearest multiple of the tick, and of two equally near ones that further from zero. */
  lemma RoundIsNearest(x: real, k: int)
    ensures Round4(x) == k as real / 10000.0 <==>
      if x >= 0.0 then k as real - 0.5 <= x * 10000.0 < k as real + 0.5
      else k as real - 0.5 < x * 10000.0 <= k as real + 0.5
  {
    var y := x * 10000.0;
    if x >= 0.0 {
      FloorIs(y + 0.5, k);
    } else {
      assert -x * 10000.0 == -y;
      FloorIs(-y + 0.5, -k);
    }
  }

  lemma FloorIs(y: real, k: int)
    ensures y.Floor == k <==> k as real <= y < k as real + 1.0
  {
  }

  // ---- the rows of one day or of a window

  /** What the rows between two days paid into the stream. */
  function Taken(table: seq<TxRow>, from: int, to: int, f: Field): real {
    if table == [] then 0.0
    else
      var r := table[|table| - 1];
      Taken(table[..|table| - 1], from, to, f) +
      if from <= KuwaitDay(r.createdAt) <= to && r.debtSettled > 0.0 && Joins(r, f) then r.debtSettled else 0.0
  }

  /** The rows of one kind on one day. */
  function RowsOn(table: seq<TxRow>, day: int, kind: Kind): nat {
    if table == [] then 0
    else
      var r := table[|table| - 1];
      RowsOn(table[..|table| - 1], day, kind) + if KuwaitDay(r.createdAt) == day && r.kind == kind then 1 else 0
  }

  // ---- the fold

  lemma AddToMeans(a: Amounts, r: TxRow, x: real, f: Field)
    ensures Get(AddTo(a, ChannelOf(r), x), f) == Get(a, f) + if Joins(r, f) then x else 0.0
  {
    hide Joins, ChannelOf;
    ChannelMeans(r);
    ChannelIsOne(r);
  }

  lemma ChannelIsOne(r: TxRow)
    ensures Joins(r, Recovered)
  {
  }

  /** What the rows paid into the stream. */
  function Paid(rows: seq<TxRow>, f: Field): real {
    if rows == [] then 0.0
    else
      var r := rows[|rows| - 1];
      Paid(rows[..|rows| - 1], f) + if r.debtSettled > 0.0 && Joins(r, f) then r.debtSettled else 0.0
  }

  lemma {:induction false} FoldTotals(keys: seq<string>, rows: seq<TxRow>, f: Field)
    requires forall i :: 0 <= i < |rows| ==> ToKuwaitIsoDay(rows[i].createdAt) in keys
    ensures Get(Fold(Seeded(keys), rows).totals, f) == Paid(rows, f)
  {
    hide ToKuwaitIsoDay, Joins, ChannelOf, AddTo, AddRounded, Count;
    if rows == [] {
      assert Get(ZERO, f) == 0.0;
    } else {
      var n := |rows| - 1;
      FoldTotals(keys, rows[..n], f);
      var s, r := Fold(Seeded(keys), rows[..n]), rows[n];
      FoldKeepsKeys(Seeded(keys), rows[..n]);
      AddToMeans(s.totals, r, r.debtSettled, f);
    }
  }

  lemma PaidSnoc(rows: seq<TxRow>, r: TxRow, f: Field)
    ensures Paid(rows + [r], f) == Paid(rows, f) + if r.debtSettled > 0.0 && Joins(r, f) then r.debtSettled else 0.0
  {
    hide Joins;
    assert (rows + [r])[..|rows|] == rows;
  }

  /** The last row of the table is fetched if its day is in the window. */
  lemma FetchStep(table: seq<TxRow>, n: int, m: int)
    requires table != []
    ensures
      var r, init := table[|table| - 1], Fetch(table[..|table| - 1], StartOfDay(n), StartOfDay(m + 1));
      Fetch(table, StartOfDay(n), StartOfDay(m + 1)) == if n <= KuwaitDay(r.createdAt) <= m then init + [r] else init
  {
    hide StartOfDay, KuwaitDay;
    InWindowIff(n, m, table[|table| - 1].createdAt);
  }

  lemma {:induction false} FetchedIsTaken(table: seq<TxRow>, n: int, m: int, f: Field)
    ensures Paid(Fetch(table, StartOfDay(n), StartOfDay(m + 1)), f) == Taken(table, n, m, f)
  {
    hide Joins, StartOfDay, KuwaitDay, Fetch, Paid;
    if table == [] {
      NothingFetched(n, m);
    } else {
      FetchedIsTaken(table[..|table| - 1], n, m, f);
      FetchStep(table, n, m);
      PaidSnoc(Fetch(table[..|table| - 1], StartOfDay(n), StartOfDay(m + 1)), table[|table| - 1], f);
    }
  }

  lemma NothingFetched(n: int, m: int)
    ensures Fetch([], StartOfDay(n), StartOfDay(m + 1)) == []
    ensures forall f :: Paid([], f) == 0.0
    ensures forall key, f :: PaidOnKey([], key, f) == 0.0
    ensures forall key, kind :: RowsOnKey([], key, kind) == 0
  {
  }

  lemma InWindowIff(n: int, m: int, at: int)
    ensures StartOfDay(n) <= at < StartOfDay(m + 1) <==> n <= KuwaitDay(at) <= m
  {
  }

  /** Each printed total is what the window's rows paid into its stream, rounded once. */
  lemma TotalsMean(n: int, m: int, table: seq<TxRow>, f: Field)
    requires FourDigitDay(n) && FourDigitDay(m) && n <= m
    ensures Get(ReportOf(n, m, table).totals, f) == Round4(Taken(table, n, m, f))
  {
    hide Fold, Taken, Paid, Fetch, Round4, StartOfDay, FourDigitDay, Days, Seeded, ToKuwaitIsoDay;
    var keys, rows := Days(n, m), Fetch(table, StartOfDay(n), StartOfDay(m + 1));
    FetchedInWindow(table, StartOfDay(n), StartOfDay(m + 1));
    forall i | 0 <= i < |rows| ensures ToKuwaitIsoDay(rows[i].createdAt) in keys {
      WindowIsSeeded(n, m, rows[i].createdAt);
    }
    FoldTotals(keys, rows, f);
    FetchedIsTaken(table, n, m, f);
  }

  // ---- one bucket

  predicate OnKey(r: TxRow, key: string) {
    ToKuwaitIsoDay(r.createdAt) == key
  }

  function PaidOnKey(rows: seq<TxRow>, key: string, f: Field): real {
    if rows == [] then 0.0
    else
      var r := rows[|rows| - 1];
      PaidOnKey(rows[..|rows| - 1], key, f) + if OnKey(r, key) && r.debtSettled > 0.0 && Joins(r, f) then r.debtSettled else 0.0
  }

  function RowsOnKey(rows: seq<TxRow>, key: string, kind: Kind): nat {
    if rows == [] then 0
    else
      var r := rows[|rows| - 1];
      RowsOnKey(rows[..|rows| - 1], key, kind) + if OnKey(r, key) && r.kind == kind then 1 else 0
  }

  lemma {:induction false} FoldCounts(keys: seq<string>, rows: seq<TxRow>, key: string)
    requires key in keys
    ensures key in Fold(Seeded(keys), rows).buckets
    ensures
      var b := Fold(Seeded(keys), rows).buckets[key];
      b.dayIso == key && b.settlementCount == RowsOnKey(rows, key, OrderWalletSettlement)
      && b.subscriptionCount == RowsOnKey(rows, key, SubscriptionActivation)
  {
    hide ToKuwaitIsoDay, Joins, ChannelOf, AddTo, AddRounded;
    if rows != [] {
      FoldCounts(keys, rows[..|rows| - 1], key);
    }
  }

  lemma {:induction false} FoldAmounts(keys: seq<string>, rows: seq<TxRow>, key: string, f: Field)
    requires key in keys && forall i :: 0 <= i < |rows| ==> IsFixed4(rows[i].debtSettled)
    ensures key in Fold(Seeded(keys), rows).buckets
    ensures
      var b := Fold(Seeded(keys), rows).buckets[key];
      FixedAmounts(b.amounts) && Get(b.amounts, f) == PaidOnKey(rows, key, f)
  {
    hide ToKuwaitIsoDay, Joins, ChannelOf, AddTo, AddRounded, FixedAmounts, IsFixed4;
    if rows == [] {
      ZeroIsFixed();
      assert Get(ZERO, f) == 0.0;
    } else {
      var n := |rows| - 1;
      FoldAmounts(keys, rows[..n], key, f);
      var b, r := Fold(Seeded(keys), rows[..n]).buckets[key], rows[n];
      if r.debtSettled > 0.0 {
        AddExact(b.amounts, ChannelOf(r), r.debtSettled);
        AddToMeans(b.amounts, r, r.debtSettled, f);
      }
    }
  }

  lemma OnKeySnoc(rows: seq<TxRow>, r: TxRow, key: string, f: Field, kind: Kind)
    ensures PaidOnKey(rows + [r], key, f) ==
      PaidOnKey(rows, key, f) + if OnKey(r, key) && r.debtSettled > 0.0 && Joins(r, f) then r.debtSettled else 0.0
    ensures RowsOnKey(rows + [r], key, kind) == RowsOnKey(rows, key, kind) + if OnKey(r, key) && r.kind == kind then 1 else 0
  {
    hide Joins, OnKey;
    assert (rows + [r])[..|rows|] == rows;
  }

  lemma {:induction false} FetchedOnDay(table: seq<TxRow>, n: int, m: int, k: int, f: Field, kind: Kind)
    requires n <= k <= m && FourDigitDay(k)
    ensures PaidOnKey(Fetch(table, StartOfDay(n), StartOfDay(m + 1)), IsoOfDay(k), f) == Taken(table, k, k, f)
    ensures RowsOnKey(Fetch(table, StartOfDay(n), StartOfDay(m + 1)), IsoOfDay(k), kind) == RowsOn(table, k, kind)
  {
    hide Joins, StartOfDay, KuwaitDay, OnKey, IsoOfDay, FourDigitDay, Fetch, PaidOnKey, RowsOnKey;
    if table == [] {
      NothingFetched(n, m);
    } else {
      var r := table[|table| - 1];
      FetchedOnDay(table[..|table| - 1], n, m, k, f, kind);
      FetchStep(table, n, m);
      OnKeyIff(r, k);
      OnKeySnoc(Fetch(table[..|table| - 1], StartOfDay(n), StartOfDay(m + 1)), r, IsoOfDay(k), f, kind);
    }
  }

  /** The text of a four-digit day names no other day. */
  lemma OnKeyIff(r: TxRow, k: int)
    requires FourDigitDay(k)
    ensures OnKey(r, IsoOfDay(k)) <==> KuwaitDay(r.createdAt) == k
  {
    hide Civil, DateText, FourDigitDay, KuwaitDay;
    if OnKey(r, IsoOfDay(k)) { RecoveryWindow.SameTextSameDay(KuwaitDay(r.createdAt), k); }
  }

  /**
   * The bucket of a day counts the rows of each kind on that day; with four-decimal amounts it holds exactly
   * what that day's rows paid into each stream.
   */
  lemma DayMeans(n: int, m: int, table: seq<TxRow>, k: int, f: Field)
    requires FourDigitDay(n) && FourDigitDay(m) && FourDigitDay(k) && n <= k <= m
    ensures
      var b := ReportOf(n, m, table).days[k - n];
      && b.dayIso == IsoOfDay(k)
      && b.settlementCount == RowsOn(table, k, OrderWalletSettlement)
      && b.subscriptionCount == RowsOn(table, k, SubscriptionActivation)
      && ((forall i :: 0 <= i < |table| ==> IsFixed4(table[i].debtSettled)) ==> Get(b.amounts, f) == Taken(table, k, k, f))
  {
    hide Fold, Taken, Fetch, Round4, StartOfDay, FourDigitDay, Seeded, IsoOfDay, IsFixed4, RowsOn, RowsOnKey, PaidOnKey;
    var keys, rows := Days(n, m), Fetch(table, StartOfDay(n), StartOfDay(m + 1));
    assert keys[k - n] == IsoOfDay(k);
    FoldCounts(keys, rows, IsoOfDay(k));
    FetchedOnDay(table, n, m, k, f, OrderWalletSettlement);
    FetchedOnDay(table, n, m, k, f, SubscriptionActivation);
    if forall i :: 0 <= i < |table| ==> IsFixed4(table[i].debtSettled) {
      FetchedFromTable(table, StartOfDay(n), StartOfDay(m + 1));
      forall i | 0 <= i < |rows| ensures IsFixed4(rows[i].debtSettled) { assert rows[i] in table; }
      FoldAmounts(keys, rows, IsoOfDay(k), f);
    }
  }

  // ---- the default window

  /** Left out or blank, the report covers the thirty days that end today. */
  lemma DefaultsMean(now: int)
    requires FourDigitDay(KuwaitDay(now))
    ensures ResolveTo(now, None) == IsoOfDay(KuwaitDay(now)) == ResolveTo(now, Some(" "))
    ensures ResolveFrom(now, None) == Ok(IsoOfDay(KuwaitDay(now) - 29)) == ResolveFrom(now, Some(" "))
  {
    hide Civil, DateText, FourDigitDay, KuwaitDay, AddKuwaitCalendarDays;
    AddToIso(KuwaitDay(now), -29);
  }
}
