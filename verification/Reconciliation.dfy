/**
 * The daily cash reconciliation: what drivers should hand over, what they handed over, what managers
 * received and what reached the bank, with a breakdown by driver.
 */
module Reconciliation {
  import opened Wrappers
  import opened Fixed4
  import opened KeyedSums

  const CRITICAL_MINOR := 50_0000

  datatype CashOrder = CashOrder(amount: int, driverId: Option<string>, handedOver: bool)

  datatype Status = OK | MISMATCH | CRITICAL

  datatype BreakdownRow = BreakdownRow(
    driverId: string, collected: string, handed: string, difference: string, status: Status)

  datatype Report = Report(
    expectedCash: string, handedToBranch: string, receivedByManager: string, depositedToBank: string,
    differenceDriver: string, differenceBranch: string, differenceBank: string, totalDifference: string,
    status: Status, breakdown: seq<BreakdownRow>)

  // ---- what the sums mean

  function Collected(orders: seq<CashOrder>): seq<Item> {
    if orders == [] then []
    else
      var o := orders[|orders| - 1];
      Collected(orders[..|orders| - 1]) + [Item(o.driverId, o.amount)]
  }

  function Handed(orders: seq<CashOrder>): seq<Item> {
    if orders == [] then []
    else
      var o := orders[|orders| - 1];
      Handed(orders[..|orders| - 1]) + if Named(o.driverId) && o.handedOver then [Item(o.driverId, o.amount)] else []
  }

  /** The largest of the differences, regardless of sign. */
  function MaxAbs(diffs: seq<int>): nat {
    if diffs == [] then 0
    else
      var m, d := MaxAbs(diffs[..|diffs| - 1]), Abs(diffs[|diffs| - 1]);
      if d > m then d else m
  }

  function StatusFor(diffs: seq<int>): Status {
    var max := MaxAbs(diffs);
    if max == 0 then OK else if max >= CRITICAL_MINOR then CRITICAL else MISMATCH
  }

  lemma {:induction false} MaxAbsIsMaximum(diffs: seq<int>)
    ensures forall i :: 0 <= i < |diffs| ==> Abs(diffs[i]) <= MaxAbs(diffs)
    ensures MaxAbs(diffs) == 0 || exists i :: 0 <= i < |diffs| && Abs(diffs[i]) == MaxAbs(diffs)
  {
    if diffs != [] { MaxAbsIsMaximum(diffs[..|diffs| - 1]); }
  }

  /** OK means no difference at all; CRITICAL means one of at least 50 KD. */
  lemma StatusMeaning(diffs: seq<int>)
    ensures StatusFor(diffs) == OK <==> forall i :: 0 <= i < |diffs| ==> diffs[i] == 0
    ensures StatusFor(diffs) == CRITICAL <==> exists i :: 0 <= i < |diffs| && (diffs[i] >= 500_000 || diffs[i] <= -500_000)
  {
    MaxAbsIsMaximum(diffs);
    if MaxAbs(diffs) == 0 {
      forall i | 0 <= i < |diffs| ensures diffs[i] == 0 {
        assert Abs(diffs[i]) == 0;
      }
    }
  }

  /** What a breakdown row says about its driver. */
  ghost predicate RowOk(r: BreakdownRow, orders: seq<CashOrder>) {
    var collected, handed := SumFor(Collected(orders), r.driverId), SumFor(Handed(orders), r.driverId);
    && r.collected == MinorToFixed4(collected)
    && r.handed == MinorToFixed4(handed)
    && r.difference == MinorToFixed4(collected - handed)
    && r.status == StatusFor([collected - handed])
  }

  // ---- the sums on the fields of the orders

  /** The cash of one driver (or of none), handed over or not. */
  function CashBy(orders: seq<CashOrder>, driverId: Option<string>, handedOver: bool): int {
    if orders == [] then 0
    else
      var o := orders[|orders| - 1];
      CashBy(orders[..|orders| - 1], driverId, handedOver) +
      if o.driverId == driverId && o.handedOver == handedOver then o.amount else 0
  }

  /** The cash of all orders, and of those no driver has handed over. */
  function AllCash(orders: seq<CashOrder>): int {
    if orders == [] then 0 else AllCash(orders[..|orders| - 1]) + orders[|orders| - 1].amount
  }

  function NotHanded(orders: seq<CashOrder>): int {
    if orders == [] then 0
    else
      var o := orders[|orders| - 1];
      NotHanded(orders[..|orders| - 1]) +
      if o.handedOver && o.driverId != None && o.driverId != Some("") then 0 else o.amount
  }

  lemma {:induction false} CollectedOnFields(orders: seq<CashOrder>, id: string)
    requires id != ""
    ensures SumFor(Collected(orders), id) == CashBy(orders, Some(id), true) + CashBy(orders, Some(id), false)
    ensures SumFor(Handed(orders), id) == CashBy(orders, Some(id), true)
    ensures Total(Collected(orders)) == AllCash(orders)
    ensures Total(Handed(orders)) == AllCash(orders) - NotHanded(orders)
  {
    hide SumFor, Total, Collected, Handed;
    NoItems();
    NoOrders();
    if orders != [] {
      var n := |orders| - 1;
      CollectedOnFields(orders[..n], id);
      assert orders[..n + 1] == orders;
      OneMoreOrder(orders, n);
      var x := Item(orders[n].driverId, orders[n].amount);
      ItemsSnoc(Collected(orders[..n]), x);
      ItemsSnoc(Handed(orders[..n]), x);
    }
  }

  // ---- the loops

  method SumOrders(orders: seq<CashOrder>)
    returns (expectedCash: int, handedToBranch: int, ids: seq<string>,
             collectedByDriver: map<string, int>, handedByDriver: map<string, int>)
    ensures expectedCash == Total(Collected(orders)) && handedToBranch == Total(Handed(orders))
    ensures Distinct(ids) && Covers(ids, Collected(orders)) && Covers(ids, Handed(orders))
    ensures forall id :: id in ids ==> CountFor(Collected(orders), id) > 0
    ensures forall id :: (if id in collectedByDriver then collectedByDriver[id] else 0) == SumFor(Collected(orders), id)
    ensures forall id :: (if id in handedByDriver then handedByDriver[id] else 0) == SumFor(Handed(orders), id)
  {
    hide SumFor, CountFor, Collected, Handed, Total;
    NoItems();
    NoOrders();
    assert orders[..0] == [];
    expectedCash, handedToBranch, ids, collectedByDriver, handedByDriver := 0, 0, [], map[], map[];
    var i := 0;
    while i < |orders|
      invariant 0 <= i <= |orders|
      invariant expectedCash == Total(Collected(orders[..i])) && handedToBranch == Total(Handed(orders[..i]))
      invariant Distinct(ids) && Covers(ids, Collected(orders[..i])) && Covers(ids, Handed(orders[..i]))
      invariant forall id :: id in ids ==> CountFor(Collected(orders[..i]), id) > 0
      invariant forall id :: (if id in collectedByDriver then collectedByDriver[id] else 0) == SumFor(Collected(orders[..i]), id)
      invariant forall id :: (if id in handedByDriver then handedByDriver[id] else 0) == SumFor(Handed(orders[..i]), id)
    {
      var order := orders[i];
      OneMoreOrder(orders, i);
      ItemsSnoc(Collected(orders[..i]), Item(order.driverId, order.amount));
      ItemsSnoc(Handed(orders[..i]), Item(order.driverId, order.amount));
      expectedCash := expectedCash + order.amount;
      if Named(order.driverId) {
        var id := order.driverId.value;
        if id !in ids { ids := ids + [id]; }
        collectedByDriver := AddToMap(collectedByDriver, id, order.amount);
        if order.handedOver {
          handedToBranch := handedToBranch + order.amount;
          handedByDriver := AddToMap(handedByDriver, id, order.amount);
        }
      }
      i := i + 1;
    }
    assert orders[..i] == orders;
  }

  function AddToMap(m: map<string, int>, key: string, amount: int): map<string, int> {
    m[key := (if key in m then m[key] else 0) + amount]
  }

  lemma NoOrders()
    ensures Collected([]) == [] && Handed([]) == [] && Total([]) == 0
  {
  }

  lemma OneMoreOrder(orders: seq<CashOrder>, i: nat)
    requires i < |orders|
    ensures
      var x := Item(orders[i].driverId, orders[i].amount);
      && Collected(orders[..i + 1]) == Collected(orders[..i]) + [x]
      && Handed(orders[..i + 1]) ==
           if Named(x.key) && orders[i].handedOver then Handed(orders[..i]) + [x] else Handed(orders[..i])
  {
    assert orders[..i + 1][..i] == orders[..i] && orders[..i + 1][i] == orders[i];
  }

  method BuildBreakdown(
      ghost orders: seq<CashOrder>, ids: seq<string>, collectedByDriver: map<string, int>, handedByDriver: map<string, int>)
    returns (rows: seq<BreakdownRow>)
    requires forall id :: (if id in collectedByDriver then collectedByDriver[id] else 0) == SumFor(Collected(orders), id)
    requires forall id :: (if id in handedByDriver then handedByDriver[id] else 0) == SumFor(Handed(orders), id)
    ensures |rows| == |ids|
    ensures forall j :: 0 <= j < |rows| ==> rows[j].driverId == ids[j] && RowOk(rows[j], orders)
  {
    hide SumFor, Collected, Handed, MinorToFixed4, StatusFor;
    rows := [];
    var i := 0;
    while i < |ids|
      invariant 0 <= i == |rows| <= |ids|
      invariant forall j :: 0 <= j < i ==> rows[j].driverId == ids[j] && RowOk(rows[j], orders)
    {
      var id := ids[i];
      var collected := if id in collectedByDriver then collectedByDriver[id] else 0;
      var handed := if id in handedByDriver then handedByDriver[id] else 0;
      var difference := collected - handed;
      rows := rows + [BreakdownRow(
        id, MinorToFixed4(collected), MinorToFixed4(handed), MinorToFixed4(difference), StatusFor([difference]))];
      i := i + 1;
    }
  }

  /** The drivers of the breakdown, each once. */
  ghost predicate BreakdownCovers(rows: seq<BreakdownRow>, orders: seq<CashOrder>) {
    exists ids ::
      && Distinct(ids) && Covers(ids, Collected(orders)) && Covers(ids, Handed(orders))
      && (forall id :: id in ids ==> CountFor(Collected(orders), id) > 0)
      && |rows| == |ids|
      && forall j :: 0 <= j < |rows| ==> rows[j].driverId == ids[j] && RowOk(rows[j], orders)
  }

  method ComputeCashReconciliation(orders: seq<CashOrder>, bags: seq<int>, deposits: seq<int>) returns (r: Report)
    ensures
      var expected, handed := Total(Collected(orders)), Total(Handed(orders));
      var received, deposited := SumMinor(bags), SumMinor(deposits);
      && r.expectedCash == MinorToFixed4(expected) && r.handedToBranch == MinorToFixed4(handed)
      && r.receivedByManager == MinorToFixed4(received) && r.depositedToBank == MinorToFixed4(deposited)
      && r.differenceDriver == MinorToFixed4(expected - handed)
      && r.differenceBranch == MinorToFixed4(handed - received)
      && r.differenceBank == MinorToFixed4(received - deposited)
      && r.totalDifference == MinorToFixed4(expected - deposited)
      && r.status == StatusFor([expected - handed, handed - received, received - deposited])
      && BreakdownCovers(r.breakdown, orders)
  {
    hide *;
    var expectedCash, handedToBranch, ids, collectedByDriver, handedByDriver := SumOrders(orders);
    var receivedByManager := SumAll(bags);
    var depositedToBank := SumAll(deposits);
    var differenceDriver := expectedCash - handedToBranch;
    var differenceBranch := handedToBranch - receivedByManager;
    var differenceBank := receivedByManager - depositedToBank;
    var totalDifference := differenceDriver + differenceBranch + differenceBank;
    var breakdown := BuildBreakdown(orders, ids, collectedByDriver, handedByDriver);
    CoversBy(breakdown, orders, ids);
    r := Report(
      MinorToFixed4(expectedCash), MinorToFixed4(handedToBranch), MinorToFixed4(receivedByManager),
      MinorToFixed4(depositedToBank), MinorToFixed4(differenceDriver), MinorToFixed4(differenceBranch),
      MinorToFixed4(differenceBank), MinorToFixed4(totalDifference),
      StatusFor([differenceDriver, differenceBranch, differenceBank]), breakdown);
  }

  lemma CoversBy(rows: seq<BreakdownRow>, orders: seq<CashOrder>, ids: seq<string>)
    requires Distinct(ids) && Covers(ids, Collected(orders)) && Covers(ids, Handed(orders))
    requires forall id :: id in ids ==> CountFor(Collected(orders), id) > 0
    requires |rows| == |ids|
    requires forall j :: 0 <= j < |rows| ==> rows[j].driverId == ids[j] && RowOk(rows[j], orders)
    ensures BreakdownCovers(rows, orders)
  {
    hide Collected, Handed, RowOk;
  }

  method SumAll(values: seq<int>) returns (total: int)
    ensures total == SumMinor(values)
  {
    total := 0;
    var i := 0;
    while i < |values|
      invariant 0 <= i <= |values| && total == SumMinor(values[..i])
    {
      assert values[..i + 1][..i] == values[..i];
      total := total + values[i];
      i := i + 1;
    }
    assert values[..i] == values;
  }

  // ---- the breakdown against the driver difference

  /** The differences the rows print. */
  function Differences(rows: seq<BreakdownRow>, orders: seq<CashOrder>): (v: seq<int>)
    ensures |v| == |rows|
    ensures forall i :: 0 <= i < |rows| ==>
      v[i] == SumFor(Collected(orders), rows[i].driverId) - SumFor(Handed(orders), rows[i].driverId)
  {
    seq(|rows|, i requires 0 <= i < |rows| =>
      SumFor(Collected(orders), rows[i].driverId) - SumFor(Handed(orders), rows[i].driverId))
  }

  lemma {:induction false} SumOfDifferences(a: seq<int>, b: seq<int>, d: seq<int>)
    requires |a| == |b| == |d| && forall i :: 0 <= i < |d| ==> d[i] == a[i] - b[i]
    ensures SumMinor(d) == SumMinor(a) - SumMinor(b)
  {
    if d != [] {
      var n := |d| - 1;
      SumOfDifferences(a[..n], b[..n], d[..n]);
    }
  }

  lemma {:induction false} HandedIsKeyed(orders: seq<CashOrder>)
    ensures UnkeyedSum(Handed(orders)) == 0
  {
    if orders != [] {
      var n := |orders| - 1;
      HandedIsKeyed(orders[..n]);
      var h, o := Handed(orders[..n]), orders[n];
      if Named(o.driverId) && o.handedOver {
        assert Handed(orders) == h + [Item(o.driverId, o.amount)];
        assert (h + [Item(o.driverId, o.amount)])[..|h|] == h;
      } else {
        assert Handed(orders) == h;
      }
    }
  }

  lemma RowDifference(r: BreakdownRow, orders: seq<CashOrder>)
    requires RowOk(r, orders)
    ensures r.difference == MinorToFixed4(SumFor(Collected(orders), r.driverId) - SumFor(Handed(orders), r.driverId))
  {
  }

  /**
   * The printed rows, read back and added up, fall short of the driver difference by exactly the
   * orders that name no driver.
   */
  lemma BreakdownMissesDriverless(rows: seq<BreakdownRow>, orders: seq<CashOrder>)
    requires BreakdownCovers(rows, orders)
    ensures
      var printed := seq(|rows|, i requires 0 <= i < |rows| => rows[i].difference);
      SumTexts(printed)
      == Ok(Total(Collected(orders)) - Total(Handed(orders)) - UnkeyedSum(Collected(orders)))
  {
    hide SumFor, Collected, Handed, MinorToFixed4, SumMinor, SumTexts, Total, UnkeyedSum, RowOk, Covers, Distinct;
    var ids :|
      && Distinct(ids) && Covers(ids, Collected(orders)) && Covers(ids, Handed(orders))
      && |rows| == |ids|
      && forall j :: 0 <= j < |rows| ==> rows[j].driverId == ids[j] && RowOk(rows[j], orders);
    var d := Differences(rows, orders);
    DifferencesAddUp(rows, orders, ids, d);
    SumOfPrinted(d);
    forall i | 0 <= i < |rows| ensures rows[i].difference == MinorToFixed4(d[i]) {
      RowDifference(rows[i], orders);
    }
    assert PrintAll(d) == seq(|rows|, i requires 0 <= i < |rows| => rows[i].difference);
  }

  lemma DifferencesAddUp(rows: seq<BreakdownRow>, orders: seq<CashOrder>, ids: seq<string>, d: seq<int>)
    requires Distinct(ids) && Covers(ids, Collected(orders)) && Covers(ids, Handed(orders))
    requires |rows| == |ids| && forall j :: 0 <= j < |rows| ==> rows[j].driverId == ids[j]
    requires d == Differences(rows, orders)
    ensures SumMinor(d) == Total(Collected(orders)) - Total(Handed(orders)) - UnkeyedSum(Collected(orders))
  {
    hide *;
    KeysPartition(Collected(orders), ids);
    KeysPartition(Handed(orders), ids);
    HandedIsKeyed(orders);
    SumOfDifferences(SumsFor(Collected(orders), ids), SumsFor(Handed(orders), ids), d);
  }

  /** A total difference of zero does not mean the day is clean: a shortage can hide a surplus. */
  lemma ZeroTotalCanBeCritical()
    ensures
      var orders := [CashOrder(60_0000, Some("d"), false)];
      Total(Collected(orders)) - SumMinor([60_0000]) == 0
      && StatusFor([Total(Collected(orders)) - Total(Handed(orders)),
                    Total(Handed(orders)) - SumMinor([60_0000]),
                    SumMinor([60_0000]) - SumMinor([60_0000])]) == CRITICAL
  {
    hide StatusFor;
    var orders := [CashOrder(60_0000, Some("d"), false)];
    var diffs := [60_0000, -60_0000, 0];
    OneUnhandedOrder(orders[0]);
    OneAmount(60_0000);
    StatusMeaning(diffs);
    assert Abs(diffs[0]) >= CRITICAL_MINOR;
  }

  lemma OneUnhandedOrder(o: CashOrder)
    requires !o.handedOver
    ensures Total(Collected([o])) == o.amount && Total(Handed([o])) == 0
  {
    var orders, items := [o], [Item(o.driverId, o.amount)];
    assert orders[..0] == [] && items[..0] == [];
    assert Collected(orders) == items;
  }

  lemma OneAmount(x: int)
    ensures SumMinor([x]) == x
  {
    assert [x][..0] == [];
  }
}
