/**
 * The branch cash ledger: custody bags still held at a branch, added up branch by branch, printed,
 * sorted and totalled, with money that names no branch kept apart.
 */
module BranchLedger {
  import opened Wrappers
  import opened Fixed4
  import opened KeyedSums

  datatype CustodyStatus = PendingDeposit | AwaitingVerification | Verified | Rejected

  datatype Bag = Bag(
    branchId: Option<string>, amount: int, status: CustodyStatus, hasDepositLog: bool, receivedFromDriverAt: int)

  /** `custodyBranch` is the branch of the linked bag, if there is one. */
  datatype BankDeposit = BankDeposit(custodyBranch: Option<string>, amount: int, verified: bool, verifiedAt: int)

  datatype Window = Window(from: int, to: int)

  datatype LedgerRow = LedgerRow(
    branchId: string, branchName: string, currentBranchCash: string, openBagCount: nat,
    incomingKd: Option<string>, outgoingKd: Option<string>)

  datatype Ledger = Ledger(
    branches: seq<LedgerRow>, unattributedCustodyKd: string, unattributedCustodyBagCount: nat,
    unattributedDepositKd: Option<string>, totalCurrentBranchCash: string)

  // ---- the queries; an empty branch id filters nothing

  function HeldItems(bags: seq<Bag>, branch: Option<string>): seq<Item> {
    if bags == [] then []
    else
      var b := bags[|bags| - 1];
      HeldItems(bags[..|bags| - 1], branch) +
      if (!Named(branch) || b.branchId == branch) && b.status != Rejected && !b.hasDepositLog
      then [Item(b.branchId, b.amount)] else []
  }

  function IncomingItems(bags: seq<Bag>, branch: Option<string>, w: Window): seq<Item> {
    if bags == [] then []
    else
      var b := bags[|bags| - 1];
      IncomingItems(bags[..|bags| - 1], branch, w) +
      if (!Named(branch) || b.branchId == branch) && w.from <= b.receivedFromDriverAt <= w.to && b.status != Rejected
      then [Item(b.branchId, b.amount)] else []
  }

  function OutgoingItems(deposits: seq<BankDeposit>, branch: Option<string>, w: Window): seq<Item> {
    if deposits == [] then []
    else
      var d := deposits[|deposits| - 1];
      OutgoingItems(deposits[..|deposits| - 1], branch, w) +
      if (!Named(branch) || d.custodyBranch == branch) && d.verified && w.from <= d.verifiedAt <= w.to
      then [Item(d.custodyBranch, d.amount)] else []
  }

  // ---- the aggregation loops

  datatype Held = Held(minor: int, bagCount: nat)

  /** The ids met among the items so far, with what each holds. */
  ghost predicate HeldSoFar(ids: seq<string>, agg: map<string, Held>, items: seq<Item>) {
    && Distinct(ids) && (forall id :: id in ids <==> id in agg)
    && (forall id :: id in agg ==> CountFor(items, id) > 0 && agg[id] == Held(SumFor(items, id), CountFor(items, id)))
    && (forall id :: id !in agg ==> SumFor(items, id) == 0 && CountFor(items, id) == 0)
  }

  method AggregateHeld(items: seq<Item>)
    returns (ids: seq<string>, agg: map<string, Held>, unattributedMinor: int, unattributedBagCount: nat)
    ensures Distinct(ids) && Covers(ids, items) && agg.Keys == (set id | id in ids)
    ensures forall id :: id in ids ==> CountFor(items, id) > 0
    ensures forall id :: id in agg ==> agg[id] == Held(SumFor(items, id), CountFor(items, id))
    ensures unattributedMinor == UnkeyedSum(items) && unattributedBagCount == UnkeyedCount(items)
  {
    hide SumFor, CountFor, UnkeyedSum, UnkeyedCount;
    assert items[..0] == [];
    ids, agg, unattributedMinor, unattributedBagCount := [], map[], 0, 0;
    NoItems();
    var i := 0;
    while i < |items|
      invariant 0 <= i <= |items|
      invariant HeldSoFar(ids, agg, items[..i]) && Covers(ids, items[..i])
      invariant unattributedMinor == UnkeyedSum(items[..i]) && unattributedBagCount == UnkeyedCount(items[..i])
    {
      var bag := items[i];
      OneMore(items, i);
      if !Named(bag.key) {
        unattributedMinor := unattributedMinor + bag.amount;
        unattributedBagCount := unattributedBagCount + 1;
        assert HeldSoFar(ids, agg, items[..i + 1]);
      } else {
        var id := bag.key.value;
        var prev := if id in agg then agg[id] else Held(0, 0);
        HeldStep(ids, agg, items, i);
        if id !in agg { ids := ids + [id]; }
        agg := agg[id := Held(prev.minor + bag.amount, prev.bagCount + 1)];
      }
      i := i + 1;
    }
    assert items[..i] == items;
  }

  lemma HeldStep(ids: seq<string>, agg: map<string, Held>, items: seq<Item>, i: nat)
    requires i < |items| && HeldSoFar(ids, agg, items[..i]) && Named(items[i].key)
    ensures
      var id := items[i].key.value;
      var prev := if id in agg then agg[id] else Held(0, 0);
      HeldSoFar(if id in agg then ids else ids + [id],
                agg[id := Held(prev.minor + items[i].amount, prev.bagCount + 1)], items[..i + 1])
  {
    hide SumFor, CountFor, UnkeyedSum, UnkeyedCount;
    OneMore(items, i);
  }

  /** Adds a flow up by branch; a branch seen for the first time joins the list of ids. */
  method AggregateFlow(seen: seq<string>, items: seq<Item>)
    returns (ids: seq<string>, flow: map<string, int>, unattributedMinor: int)
    requires Distinct(seen)
    ensures Distinct(ids) && seen <= ids && Covers(ids, items)
    ensures forall id :: id in ids ==> id in seen || CountFor(items, id) > 0
    ensures forall id :: (if id in flow then flow[id] else 0) == SumFor(items, id)
    ensures unattributedMinor == UnkeyedSum(items)
  {
    assert items[..0] == [];
    ids, flow, unattributedMinor := seen, map[], 0;
    hide SumFor, CountFor, UnkeyedSum, UnkeyedCount;
    NoItems();
    var i := 0;
    while i < |items|
      invariant 0 <= i <= |items|
      invariant Distinct(ids) && seen <= ids && Covers(ids, items[..i])
      invariant forall id :: id in ids ==> id in seen || CountFor(items[..i], id) > 0
      invariant forall id :: (if id in flow then flow[id] else 0) == SumFor(items[..i], id)
      invariant unattributedMinor == UnkeyedSum(items[..i])
    {
      var x := items[i];
      OneMore(items, i);
      if !Named(x.key) {
        unattributedMinor := unattributedMinor + x.amount;
      } else {
        var id := x.key.value;
        if id !in ids { ids := ids + [id]; }
        flow := flow[id := (if id in flow then flow[id] else 0) + x.amount];
      }
      i := i + 1;
    }
    assert items[..i] == items;
  }

  // ---- rows

  function CashMinor(r: LedgerRow): int {
    match Fixed4ToMinor(r.currentBranchCash)
    case Ok(m) => m
    case Err(_) => 0
  }

  function CashTexts(rows: seq<LedgerRow>): (t: seq<string>)
    ensures |t| == |rows| && forall i :: 0 <= i < |rows| ==> t[i] == rows[i].currentBranchCash
  {
    seq(|rows|, i requires 0 <= i < |rows| => rows[i].currentBranchCash)
  }

  function CashMinors(rows: seq<LedgerRow>): (v: seq<int>)
    ensures |v| == |rows| && forall i :: 0 <= i < |rows| ==> v[i] == CashMinor(rows[i])
  {
    seq(|rows|, i requires 0 <= i < |rows| => CashMinor(rows[i]))
  }

  type NameOrder = (string, string) -> bool

  /** Largest cash first, then by name. */
  predicate RowBefore(nameAtMost: NameOrder, a: LedgerRow, b: LedgerRow) {
    CashMinor(a) > CashMinor(b) || (CashMinor(a) == CashMinor(b) && nameAtMost(a.branchName, b.branchName))
  }

  function InsertRow(nameAtMost: NameOrder, rows: seq<LedgerRow>, r: LedgerRow): seq<LedgerRow> {
    if rows == [] || RowBefore(nameAtMost, rows[|rows| - 1], r) then rows + [r]
    else InsertRow(nameAtMost, rows[..|rows| - 1], r) + [rows[|rows| - 1]]
  }

  function SortRows(nameAtMost: NameOrder, rows: seq<LedgerRow>): seq<LedgerRow> {
    if rows == [] then []
    else InsertRow(nameAtMost, SortRows(nameAtMost, rows[..|rows| - 1]), rows[|rows| - 1])
  }

  ghost predicate LargestFirst(rows: seq<LedgerRow>) {
    forall i, j :: 0 <= i < j < |rows| ==> CashMinor(rows[i]) >= CashMinor(rows[j])
  }

  /** Inserting keeps the order, the rows and the sum. */
  lemma {:induction false} InsertRowFacts(nameAtMost: NameOrder, rows: seq<LedgerRow>, r: LedgerRow)
    requires LargestFirst(rows)
    ensures LargestFirst(InsertRow(nameAtMost, rows, r))
    ensures multiset(InsertRow(nameAtMost, rows, r)) == multiset(rows) + multiset{r}
    ensures SumMinor(CashMinors(InsertRow(nameAtMost, rows, r))) == SumMinor(CashMinors(rows)) + CashMinor(r)
  {
    hide CashMinor, SumMinor;
    if rows == [] || RowBefore(nameAtMost, rows[|rows| - 1], r) {
      CashMinorsSnoc(rows, r);
    } else {
      var n := |rows| - 1;
      assert rows == rows[..n] + [rows[n]];
      InsertRowFacts(nameAtMost, rows[..n], r);
      var t := InsertRow(nameAtMost, rows[..n], r);
      CashMinorsSnoc(t, rows[n]);
      CashMinorsSnoc(rows[..n], rows[n]);
      forall i | 0 <= i < |t| ensures CashMinor(t[i]) >= CashMinor(rows[n]) {
        assert t[i] in multiset(t);
        if t[i] != r { assert t[i] in multiset(rows[..n]); }
      }
    }
  }

  lemma CashMinorsSnoc(rows: seq<LedgerRow>, r: LedgerRow)
    ensures SumMinor(CashMinors(rows + [r])) == SumMinor(CashMinors(rows)) + CashMinor(r)
  {
    hide CashMinor, SumMinor;
    assert CashMinors(rows + [r]) == CashMinors(rows) + [CashMinor(r)];
    SumMinorSnoc(CashMinors(rows), CashMinor(r));
  }

  lemma {:induction false} SortRowsFacts(nameAtMost: NameOrder, rows: seq<LedgerRow>)
    ensures LargestFirst(SortRows(nameAtMost, rows))
    ensures multiset(SortRows(nameAtMost, rows)) == multiset(rows)
    ensures |SortRows(nameAtMost, rows)| == |rows|
    ensures SumMinor(CashMinors(SortRows(nameAtMost, rows))) == SumMinor(CashMinors(rows))
  {
    hide CashMinor, SumMinor, InsertRow;
    if rows != [] {
      var n := |rows| - 1;
      assert rows == rows[..n] + [rows[n]];
      SortRowsFacts(nameAtMost, rows[..n]);
      InsertRowFacts(nameAtMost, SortRows(nameAtMost, rows[..n]), rows[n]);
      CashMinorsSnoc(rows[..n], rows[n]);
    }
    assert |multiset(SortRows(nameAtMost, rows))| == |multiset(rows)|;
  }

  /** Comparing names is total and transitive, as a collator's comparison is. */
  ghost predicate OrdersNames(nameAtMost: NameOrder) {
    && (forall a, b :: nameAtMost(a, b) || nameAtMost(b, a))
    && (forall a, b, c :: nameAtMost(a, b) && nameAtMost(b, c) ==> nameAtMost(a, c))
  }

  /** Largest cash first, rows of equal cash by name. */
  ghost predicate RowsInOrder(nameAtMost: NameOrder, rows: seq<LedgerRow>) {
    forall i, j :: 0 <= i < j < |rows| ==>
      CashMinor(rows[i]) > CashMinor(rows[j])
      || (CashMinor(rows[i]) == CashMinor(rows[j]) && nameAtMost(rows[i].branchName, rows[j].branchName))
  }

  lemma RowBeforeOrders(nameAtMost: NameOrder)
    requires OrdersNames(nameAtMost)
    ensures forall a, b :: RowBefore(nameAtMost, a, b) || RowBefore(nameAtMost, b, a)
    ensures forall a, b, c :: RowBefore(nameAtMost, a, b) && RowBefore(nameAtMost, b, c) ==> RowBefore(nameAtMost, a, c)
  {
    hide CashMinor;
  }

  lemma RowsInOrderSnoc(nameAtMost: NameOrder, rows: seq<LedgerRow>, r: LedgerRow)
    requires RowsInOrder(nameAtMost, rows) && forall x :: x in rows ==> RowBefore(nameAtMost, x, r)
    ensures RowsInOrder(nameAtMost, rows + [r])
  {
    hide CashMinor;
    forall i | 0 <= i < |rows| ensures RowBefore(nameAtMost, rows[i], r) { assert rows[i] in rows; }
  }

  lemma BeforeLast(nameAtMost: NameOrder, rows: seq<LedgerRow>, r: LedgerRow)
    requires OrdersNames(nameAtMost) && RowsInOrder(nameAtMost, rows)
    requires rows != [] && RowBefore(nameAtMost, rows[|rows| - 1], r)
    ensures forall x :: x in rows ==> RowBefore(nameAtMost, x, r)
  {
    RowBeforeOrders(nameAtMost);
    hide OrdersNames, CashMinor;
    assert RowBefore(nameAtMost, rows[|rows| - 1], rows[|rows| - 1]);
  }

  lemma {:induction false} InsertRowInOrder(nameAtMost: NameOrder, rows: seq<LedgerRow>, r: LedgerRow)
    requires OrdersNames(nameAtMost) && RowsInOrder(nameAtMost, rows)
    ensures RowsInOrder(nameAtMost, InsertRow(nameAtMost, rows, r))
    ensures forall x :: x in InsertRow(nameAtMost, rows, r) ==> x in rows || x == r
  {
    hide RowBefore, OrdersNames, RowsInOrder;
    if rows == [] || RowBefore(nameAtMost, rows[|rows| - 1], r) {
      if rows != [] { BeforeLast(nameAtMost, rows, r); }
      RowsInOrderSnoc(nameAtMost, rows, r);
    } else {
      var n := |rows| - 1;
      assert rows == rows[..n] + [rows[n]];
      OrderOfPrefix(nameAtMost, rows[..n], rows[n]);
      InsertRowInOrder(nameAtMost, rows[..n], r);
      var t := InsertRow(nameAtMost, rows[..n], r);
      RowBeforeOrders(nameAtMost);
      RowsInOrderSnoc(nameAtMost, t, rows[n]);
    }
  }

  lemma OrderOfPrefix(nameAtMost: NameOrder, init: seq<LedgerRow>, last: LedgerRow)
    requires RowsInOrder(nameAtMost, init + [last])
    ensures RowsInOrder(nameAtMost, init)
    ensures forall x :: x in init ==> RowBefore(nameAtMost, x, last)
  {
    hide CashMinor;
    var rows := init + [last];
    assert forall i :: 0 <= i < |init| ==> rows[i] == init[i];
    assert rows[|init|] == last;
  }

  lemma {:induction false} SortRowsInOrder(nameAtMost: NameOrder, rows: seq<LedgerRow>)
    requires OrdersNames(nameAtMost)
    ensures RowsInOrder(nameAtMost, SortRows(nameAtMost, rows))
  {
    hide InsertRow, OrdersNames, RowsInOrder;
    if rows == [] {
      assert RowsInOrder(nameAtMost, []) by { NoRowsInOrder(nameAtMost); }
    } else {
      SortRowsInOrder(nameAtMost, rows[..|rows| - 1]);
      InsertRowInOrder(nameAtMost, SortRows(nameAtMost, rows[..|rows| - 1]), rows[|rows| - 1]);
    }
  }

  lemma NoRowsInOrder(nameAtMost: NameOrder)
    ensures RowsInOrder(nameAtMost, [])
  {
  }

  lemma {:induction false} InsertRowDistinct(nameAtMost: NameOrder, rows: seq<LedgerRow>, r: LedgerRow)
    requires DistinctBranches(rows) && forall x :: x in rows ==> x.branchId != r.branchId
    ensures DistinctBranches(InsertRow(nameAtMost, rows, r))
    ensures forall x :: x in InsertRow(nameAtMost, rows, r) <==> x in rows || x == r
  {
    hide RowBefore;
    if rows != [] && !RowBefore(nameAtMost, rows[|rows| - 1], r) {
      var n := |rows| - 1;
      InsertRowDistinct(nameAtMost, rows[..n], r);
      var t := InsertRow(nameAtMost, rows[..n], r);
      forall i | 0 <= i < |t| ensures t[i].branchId != rows[n].branchId {
        assert t[i] in t;
        assert rows[n] in rows;
      }
    }
  }

  lemma {:induction false} SortRowsDistinct(nameAtMost: NameOrder, rows: seq<LedgerRow>)
    requires DistinctBranches(rows)
    ensures DistinctBranches(SortRows(nameAtMost, rows))
    ensures forall x :: x in SortRows(nameAtMost, rows) <==> x in rows
  {
    hide InsertRow;
    if rows != [] {
      SortRowsDistinct(nameAtMost, rows[..|rows| - 1]);
      InsertRowDistinct(nameAtMost, SortRows(nameAtMost, rows[..|rows| - 1]), rows[|rows| - 1]);
    }
  }

  // ---- the projection

  /** A row tells the truth about its branch. */
  ghost predicate RowOk(r: LedgerRow, held: seq<Item>, incoming: Option<seq<Item>>, outgoing: Option<seq<Item>>) {
    && r.currentBranchCash == MinorToFixed4(SumFor(held, r.branchId))
    && r.openBagCount == CountFor(held, r.branchId)
    && r.incomingKd == (if incoming.Some? then Some(MinorToFixed4(SumFor(incoming.value, r.branchId))) else None)
    && r.outgoingKd == (if outgoing.Some? then Some(MinorToFixed4(SumFor(outgoing.value, r.branchId))) else None)
  }

  ghost predicate DistinctBranches(rows: seq<LedgerRow>) {
    forall i, j :: 0 <= i < j < |rows| ==> rows[i].branchId != rows[j].branchId
  }

  /** Every branch named by an item has a row. */
  ghost predicate HasRows(rows: seq<LedgerRow>, items: seq<Item>) {
    forall i :: 0 <= i < |items| && Named(items[i].key) ==>
      exists k :: 0 <= k < |rows| && rows[k].branchId == items[i].key.value
  }

  /** The branch holds a bag, or money came in or went out in the window. */
  ghost predicate Active(id: string, held: seq<Item>, incoming: Option<seq<Item>>, outgoing: Option<seq<Item>>) {
    || CountFor(held, id) > 0
    || (incoming.Some? && CountFor(incoming.value, id) > 0)
    || (outgoing.Some? && CountFor(outgoing.value, id) > 0)
  }

  ghost predicate AllActive(ids: seq<string>, held: seq<Item>, incoming: Option<seq<Item>>, outgoing: Option<seq<Item>>) {
    forall id :: id in ids ==> Active(id, held, incoming, outgoing)
  }

  method Project(
      bags: seq<Bag>, deposits: seq<BankDeposit>, branch: Option<string>, window: Option<Window>,
      names: map<string, string>, nameAtMost: NameOrder)
    returns (l: Ledger)
    ensures
      var held := HeldItems(bags, branch);
      var incoming := if window.Some? then Some(IncomingItems(bags, branch, window.value)) else None;
      var outgoing := if window.Some? then Some(OutgoingItems(deposits, branch, window.value)) else None;
      && (forall i :: 0 <= i < |l.branches| ==> RowOk(l.branches[i], held, incoming, outgoing))
      && (forall r :: r in l.branches ==> Active(r.branchId, held, incoming, outgoing))
      && (forall r :: r in l.branches ==> r.branchName == if r.branchId in names then names[r.branchId] else r.branchId)
      && DistinctBranches(l.branches)
      && HasRows(l.branches, held)
      && (incoming.Some? ==> HasRows(l.branches, incoming.value) && HasRows(l.branches, outgoing.value))
      && LargestFirst(l.branches) && (OrdersNames(nameAtMost) ==> RowsInOrder(nameAtMost, l.branches))
      && l.unattributedCustodyKd == MinorToFixed4(UnkeyedSum(held))
      && l.unattributedCustodyBagCount == UnkeyedCount(held)
      && l.unattributedDepositKd == (if outgoing.Some? then Some(MinorToFixed4(UnkeyedSum(outgoing.value))) else None)
      && l.totalCurrentBranchCash == MinorToFixed4(Total(held) - UnkeyedSum(held))
      && SumTexts(CashTexts(l.branches)) == Ok(Total(held) - UnkeyedSum(held))
  {
    hide *;
    var held := HeldItems(bags, branch);
    ghost var incoming := if window.Some? then Some(IncomingItems(bags, branch, window.value)) else None;
    ghost var outgoing := if window.Some? then Some(OutgoingItems(deposits, branch, window.value)) else None;
    var ids, agg, unattributedMinor, unattributedBagCount := AggregateHeld(held);
    var incomingByBranch: map<string, int> := map[];
    var outgoingByBranch: map<string, int> := map[];
    var unattributedDepositMinor: Option<int> := None;
    NothingElsewhere(held, ids);
    HeldIdsAreActive(ids, held, incoming, outgoing);
    ghost var heldIds := ids;
    if window.Some? {
      var ignored: int, u: int;
      ids, incomingByBranch, ignored := AggregateFlow(ids, IncomingItems(bags, branch, window.value));
      MoreIdsCover(heldIds, ids, held);
      ghost var twoIds := ids;
      ids, outgoingByBranch, u := AggregateFlow(ids, OutgoingItems(deposits, branch, window.value));
      MoreIdsCover(twoIds, ids, held);
      MoreIdsCover(twoIds, ids, incoming.value);
      FlowIdsAreActive(heldIds, twoIds, ids, held, incoming, outgoing);
      unattributedDepositMinor := Some(u);
    }
    var rows := MaterialiseRows(held, incoming, outgoing, ids, agg, incomingByBranch, outgoingByBranch, window.Some?, names);
    var sorted := SortRows(nameAtMost, rows);
    var totalCurrentMinor := SumMinor(CashMinors(sorted));
    RowsAreDistinct(ids, rows);
    RowsAreActive(ids, rows, held, incoming, outgoing);
    SortRowsDistinct(nameAtMost, rows);
    if OrdersNames(nameAtMost) { SortRowsInOrder(nameAtMost, rows); }
    TotalOfRows(held, ids, rows, sorted, nameAtMost);
    l := Ledger(sorted, MinorToFixed4(unattributedMinor), unattributedBagCount,
                if unattributedDepositMinor.Some? then Some(MinorToFixed4(unattributedDepositMinor.value)) else None,
                MinorToFixed4(totalCurrentMinor));
    assert forall k :: 0 <= k < |sorted| ==> sorted[k] in sorted;
    RowsForIds(ids, rows, sorted, held);
    if window.Some? {
      RowsForIds(ids, rows, sorted, incoming.value);
      RowsForIds(ids, rows, sorted, outgoing.value);
    }
  }

  lemma MoreIdsCover(a: seq<string>, b: seq<string>, items: seq<Item>)
    requires Covers(a, items) && a <= b
    ensures Covers(b, items)
  {
  }

  lemma HeldIdsAreActive(ids: seq<string>, held: seq<Item>, incoming: Option<seq<Item>>, outgoing: Option<seq<Item>>)
    requires forall id :: id in ids ==> CountFor(held, id) > 0
    ensures AllActive(ids, held, incoming, outgoing)
  {
  }

  lemma FlowIdsAreActive(
      heldIds: seq<string>, twoIds: seq<string>, ids: seq<string>,
      held: seq<Item>, incoming: Option<seq<Item>>, outgoing: Option<seq<Item>>)
    requires incoming.Some? && outgoing.Some? && AllActive(heldIds, held, incoming, outgoing)
    requires forall id :: id in twoIds ==> id in heldIds || CountFor(incoming.value, id) > 0
    requires forall id :: id in ids ==> id in twoIds || CountFor(outgoing.value, id) > 0
    ensures AllActive(ids, held, incoming, outgoing)
  {
    hide CountFor;
  }

  lemma RowsAreActive(
      ids: seq<string>, rows: seq<LedgerRow>, held: seq<Item>, incoming: Option<seq<Item>>, outgoing: Option<seq<Item>>)
    requires AllActive(ids, held, incoming, outgoing)
    requires |rows| == |ids| && forall i :: 0 <= i < |ids| ==> rows[i].branchId == ids[i]
    ensures forall r :: r in rows ==> Active(r.branchId, held, incoming, outgoing)
  {
    hide Active;
    forall i | 0 <= i < |rows| ensures Active(rows[i].branchId, held, incoming, outgoing) {
      assert ids[i] in ids;
    }
  }

  lemma RowsAreDistinct(ids: seq<string>, rows: seq<LedgerRow>)
    requires Distinct(ids) && |rows| == |ids| && forall i :: 0 <= i < |ids| ==> rows[i].branchId == ids[i]
    ensures DistinctBranches(rows)
  {
  }

  /** One row for each id, with zeros where a map has no entry. */
  method MaterialiseRows(
      ghost held: seq<Item>, ghost incoming: Option<seq<Item>>, ghost outgoing: Option<seq<Item>>,
      ids: seq<string>, agg: map<string, Held>, incomingByBranch: map<string, int>, outgoingByBranch: map<string, int>,
      hasWindow: bool, names: map<string, string>)
    returns (rows: seq<LedgerRow>)
    requires forall id :: id in agg ==> agg[id] == Held(SumFor(held, id), CountFor(held, id))
    requires forall id :: id !in agg ==> SumFor(held, id) == 0 && CountFor(held, id) == 0
    requires incoming.Some? <==> hasWindow
    requires outgoing.Some? <==> hasWindow
    requires hasWindow ==> forall id :: (if id in incomingByBranch then incomingByBranch[id] else 0) == SumFor(incoming.value, id)
    requires hasWindow ==> forall id :: (if id in outgoingByBranch then outgoingByBranch[id] else 0) == SumFor(outgoing.value, id)
    ensures |rows| == |ids|
    ensures forall j :: 0 <= j < |rows| ==> rows[j].branchId == ids[j] && RowOk(rows[j], held, incoming, outgoing)
    ensures forall x :: x in rows ==> RowOk(x, held, incoming, outgoing)
    ensures forall x :: x in rows ==> x.branchName == if x.branchId in names then names[x.branchId] else x.branchId
    ensures forall j :: 0 <= j < |rows| ==> rows[j].currentBranchCash == MinorToFixed4(SumFor(held, ids[j]))
  {
    hide MinorToFixed4, SumFor, CountFor;
    rows := [];
    var i := 0;
    while i < |ids|
      invariant 0 <= i == |rows| <= |ids|
      invariant forall j :: 0 <= j < i ==> rows[j].branchId == ids[j] && RowOk(rows[j], held, incoming, outgoing)
      invariant forall x :: x in rows ==> x.branchName == if x.branchId in names then names[x.branchId] else x.branchId
    {
      var id := ids[i];
      var current := if id in agg then agg[id] else Held(0, 0);
      rows := rows + [LedgerRow(
        id, if id in names then names[id] else id, MinorToFixed4(current.minor), current.bagCount,
        if hasWindow then Some(MinorToFixed4(if id in incomingByBranch then incomingByBranch[id] else 0)) else None,
        if hasWindow then Some(MinorToFixed4(if id in outgoingByBranch then outgoingByBranch[id] else 0)) else None)];
      i := i + 1;
    }
  }

  lemma RowsForIds(ids: seq<string>, rows: seq<LedgerRow>, sorted: seq<LedgerRow>, items: seq<Item>)
    requires Covers(ids, items) && |rows| == |ids| && forall i :: 0 <= i < |ids| ==> rows[i].branchId == ids[i]
    requires forall x :: x in rows ==> x in sorted
    ensures HasRows(sorted, items)
  {
    forall i | 0 <= i < |items| && Named(items[i].key)
      ensures exists k :: 0 <= k < |sorted| && sorted[k].branchId == items[i].key.value
    {
      var j :| 0 <= j < |ids| && ids[j] == items[i].key.value;
      assert rows[j] in sorted;
    }
  }

  lemma TotalOfRows(
      held: seq<Item>, ids: seq<string>, rows: seq<LedgerRow>, sorted: seq<LedgerRow>, nameAtMost: NameOrder)
    requires Distinct(ids) && Covers(ids, held) && |rows| == |ids|
    requires forall i :: 0 <= i < |rows| ==> rows[i].currentBranchCash == MinorToFixed4(SumFor(held, ids[i]))
    requires sorted == SortRows(nameAtMost, rows)
    ensures LargestFirst(sorted) && multiset(sorted) == multiset(rows)
    ensures SumMinor(CashMinors(sorted)) == Total(held) - UnkeyedSum(held)
    ensures SumTexts(CashTexts(sorted)) == Ok(Total(held) - UnkeyedSum(held))
  {
    hide MinorToFixed4, Fixed4ToMinor, SumFor, UnkeyedSum, Total, SumMinor, SumTexts, SortRows;
    SortRowsFacts(nameAtMost, rows);
    forall i | 0 <= i < |rows| ensures CashMinor(rows[i]) == SumFor(held, ids[i]) && rows[i].currentBranchCash == MinorToFixed4(CashMinor(rows[i])) {
      ParseOfPrint(SumFor(held, ids[i]));
    }
    assert CashMinors(rows) == SumsFor(held, ids);
    KeysPartition(held, ids);
    forall i | 0 <= i < |sorted| ensures sorted[i].currentBranchCash == MinorToFixed4(CashMinor(sorted[i])) {
      assert sorted[i] in multiset(sorted);
    }
    assert CashTexts(sorted) == PrintAll(CashMinors(sorted));
    SumOfPrinted(CashMinors(sorted));
  }

  // ---- the rows on the fields of bags and deposits

  predicate InScope(branchId: Option<string>, branch: Option<string>, id: string) {
    branchId == Some(id) && id != "" && (branch == None || branch == Some("") || branch == branchId)
  }

  /** The bags of a branch in one status, with a deposit log or without. */
  function BagsAt(bags: seq<Bag>, branch: Option<string>, id: string, status: CustodyStatus, logged: bool): int {
    if bags == [] then 0
    else
      var b := bags[|bags| - 1];
      BagsAt(bags[..|bags| - 1], branch, id, status, logged) +
      if InScope(b.branchId, branch, id) && b.status == status && b.hasDepositLog == logged then b.amount else 0
  }

  /** The bags of a branch in one status received between two instants. */
  function BagsReceived(bags: seq<Bag>, branch: Option<string>, id: string, status: CustodyStatus, from: int, to: int): int {
    if bags == [] then 0
    else
      var b := bags[|bags| - 1];
      BagsReceived(bags[..|bags| - 1], branch, id, status, from, to) +
      if InScope(b.branchId, branch, id) && b.status == status && from <= b.receivedFromDriverAt <= to then b.amount else 0
  }

  /** The deposits of a branch verified between two instants. */
  function DepositsVerified(deposits: seq<BankDeposit>, branch: Option<string>, id: string, from: int, to: int): int {
    if deposits == [] then 0
    else
      var d := deposits[|deposits| - 1];
      DepositsVerified(deposits[..|deposits| - 1], branch, id, from, to) +
      if InScope(d.custodyBranch, branch, id) && d.verified && from <= d.verifiedAt <= to then d.amount else 0
  }

  lemma SumStep(items: seq<Item>, key: Option<string>, amount: int, selected: bool, id: string)
    ensures SumFor(items + (if selected then [Item(key, amount)] else []), id) ==
      SumFor(items, id) + if selected && Named(key) && key.value == id then amount else 0
  {
    hide SumFor;
    if selected { ItemsSnoc(items, Item(key, amount)); } else { assert items + [] == items; }
  }

  lemma {:induction false} HeldOnFields(bags: seq<Bag>, branch: Option<string>, id: string)
    requires id != ""
    ensures SumFor(HeldItems(bags, branch), id) ==
      BagsAt(bags, branch, id, PendingDeposit, false) + BagsAt(bags, branch, id, AwaitingVerification, false)
      + BagsAt(bags, branch, id, Verified, false)
  {
    hide SumFor;
    NoItems();
    if bags != [] {
      var init, b := bags[..|bags| - 1], bags[|bags| - 1];
      HeldOnFields(init, branch, id);
      SumStep(HeldItems(init, branch), b.branchId, b.amount,
              (!Named(branch) || b.branchId == branch) && b.status != Rejected && !b.hasDepositLog, id);
    }
  }

  lemma {:induction false} IncomingOnFields(bags: seq<Bag>, branch: Option<string>, w: Window, id: string)
    requires id != ""
    ensures SumFor(IncomingItems(bags, branch, w), id) ==
      BagsReceived(bags, branch, id, PendingDeposit, w.from, w.to) + BagsReceived(bags, branch, id, AwaitingVerification, w.from, w.to)
      + BagsReceived(bags, branch, id, Verified, w.from, w.to)
  {
    hide SumFor;
    NoItems();
    if bags != [] {
      var init, b := bags[..|bags| - 1], bags[|bags| - 1];
      IncomingOnFields(init, branch, w, id);
      SumStep(IncomingItems(init, branch, w), b.branchId, b.amount,
              (!Named(branch) || b.branchId == branch) && w.from <= b.receivedFromDriverAt <= w.to && b.status != Rejected, id);
    }
  }

  lemma {:induction false} OutgoingOnFields(deposits: seq<BankDeposit>, branch: Option<string>, w: Window, id: string)
    requires id != ""
    ensures SumFor(OutgoingItems(deposits, branch, w), id) == DepositsVerified(deposits, branch, id, w.from, w.to)
  {
    hide SumFor;
    NoItems();
    if deposits != [] {
      var init, d := deposits[..|deposits| - 1], deposits[|deposits| - 1];
      OutgoingOnFields(init, branch, w, id);
      SumStep(OutgoingItems(init, branch, w), d.custodyBranch, d.amount,
              (!Named(branch) || d.custodyBranch == branch) && d.verified && w.from <= d.verifiedAt <= w.to, id);
    }
  }

  /** The bags that name no branch, in one status, with a deposit log or without; a filter by branch leaves none. */
  function BagsNowhere(bags: seq<Bag>, branch: Option<string>, status: CustodyStatus, logged: bool): int {
    if bags == [] then 0
    else
      var b := bags[|bags| - 1];
      BagsNowhere(bags[..|bags| - 1], branch, status, logged) +
      if (b.branchId == None || b.branchId == Some("")) && (branch == None || branch == Some(""))
         && b.status == status && b.hasDepositLog == logged then b.amount else 0
  }

  /** The deposits verified between two instants whose bag names no branch. */
  function DepositsNowhere(deposits: seq<BankDeposit>, branch: Option<string>, from: int, to: int): int {
    if deposits == [] then 0
    else
      var d := deposits[|deposits| - 1];
      DepositsNowhere(deposits[..|deposits| - 1], branch, from, to) +
      if (d.custodyBranch == None || d.custodyBranch == Some("")) && (branch == None || branch == Some(""))
         && d.verified && from <= d.verifiedAt <= to then d.amount else 0
  }

  lemma UnkeyedStep(items: seq<Item>, key: Option<string>, amount: int, selected: bool)
    ensures UnkeyedSum(items + (if selected then [Item(key, amount)] else [])) ==
      UnkeyedSum(items) + if selected && !Named(key) then amount else 0
  {
    hide UnkeyedSum;
    if selected { ItemsSnoc(items, Item(key, amount)); } else { assert items + [] == items; }
  }

  /** The unattributed totals on the fields. */
  lemma {:induction false} UnattributedCustody(bags: seq<Bag>, branch: Option<string>)
    ensures UnkeyedSum(HeldItems(bags, branch)) ==
      BagsNowhere(bags, branch, PendingDeposit, false) + BagsNowhere(bags, branch, AwaitingVerification, false)
      + BagsNowhere(bags, branch, Verified, false)
  {
    hide UnkeyedSum;
    NoItems();
    if bags != [] {
      var init, b := bags[..|bags| - 1], bags[|bags| - 1];
      UnattributedCustody(init, branch);
      UnkeyedStep(HeldItems(init, branch), b.branchId, b.amount,
                  (!Named(branch) || b.branchId == branch) && b.status != Rejected && !b.hasDepositLog);
    }
  }

  lemma {:induction false} UnattributedDeposits(deposits: seq<BankDeposit>, branch: Option<string>, w: Window)
    ensures UnkeyedSum(OutgoingItems(deposits, branch, w)) == DepositsNowhere(deposits, branch, w.from, w.to)
  {
    hide UnkeyedSum;
    NoItems();
    if deposits != [] {
      var init, d := deposits[..|deposits| - 1], deposits[|deposits| - 1];
      UnattributedDeposits(init, branch, w);
      UnkeyedStep(OutgoingItems(init, branch, w), d.custodyBranch, d.amount,
                  (!Named(branch) || d.custodyBranch == branch) && d.verified && w.from <= d.verifiedAt <= w.to);
    }
  }

  /**
   * A printed row on the fields: current cash is the bags pending, awaiting and verified without a deposit log,
   * incoming the same three statuses by the time of receipt, outgoing the verified deposits.
   */
  lemma RowOnFields(bags: seq<Bag>, deposits: seq<BankDeposit>, branch: Option<string>, w: Window, r: LedgerRow)
    requires r.branchId != ""
    requires RowOk(r, HeldItems(bags, branch), Some(IncomingItems(bags, branch, w)), Some(OutgoingItems(deposits, branch, w)))
    ensures
      var id := r.branchId;
      && r.currentBranchCash == MinorToFixed4(
           BagsAt(bags, branch, id, PendingDeposit, false) + BagsAt(bags, branch, id, AwaitingVerification, false)
           + BagsAt(bags, branch, id, Verified, false))
      && r.incomingKd == Some(MinorToFixed4(
           BagsReceived(bags, branch, id, PendingDeposit, w.from, w.to)
           + BagsReceived(bags, branch, id, AwaitingVerification, w.from, w.to) + BagsReceived(bags, branch, id, Verified, w.from, w.to)))
      && r.outgoingKd == Some(MinorToFixed4(DepositsVerified(deposits, branch, id, w.from, w.to)))
  {
    hide MinorToFixed4, SumFor, CountFor, HeldItems, IncomingItems, OutgoingItems;
    HeldOnFields(bags, branch, r.branchId);
    IncomingOnFields(bags, branch, w, r.branchId);
    OutgoingOnFields(deposits, branch, w, r.branchId);
  }

  // ---- incoming money as documented

  /** Every bag received in the window, whatever became of it: what the field is documented to add up. */
  function ReceivedItems(bags: seq<Bag>, branch: Option<string>, w: Window): seq<Item> {
    if bags == [] then []
    else
      var b := bags[|bags| - 1];
      ReceivedItems(bags[..|bags| - 1], branch, w) +
      if (!Named(branch) || b.branchId == branch) && w.from <= b.receivedFromDriverAt <= w.to
      then [Item(b.branchId, b.amount)] else []
  }

  /** The bags received in the window and rejected. */
  function RejectedItems(bags: seq<Bag>, branch: Option<string>, w: Window): seq<Item> {
    if bags == [] then []
    else
      var b := bags[|bags| - 1];
      RejectedItems(bags[..|bags| - 1], branch, w) +
      if (!Named(branch) || b.branchId == branch) && w.from <= b.receivedFromDriverAt <= w.to && b.status == Rejected
      then [Item(b.branchId, b.amount)] else []
  }

  lemma SumIf(items: seq<Item>, selected: bool, b: Bag, id: string)
    ensures SumFor(items + (if selected then [Item(b.branchId, b.amount)] else []), id) ==
      SumFor(items, id) + if selected && Named(b.branchId) && b.branchId.value == id then b.amount else 0
  {
    hide SumFor;
    if selected { ItemsSnoc(items, Item(b.branchId, b.amount)); } else { assert items + [] == items; }
  }

  lemma {:induction false} ReceivedSplits(bags: seq<Bag>, branch: Option<string>, w: Window, id: string)
    ensures SumFor(ReceivedItems(bags, branch, w), id) ==
      SumFor(IncomingItems(bags, branch, w), id) + SumFor(RejectedItems(bags, branch, w), id)
  {
    hide SumFor;
    NoItems();
    if bags != [] {
      var init, b := bags[..|bags| - 1], bags[|bags| - 1];
      ReceivedSplits(init, branch, w, id);
      var here := (!Named(branch) || b.branchId == branch) && w.from <= b.receivedFromDriverAt <= w.to;
      SumIf(ReceivedItems(init, branch, w), here, b, id);
      SumIf(IncomingItems(init, branch, w), here && b.status != Rejected, b, id);
      SumIf(RejectedItems(init, branch, w), here && b.status == Rejected, b, id);
    }
  }

  /** A row shows the documented incoming money exactly when its rejected bags of the window add up to nothing. */
  lemma IncomingIsAsDocumentedIff(bags: seq<Bag>, deposits: seq<BankDeposit>, branch: Option<string>, w: Window, r: LedgerRow)
    requires RowOk(r, HeldItems(bags, branch), Some(IncomingItems(bags, branch, w)), Some(OutgoingItems(deposits, branch, w)))
    ensures r.incomingKd == Some(MinorToFixed4(SumFor(ReceivedItems(bags, branch, w), r.branchId))) <==>
      SumFor(RejectedItems(bags, branch, w), r.branchId) == 0
  {
    hide MinorToFixed4, Fixed4ToMinor, SumFor, ReceivedItems, IncomingItems, RejectedItems;
    ReceivedSplits(bags, branch, w, r.branchId);
    ParseOfPrint(SumFor(ReceivedItems(bags, branch, w), r.branchId));
    ParseOfPrint(SumFor(IncomingItems(bags, branch, w), r.branchId));
  }

  const HELD_BAG := Bag(Some("b"), 20_000, PendingDeposit, false, 0)
  const REJECTED_BAG := Bag(Some("b"), 10_000, Rejected, false, 0)

  /** One bag held and one rejected: two dinars are shown where three were received. */
  method RejectedBagIsLeftOut(names: map<string, string>, nameAtMost: NameOrder) returns (l: Ledger)
    ensures exists r :: r in l.branches && r.branchId == "b" && r.incomingKd == Some(MinorToFixed4(20_000))
    ensures SumFor(ReceivedItems([HELD_BAG, REJECTED_BAG], None, Window(0, 0)), "b") == 30_000
  {
    hide MinorToFixed4, HasRows, RowsInOrder, LargestFirst, SumTexts, Active, OrdersNames;
    var bags := [HELD_BAG, REJECTED_BAG];
    l := Project(bags, [], None, Some(Window(0, 0)), names, nameAtMost);
    RejectedBagItems();
    RowOfBranch(l.branches, HeldItems(bags, None), "b", 0);
    ghost var k :| 0 <= k < |l.branches| && l.branches[k].branchId == "b";
    assert l.branches[k] in l.branches;
  }

  lemma RowOfBranch(rows: seq<LedgerRow>, items: seq<Item>, id: string, i: nat)
    requires HasRows(rows, items) && i < |items| && items[i].key == Some(id) && Named(items[i].key)
    ensures exists k :: 0 <= k < |rows| && rows[k].branchId == id
  {
  }

  lemma RejectedBagItems()
    ensures
      var bags, one := [HELD_BAG, REJECTED_BAG], [Item(Some("b"), 20_000)];
      && HeldItems(bags, None) == one && IncomingItems(bags, None, Window(0, 0)) == one
      && ReceivedItems(bags, None, Window(0, 0)) == one + [Item(Some("b"), 10_000)]
      && SumFor(one, "b") == 20_000 && SumFor(one + [Item(Some("b"), 10_000)], "b") == 30_000
  {
    hide SumFor;
    var w, bags, first := Window(0, 0), [HELD_BAG, REJECTED_BAG], [HELD_BAG];
    assert bags[..1] == first && first[..0] == [];
    assert HeldItems([], None) == [] && IncomingItems([], None, w) == [] && ReceivedItems([], None, w) == [];
    assert HeldItems(first, None) == [Item(Some("b"), 20_000)];
    assert IncomingItems(first, None, w) == [Item(Some("b"), 20_000)];
    assert ReceivedItems(first, None, w) == [Item(Some("b"), 20_000)];
    NoItems();
    assert [Item(Some("b"), 20_000)] == [] + [Item(Some("b"), 20_000)];
    ItemsSnoc([], Item(Some("b"), 20_000));
    ItemsSnoc([Item(Some("b"), 20_000)], Item(Some("b"), 10_000));
  }

  /**
   * The dashboard's guard re-adds the printed rows and compares the text with the printed total.
   * On a projected ledger it never fires.
   */
  method SliceAligned(l: Ledger) returns (aligned: Result<bool, ParseError>)
    ensures match SumTexts(CashTexts(l.branches))
      case Ok(total) => aligned == Ok(l.totalCurrentBranchCash == MinorToFixed4(total))
      case Err(e) => aligned == Err(e)
  {
    var reSum := SumFixed4(CashTexts(l.branches));
    if reSum.Err? {
      return Err(reSum.error);
    }
    return Ok(reSum.value == l.totalCurrentBranchCash);
  }

  method ProjectedSliceNeverDrifts(
      bags: seq<Bag>, deposits: seq<BankDeposit>, branch: Option<string>, window: Option<Window>,
      names: map<string, string>, nameAtMost: NameOrder)
    returns (aligned: Result<bool, ParseError>)
    ensures aligned == Ok(true)
  {
    hide *;
    var l := Project(bags, deposits, branch, window, names, nameAtMost);
    aligned := SliceAligned(l);
  }
}
