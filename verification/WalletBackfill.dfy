/**
 * The wallet-payment backfill: one audit row per order that ever absorbed wallet credit, keyed by a
 * unique reference, written while other writers may insert rows of their own.
 */
module WalletBackfill {
  import opened Wrappers
  import opened DebtSources
  import opened Fixed4
  import opened KeyedSums
  import opened UniqueRefs

  /** A settlement in the history; `applied` is absent when no wallet credit was used. */
  datatype HistoryRow = HistoryRow(orderId: Option<string>, customerId: string, applied: Option<nat>, createdAt: int)

  datatype Aggregated = Aggregated(orderId: string, customerId: string, totalApplied: int, earliestCreatedAt: int)

  datatype Payment = Payment(customerId: string, source: Source, amount: int, createdAt: int)

  type LedgerRow = Keyed<Payment>

  const PREFIX := "PAYMENT:WALLET:"
  const TOLERANCE := 10  // 0.001 KD

  function SourceRef(orderId: string): string {
    PREFIX + orderId + ":APPLIED"
  }

  lemma SourceRefInjective(a: string, b: string)
    requires SourceRef(a) == SourceRef(b)
    ensures a == b
  {
    assert SourceRef(a)[|PREFIX|..|SourceRef(a)| - 8] == a;
    assert SourceRef(b)[|PREFIX|..|SourceRef(b)| - 8] == b;
  }

  /** The settlements of one customer, or of all. */
  function Candidates(history: seq<HistoryRow>, customer: Option<string>): seq<HistoryRow> {
    if history == [] then []
    else
      var h := history[|history| - 1];
      Candidates(history[..|history| - 1], customer) +
      if h.orderId.Some? && (customer.None? || customer.value == h.customerId) then [h] else []
  }

  /** The amounts that count, keyed by order. */
  function Applied(rows: seq<HistoryRow>): seq<Item> {
    if rows == [] then []
    else
      var h := rows[|rows| - 1];
      Applied(rows[..|rows| - 1]) +
      if Named(h.orderId) && h.applied.Some? then [Item(h.orderId, h.applied.value)] else []
  }

  /** Rows of an order that name no applied amount. */
  function WithoutAmount(rows: seq<HistoryRow>): nat {
    if rows == [] then 0
    else
      var h := rows[|rows| - 1];
      WithoutAmount(rows[..|rows| - 1]) + if Named(h.orderId) && h.applied.None? then 1 else 0
  }

  // ---- aggregation per order

  function IdsOf(orders: seq<Aggregated>): (ids: seq<string>)
    ensures |ids| == |orders| && forall i :: 0 <= i < |orders| ==> ids[i] == orders[i].orderId
  {
    seq(|orders|, i requires 0 <= i < |orders| => orders[i].orderId)
  }

  function Totals(orders: seq<Aggregated>): (v: seq<int>)
    ensures |v| == |orders| && forall i :: 0 <= i < |orders| ==> v[i] == orders[i].totalApplied
  {
    seq(|orders|, i requires 0 <= i < |orders| => orders[i].totalApplied)
  }

  /** Each order once, with the sum of its amounts and the time of its earliest settlement. */
  ghost predicate Aggregates(orders: seq<Aggregated>, rows: seq<HistoryRow>) {
    && Distinct(IdsOf(orders))
    && Covers(IdsOf(orders), Applied(rows))
    && (forall i :: 0 <= i < |orders| ==> orders[i].totalApplied == SumFor(Applied(rows), orders[i].orderId))
    && (forall i :: 0 <= i < |orders| ==> EarliestOf(orders[i], rows, |rows|))
  }

  /** A row counts towards the order. */
  predicate Feeds(h: HistoryRow, orderId: string) {
    orderId != "" && h.orderId == Some(orderId) && h.applied.Some?
  }

  /** Row x is the first row that counts towards the order. */
  ghost predicate FirstFeed(rows: seq<HistoryRow>, x: nat, orderId: string)
    requires x < |rows|
  {
    Feeds(rows[x], orderId) && forall y :: 0 <= y < x ==> !Feeds(rows[y], orderId)
  }

  /** The time is the earliest of the order's rows, the customer that of the first one. */
  ghost predicate EarliestOf(o: Aggregated, rows: seq<HistoryRow>, n: nat)
    requires n <= |rows|
  {
    && (exists x :: 0 <= x < n && Feeds(rows[x], o.orderId) && rows[x].createdAt == o.earliestCreatedAt)
    && (exists x :: 0 <= x < n && FirstFeed(rows, x, o.orderId) && rows[x].customerId == o.customerId)
    && (forall x :: 0 <= x < n && Feeds(rows[x], o.orderId) ==> o.earliestCreatedAt <= rows[x].createdAt)
  }

  ghost predicate AggregatesFirst(orders: seq<Aggregated>, rows: seq<HistoryRow>, n: nat)
    requires n <= |rows|
  {
    && Distinct(IdsOf(orders))
    && Covers(IdsOf(orders), Applied(rows[..n]))
    && (forall i :: 0 <= i < |orders| ==> orders[i].totalApplied == SumFor(Applied(rows[..n]), orders[i].orderId))
    && (forall i :: 0 <= i < |orders| ==> EarliestOf(orders[i], rows, n))
  }

  lemma AppliedSnoc(rows: seq<HistoryRow>, n: nat)
    requires n < |rows|
    ensures
      var h := rows[n];
      Applied(rows[..n + 1]) == Applied(rows[..n]) +
        if Named(h.orderId) && h.applied.Some? then [Item(h.orderId, h.applied.value)] else []
  {
    assert rows[..n + 1][..n] == rows[..n];
  }

  lemma AggregateSkip(orders: seq<Aggregated>, rows: seq<HistoryRow>, n: nat)
    requires n < |rows| && AggregatesFirst(orders, rows, n)
    requires !(Named(rows[n].orderId) && rows[n].applied.Some?)
    ensures AggregatesFirst(orders, rows, n + 1)
  {
    hide SumFor, Applied;
    AppliedSnoc(rows, n);
    assert Applied(rows[..n]) + [] == Applied(rows[..n]);
    forall i | 0 <= i < |orders| ensures EarliestOf(orders[i], rows, n + 1) {
      var x :| 0 <= x < n && Feeds(rows[x], orders[i].orderId) && rows[x].createdAt == orders[i].earliestCreatedAt;
      var y :| 0 <= y < n && FirstFeed(rows, y, orders[i].orderId) && rows[y].customerId == orders[i].customerId;
    }
  }

  lemma AggregateExisting(orders: seq<Aggregated>, rows: seq<HistoryRow>, n: nat, k: nat, next: Aggregated)
    requires n < |rows| && k < |orders| && AggregatesFirst(orders, rows, n)
    requires Feeds(rows[n], orders[k].orderId)
    requires next == orders[k].(
      totalApplied := orders[k].totalApplied + rows[n].applied.value,
      earliestCreatedAt := if rows[n].createdAt < orders[k].earliestCreatedAt then rows[n].createdAt else orders[k].earliestCreatedAt)
    ensures AggregatesFirst(orders[k := next], rows, n + 1)
  {
    hide SumFor, Applied;
    var all := orders[k := next];
    AppliedSnoc(rows, n);
    assert IdsOf(all) == IdsOf(orders);
    assert IdsOf(all)[k] == next.orderId;
    forall i | 0 <= i < |orders|
      ensures all[i].totalApplied == SumFor(Applied(rows[..n + 1]), all[i].orderId) && EarliestOf(all[i], rows, n + 1)
    {
      ItemsSnoc(Applied(rows[..n]), Item(rows[n].orderId, rows[n].applied.value));
      assert IdsOf(orders)[i] == orders[i].orderId;
      EarliestStep(orders[i], all[i], rows, n);
    }
  }

  lemma EarliestStep(o: Aggregated, p: Aggregated, rows: seq<HistoryRow>, n: nat)
    requires n < |rows| && EarliestOf(o, rows, n) && p.orderId == o.orderId && p.customerId == o.customerId
    requires p.earliestCreatedAt ==
      if Feeds(rows[n], o.orderId) && rows[n].createdAt < o.earliestCreatedAt then rows[n].createdAt else o.earliestCreatedAt
    ensures EarliestOf(p, rows, n + 1)
  {
    var x :| 0 <= x < n && Feeds(rows[x], o.orderId) && rows[x].createdAt == o.earliestCreatedAt;
    var y :| 0 <= y < n && FirstFeed(rows, y, o.orderId) && rows[y].customerId == o.customerId;
    assert Feeds(rows[x], p.orderId) && FirstFeed(rows, y, p.orderId);
    if p.earliestCreatedAt != o.earliestCreatedAt {
      assert Feeds(rows[n], p.orderId);
    }
  }

  lemma AggregateNew(orders: seq<Aggregated>, rows: seq<HistoryRow>, n: nat)
    requires n < |rows| && AggregatesFirst(orders, rows, n)
    requires Named(rows[n].orderId) && rows[n].applied.Some? && rows[n].orderId.value !in IdsOf(orders)
    ensures
      var h := rows[n];
      AggregatesFirst(orders + [Aggregated(h.orderId.value, h.customerId, h.applied.value, h.createdAt)], rows, n + 1)
  {
    hide SumFor, Applied;
    var h := rows[n];
    var o := Aggregated(h.orderId.value, h.customerId, h.applied.value, h.createdAt);
    var all := orders + [o];
    AppliedSnoc(rows, n);
    assert IdsOf(all) == IdsOf(orders) + [o.orderId];
    NothingElsewhere(Applied(rows[..n]), IdsOf(orders));
    NotFedBefore(rows, n, IdsOf(orders), o.orderId);
    assert Feeds(rows[n], o.orderId) && FirstFeed(rows, n, o.orderId);
    forall i | 0 <= i < |all|
      ensures all[i].totalApplied == SumFor(Applied(rows[..n + 1]), all[i].orderId) && EarliestOf(all[i], rows, n + 1)
    {
      ItemsSnoc(Applied(rows[..n]), Item(h.orderId, h.applied.value));
      if i < |orders| {
        assert IdsOf(orders)[i] == orders[i].orderId;
        EarliestStep(orders[i], all[i], rows, n);
      }
    }
  }

  lemma {:induction false} AppliedContains(rows: seq<HistoryRow>, n: nat, x: nat)
    requires x < n <= |rows| && Named(rows[x].orderId) && rows[x].applied.Some?
    ensures Item(rows[x].orderId, rows[x].applied.value) in Applied(rows[..n])
  {
    AppliedSnoc(rows, n - 1);
    if x < n - 1 { AppliedContains(rows, n - 1, x); }
  }

  lemma NotFedBefore(rows: seq<HistoryRow>, n: nat, ids: seq<string>, id: string)
    requires n <= |rows| && Covers(ids, Applied(rows[..n])) && id !in ids
    ensures forall x :: 0 <= x < n ==> !Feeds(rows[x], id)
  {
    hide Applied;
    forall x | 0 <= x < n ensures !Feeds(rows[x], id) {
      if Feeds(rows[x], id) { AppliedContains(rows, n, x); }
    }
  }

  method AggregatePerOrder(rows: seq<HistoryRow>)
    returns (orders: seq<Aggregated>, totalAppliedFromTh: int, scanned: nat, skippedNoWalletApplied: nat)
    ensures scanned == |rows|
    ensures skippedNoWalletApplied == WithoutAmount(rows)
    ensures totalAppliedFromTh == Total(Applied(rows))
    ensures Aggregates(orders, rows)
  {
    hide AggregatesFirst, Total, SumFor, Covers;
    orders, totalAppliedFromTh, scanned, skippedNoWalletApplied := [], 0, 0, 0;
    var at: map<string, nat> := map[];
    NothingYet(rows);
    var i := 0;
    while i < |rows|
      invariant 0 <= i <= |rows| && scanned == i
      invariant AggregatesFirst(orders, rows, i)
      invariant totalAppliedFromTh == Total(Applied(rows[..i]))
      invariant skippedNoWalletApplied == WithoutAmount(rows[..i])
      invariant forall k :: 0 <= k < |orders| ==> orders[k].orderId in at
      invariant forall id :: id in at ==> at[id] < |orders| && orders[at[id]].orderId == id
    {
      var th := rows[i];
      scanned := scanned + 1;
      assert rows[..i + 1][..i] == rows[..i];
      AppliedSnoc(rows, i);
      if !Named(th.orderId) {
        AggregateSkip(orders, rows, i);
        assert Applied(rows[..i]) + [] == Applied(rows[..i]);
      } else if th.applied.None? {
        skippedNoWalletApplied := skippedNoWalletApplied + 1;
        AggregateSkip(orders, rows, i);
        assert Applied(rows[..i]) + [] == Applied(rows[..i]);
      } else {
        var amount, id := th.applied.value, th.orderId.value;
        ItemsSnoc(Applied(rows[..i]), Item(th.orderId, amount));
        totalAppliedFromTh := totalAppliedFromTh + amount;
        if id in at {
          var existing := orders[at[id]];
          var next := existing.(
            totalApplied := existing.totalApplied + amount,
            earliestCreatedAt := if th.createdAt < existing.earliestCreatedAt then th.createdAt else existing.earliestCreatedAt);
          AggregateExisting(orders, rows, i, at[id], next);
          orders := orders[at[id] := next];
        } else {
          IdsComeFromOrders(orders);
          AggregateNew(orders, rows, i);
          at := at[id := |orders|];
          orders := orders + [Aggregated(id, th.customerId, amount, th.createdAt)];
        }
      }
      i := i + 1;
    }
    AllAggregated(orders, rows);
    assert rows[..i] == rows;
  }

  lemma IdsComeFromOrders(orders: seq<Aggregated>)
    ensures forall id :: id in IdsOf(orders) ==> exists k :: 0 <= k < |orders| && orders[k].orderId == id
  {
    forall id | id in IdsOf(orders) ensures exists k :: 0 <= k < |orders| && orders[k].orderId == id {
      var k :| 0 <= k < |orders| && IdsOf(orders)[k] == id;
      assert orders[k].orderId == id;
    }
  }

  lemma NothingYet(rows: seq<HistoryRow>)
    ensures AggregatesFirst([], rows, 0) && Total(Applied(rows[..0])) == 0
  {
    assert rows[..0] == [];
  }

  lemma AllAggregated(orders: seq<Aggregated>, rows: seq<HistoryRow>)
    requires AggregatesFirst(orders, rows, |rows|)
    ensures Aggregates(orders, rows)
  {
    assert rows[..|rows|] == rows;
  }

  lemma {:induction false} AppliedIsKeyed(rows: seq<HistoryRow>)
    ensures UnkeyedSum(Applied(rows)) == 0
  {
    if rows != [] {
      var n := |rows| - 1;
      AppliedIsKeyed(rows[..n]);
      var a, h := Applied(rows[..n]), rows[n];
      if Named(h.orderId) && h.applied.Some? {
        assert (a + [Item(h.orderId, h.applied.value)])[..|a|] == a;
      } else {
        assert Applied(rows) == a;
      }
    }
  }

  /** The aggregated amounts are all the amounts. */
  lemma TotalsAddUp(orders: seq<Aggregated>, rows: seq<HistoryRow>)
    requires Aggregates(orders, rows)
    ensures SumMinor(Totals(orders)) == Total(Applied(rows))
  {
    hide SumFor, Applied, Covers, EarliestOf;
    KeysPartition(Applied(rows), IdsOf(orders));
    AppliedIsKeyed(rows);
    assert Totals(orders) == SumsFor(Applied(rows), IdsOf(orders));
  }

  // ---- the shared ledger

  /** The world around the run: what others insert before and after the check for order i, and failures. */
  datatype Env = Env(beforeCheck: nat -> seq<LedgerRow>, beforeInsert: nat -> seq<LedgerRow>, fails: nat -> bool)

  ghost predicate Quiet(env: Env) {
    forall i :: env.beforeCheck(i) == [] && env.beforeInsert(i) == [] && !env.fails(i)
  }

  datatype Counts = Counts(written: nat, skippedExisting: nat, errored: nat)

  datatype Run = Run(table: seq<LedgerRow>, counts: Counts)

  function NewRow(o: Aggregated): LedgerRow {
    Keyed(SourceRef(o.orderId), Payment(o.customerId, PAYMENT, o.totalApplied, o.earliestCreatedAt))
  }

  /** One order: check, perhaps lose a race or fail, perhaps insert. */
  function Step(r: Run, o: Aggregated, env: Env, i: nat): Run {
    var seen := Others(r.table, env.beforeCheck(i));
    if HasRef(seen, SourceRef(o.orderId)) then
      Run(seen, r.counts.(skippedExisting := r.counts.skippedExisting + 1))
    else
      var raced := Others(seen, env.beforeInsert(i));
      if env.fails(i) then Run(raced, r.counts.(errored := r.counts.errored + 1))
      else if HasRef(raced, SourceRef(o.orderId)) then
        Run(raced, r.counts.(skippedExisting := r.counts.skippedExisting + 1))
      else Run(raced + [NewRow(o)], r.counts.(written := r.counts.written + 1))
  }

  function ApplyAll(table: seq<LedgerRow>, orders: seq<Aggregated>, env: Env): Run {
    if orders == [] then Run(table, Counts(0, 0, 0))
    else
      var n := |orders| - 1;
      Step(ApplyAll(table, orders[..n], env), orders[n], env, n)
  }

  method WriteRows(table0: seq<LedgerRow>, orders: seq<Aggregated>, env: Env) returns (r: Run)
    ensures r == ApplyAll(table0, orders, env)
  {
    hide Others, HasRef, NewRow, SourceRef;
    var table := table0;
    var written, skippedExisting, errored := 0, 0, 0;
    var i := 0;
    while i < |orders|
      invariant 0 <= i <= |orders|
      invariant Run(table, Counts(written, skippedExisting, errored)) == ApplyAll(table0, orders[..i], env)
    {
      var order := orders[i];
      assert orders[..i + 1][..i] == orders[..i] && orders[..i + 1][i] == order;
      table := Others(table, env.beforeCheck(i));
      if HasRef(table, SourceRef(order.orderId)) {
        skippedExisting := skippedExisting + 1;
      } else {
        table := Others(table, env.beforeInsert(i));
        if env.fails(i) {
          errored := errored + 1;
        } else if HasRef(table, SourceRef(order.orderId)) {
          skippedExisting := skippedExisting + 1;
        } else {
          table := table + [NewRow(order)];
          written := written + 1;
        }
      }
      i := i + 1;
    }
    assert orders[..i] == orders;
    r := Run(table, Counts(written, skippedExisting, errored));
  }

  // ---- what the run guarantees

  /** Whatever the other writers do, rows are only added, references stay unique, and every order is accounted for. */
  lemma {:induction false} ApplyAllKeeps(table: seq<LedgerRow>, orders: seq<Aggregated>, env: Env)
    requires Unique(table)
    ensures
      var r := ApplyAll(table, orders, env);
      && Unique(r.table) && table <= r.table
      && r.counts.written + r.counts.skippedExisting + r.counts.errored == |orders|
  {
    if orders != [] {
      hide Step;
      var n := |orders| - 1;
      ApplyAllKeeps(table, orders[..n], env);
      StepKeeps(ApplyAll(table, orders[..n], env), orders[n], env, n);
    }
  }

  lemma StepKeeps(r: Run, o: Aggregated, env: Env, i: nat)
    requires Unique(r.table)
    ensures
      var s, before := Step(r, o, env, i), r.counts;
      && Unique(s.table) && r.table <= s.table
      && s.counts.written + s.counts.skippedExisting + s.counts.errored
         == before.written + before.skippedExisting + before.errored + 1
  {
    hide SourceRef, Others;
    OthersKeep(r.table, env.beforeCheck(i));
    OthersKeep(Others(r.table, env.beforeCheck(i)), env.beforeInsert(i));
  }

  /**
   * After an apply without errors every candidate order has its row, and by the unique index exactly
   * one, even when another writer wins the race.
   */
  lemma {:induction false} EveryOrderHasItsRow(table: seq<LedgerRow>, orders: seq<Aggregated>, env: Env, k: nat)
    requires Unique(table) && k < |orders| && ApplyAll(table, orders, env).counts.errored == 0
    ensures HasRef(ApplyAll(table, orders, env).table, SourceRef(orders[k].orderId))
    ensures Unique(ApplyAll(table, orders, env).table)
  {
    hide SourceRef, Step;
    var n := |orders| - 1;
    var r := ApplyAll(table, orders[..n], env);
    ApplyAllKeeps(table, orders, env);
    ApplyAllKeeps(table, orders[..n], env);
    StepSecures(r, orders[n], env, n);
    if k < n {
      EveryOrderHasItsRow(table, orders[..n], env, k);
      RefStays(r.table, ApplyAll(table, orders, env).table, SourceRef(orders[k].orderId));
    }
  }

  /** An order that is not counted as an error has its row afterwards; earlier rows stay. */
  lemma StepSecures(r: Run, o: Aggregated, env: Env, i: nat)
    requires Unique(r.table)
    ensures
      var s := Step(r, o, env, i);
      && r.table <= s.table && s.counts.errored >= r.counts.errored
      && (s.counts.errored == r.counts.errored ==> HasRef(s.table, SourceRef(o.orderId)))
  {
    hide SourceRef, Others;
    var seen := Others(r.table, env.beforeCheck(i));
    OthersKeep(r.table, env.beforeCheck(i));
    OthersKeep(seen, env.beforeInsert(i));
    var s := Step(r, o, env, i);
    if s.counts.written > r.counts.written {
      assert s.table[|s.table| - 1].sourceRef == SourceRef(o.orderId);
    }
  }

  /** A run that finds all its rows in place writes nothing. */
  lemma {:induction false} RerunWritesNothing(table: seq<LedgerRow>, orders: seq<Aggregated>, env: Env)
    requires Unique(table)
    requires forall k :: 0 <= k < |orders| ==> HasRef(table, SourceRef(orders[k].orderId))
    ensures ApplyAll(table, orders, env).counts == Counts(0, |orders|, 0)
  {
    hide SourceRef;
    if orders != [] {
      var n := |orders| - 1;
      RerunWritesNothing(table, orders[..n], env);
      ApplyAllKeeps(table, orders[..n], env);
      var r := ApplyAll(table, orders[..n], env);
      OthersKeep(r.table, env.beforeCheck(n));
      RefStays(table, Others(r.table, env.beforeCheck(n)), SourceRef(orders[n].orderId));
    }
  }

  // ---- the validation

  predicate IsWalletRow(row: LedgerRow, customer: Option<string>) {
    row.row.source == PAYMENT && PREFIX <= row.sourceRef && (customer.None? || customer.value == row.row.customerId)
  }

  function WalletTotal(table: seq<LedgerRow>, customer: Option<string>): int {
    if table == [] then 0
    else
      var row := table[|table| - 1];
      WalletTotal(table[..|table| - 1], customer) + if IsWalletRow(row, customer) then row.row.amount else 0
  }

  /** The amounts of the orders that have no row yet, and of those that have one. */
  function Missing(table: seq<LedgerRow>, orders: seq<Aggregated>): int {
    if orders == [] then 0
    else
      var o := orders[|orders| - 1];
      Missing(table, orders[..|orders| - 1]) + if HasRef(table, SourceRef(o.orderId)) then 0 else o.totalApplied
  }

  function AlreadyThere(table: seq<LedgerRow>, orders: seq<Aggregated>): int {
    if orders == [] then 0
    else
      var o := orders[|orders| - 1];
      AlreadyThere(table, orders[..|orders| - 1]) + if HasRef(table, SourceRef(o.orderId)) then o.totalApplied else 0
  }

  function MissingCount(table: seq<LedgerRow>, orders: seq<Aggregated>): (k: nat)
    ensures k <= |orders|
  {
    if orders == [] then 0
    else
      MissingCount(table, orders[..|orders| - 1])
      + if HasRef(table, SourceRef(orders[|orders| - 1].orderId)) then 0 else 1
  }

  /** What a run counts when nobody else writes: the orders without a row, and those with one. */
  function Expected(table: seq<LedgerRow>, orders: seq<Aggregated>): Counts {
    Counts(MissingCount(table, orders), |orders| - MissingCount(table, orders), 0)
  }

  ghost predicate RefAmong(orders: seq<Aggregated>, ref: string) {
    exists k :: 0 <= k < |orders| && SourceRef(orders[k].orderId) == ref
  }

  /** Orders of the filtered customer, each id once. */
  ghost predicate Targets(orders: seq<Aggregated>, customer: Option<string>) {
    && Distinct(IdsOf(orders))
    && forall i :: 0 <= i < |orders| ==> customer.None? || orders[i].customerId == customer.value
  }

  lemma {:induction false} QuietRun(table: seq<LedgerRow>, orders: seq<Aggregated>, env: Env, customer: Option<string>)
    requires Unique(table) && Quiet(env) && Targets(orders, customer)
    ensures
      var r := ApplyAll(table, orders, env);
      && r.counts == Expected(table, orders)
      && WalletTotal(r.table, customer) == WalletTotal(table, customer) + Missing(table, orders)
      && forall ref :: HasRef(r.table, ref) <==> (HasRef(table, ref) || RefAmong(orders, ref))
  {
    hide SourceRef;
    if orders != [] {
      var n := |orders| - 1;
      var o := orders[n];
      TargetsPrefix(orders, customer);
      QuietRun(table, orders[..n], env, customer);
      var r := ApplyAll(table, orders[..n], env);
      var t := ApplyAll(table, orders, env).table;
      assert env.beforeCheck(n) == [] && env.beforeInsert(n) == [] && !env.fails(n);
      NotAmongEarlier(orders);
      if HasRef(r.table, SourceRef(o.orderId)) {
        assert t == r.table;
      } else {
        assert t == r.table + [NewRow(o)];
        assert t[..|r.table|] == r.table;
        NewRowCounts(o, customer);
        RefAfterAppend(r.table, NewRow(o));
      }
      forall ref ensures HasRef(t, ref) <==> (HasRef(table, ref) || RefAmong(orders, ref)) {
        RefsOfOrders(orders, ref);
      }
    }
  }

  lemma TargetsPrefix(orders: seq<Aggregated>, customer: Option<string>)
    requires orders != [] && Targets(orders, customer)
    ensures Targets(orders[..|orders| - 1], customer)
  {
    assert IdsOf(orders[..|orders| - 1]) == IdsOf(orders)[..|orders| - 1];
  }

  lemma NotAmongEarlier(orders: seq<Aggregated>)
    requires orders != [] && Distinct(IdsOf(orders))
    ensures !RefAmong(orders[..|orders| - 1], SourceRef(orders[|orders| - 1].orderId))
  {
    var n := |orders| - 1;
    forall k | 0 <= k < n ensures SourceRef(orders[n].orderId) != SourceRef(orders[..n][k].orderId) {
      assert IdsOf(orders)[k] != IdsOf(orders)[n];
      if SourceRef(orders[n].orderId) == SourceRef(orders[k].orderId) {
        SourceRefInjective(orders[n].orderId, orders[k].orderId);
      }
    }
  }

  lemma NewRowCounts(o: Aggregated, customer: Option<string>)
    requires customer.None? || o.customerId == customer.value
    ensures IsWalletRow(NewRow(o), customer)
  {
  }

  lemma RefsOfOrders(orders: seq<Aggregated>, ref: string)
    requires orders != []
    ensures RefAmong(orders, ref) <==>
      (RefAmong(orders[..|orders| - 1], ref) || ref == SourceRef(orders[|orders| - 1].orderId))
  {
    hide SourceRef;
    var init := orders[..|orders| - 1];
    if RefAmong(orders, ref) {
      var k :| 0 <= k < |orders| && SourceRef(orders[k].orderId) == ref;
      if k < |init| { assert init[k] == orders[k]; }
    }
    if RefAmong(init, ref) {
      var k :| 0 <= k < |init| && SourceRef(init[k].orderId) == ref;
      assert init[k] == orders[k];
    }
  }

  datatype Outcome = Outcome(
    table: seq<LedgerRow>, counts: Counts, sumApplied: int, sumLedger: int, driftKd: int, mismatch: bool)

  method Backfill(
      history: seq<HistoryRow>, table0: seq<LedgerRow>, apply: bool, customer: Option<string>, env: Env)
    returns (out: Outcome, orders: seq<Aggregated>)
    ensures Aggregates(orders, Candidates(history, customer))
    ensures apply ==> Run(out.table, out.counts) == ApplyAll(table0, orders, env)
    ensures !apply ==> out.table == table0 && out.counts == Expected(table0, orders)
    ensures out.sumApplied == Total(Applied(Candidates(history, customer)))
    ensures out.sumLedger == WalletTotal(out.table, customer) + if apply then 0 else SumMinor(Totals(orders))
    ensures out.driftKd == out.sumApplied - out.sumLedger
    ensures out.mismatch <==> out.driftKd < -10 || out.driftKd > 10
  {
    hide *;
    var totalApplied, scanned, skipped;
    orders, totalApplied, scanned, skipped := AggregatePerOrder(Candidates(history, customer));
    var table, counts := table0, Counts(0, 0, 0);
    if apply {
      var r := WriteRows(table0, orders, env);
      table, counts := r.table, r.counts;
    } else {
      counts := WouldWrite(table0, orders);
    }
    var totalLedger := WalletTotal(table, customer);
    var projected := if apply then totalLedger else totalLedger + SumMinor(Totals(orders));
    var drift := totalApplied - projected;
    out := Outcome(table, counts, totalApplied, projected, drift, Abs(drift) > TOLERANCE);
    assert Abs(drift) > TOLERANCE <==> drift < -10 || drift > 10 by { AbsMeans(drift); }
  }

  lemma AbsMeans(x: int)
    ensures Abs(x) == (if x < 0 then -x else x) && TOLERANCE == 10
  {
  }

  /** The dry run counts the orders without a row. */
  method WouldWrite(table: seq<LedgerRow>, orders: seq<Aggregated>) returns (c: Counts)
    ensures c == Expected(table, orders)
    ensures c.written == 0 <==> forall k :: 0 <= k < |orders| ==> HasRef(table, SourceRef(orders[k].orderId))
  {
    hide HasRef, SourceRef;
    c := Counts(0, 0, 0);
    for i := 0 to |orders|
      invariant c == Expected(table, orders[..i])
      invariant c.written == 0 <==> forall k :: 0 <= k < i ==> HasRef(table, SourceRef(orders[k].orderId))
    {
      assert orders[..i + 1][..i] == orders[..i];
      if HasRef(table, SourceRef(orders[i].orderId)) {
        c := c.(skippedExisting := c.skippedExisting + 1);
      } else {
        c := c.(written := c.written + 1);
      }
    }
    assert orders[..|orders|] == orders;
  }

  lemma {:induction false} SplitTotals(table: seq<LedgerRow>, orders: seq<Aggregated>)
    ensures SumMinor(Totals(orders)) == Missing(table, orders) + AlreadyThere(table, orders)
  {
    hide HasRef, SourceRef;
    if orders != [] {
      SplitTotals(table, orders[..|orders| - 1]);
      assert Totals(orders)[..|orders| - 1] == Totals(orders[..|orders| - 1]);
    }
  }

  lemma {:induction false} NothingThere(table: seq<LedgerRow>, orders: seq<Aggregated>, customer: Option<string>)
    requires forall i :: 0 <= i < |table| ==> !(PREFIX <= table[i].sourceRef)
    ensures WalletTotal(table, customer) == 0 && AlreadyThere(table, orders) == 0
  {
    if table != [] { NoWalletRows(table, customer); }
    NoRefs(table, orders);
  }

  lemma {:induction false} NoWalletRows(table: seq<LedgerRow>, customer: Option<string>)
    requires forall i :: 0 <= i < |table| ==> !(PREFIX <= table[i].sourceRef)
    ensures WalletTotal(table, customer) == 0
  {
    if table != [] { NoWalletRows(table[..|table| - 1], customer); }
  }

  lemma {:induction false} NoRefs(table: seq<LedgerRow>, orders: seq<Aggregated>)
    requires forall i :: 0 <= i < |table| ==> !(PREFIX <= table[i].sourceRef)
    ensures AlreadyThere(table, orders) == 0
  {
    if orders != [] {
      NoRefs(table, orders[..|orders| - 1]);
      assert PREFIX <= SourceRef(orders[|orders| - 1].orderId);
    }
  }

  lemma {:induction false} CandidatesAreOf(history: seq<HistoryRow>, customer: Option<string>)
    ensures forall h :: h in Candidates(history, customer) ==> customer.None? || h.customerId == customer.value
  {
    if history != [] { CandidatesAreOf(history[..|history| - 1], customer); }
  }

  lemma AggregatesAreTargets(orders: seq<Aggregated>, history: seq<HistoryRow>, customer: Option<string>)
    requires Aggregates(orders, Candidates(history, customer))
    ensures Targets(orders, customer)
  {
    hide Applied, Covers, SumFor;
    var rows := Candidates(history, customer);
    CandidatesAreOf(history, customer);
    forall i | 0 <= i < |orders| ensures customer.None? || orders[i].customerId == customer.value {
      assert EarliestOf(orders[i], rows, |rows|);
      var y :| 0 <= y < |rows| && FirstFeed(rows, y, orders[i].orderId) && rows[y].customerId == orders[i].customerId;
      assert rows[y] in rows;
    }
  }

  /**
   * With nobody else writing: the dry run projects too much by exactly the amounts of the candidates
   * that already had a row, and from a ledger without wallet rows an apply leaves no drift at all.
   */
  lemma DryRunAgainstApply(
      history: seq<HistoryRow>, table: seq<LedgerRow>, orders: seq<Aggregated>, customer: Option<string>, env: Env)
    requires Unique(table) && Quiet(env) && Aggregates(orders, Candidates(history, customer))
    ensures
      ApplyAll(table, orders, env).counts == Expected(table, orders)
    ensures
      WalletTotal(table, customer) + SumMinor(Totals(orders))
      == WalletTotal(ApplyAll(table, orders, env).table, customer) + AlreadyThere(table, orders)
    ensures
      (forall i :: 0 <= i < |table| ==> !(PREFIX <= table[i].sourceRef)) ==>
        WalletTotal(ApplyAll(table, orders, env).table, customer) == Total(Applied(Candidates(history, customer)))
  {
    hide Applied, Covers, SumFor, Candidates, WalletTotal, Missing, AlreadyThere, SumMinor, ApplyAll;
    AggregatesAreTargets(orders, history, customer);
    QuietRun(table, orders, env, customer);
    SplitTotals(table, orders);
    TotalsAddUp(orders, Candidates(history, customer));
    if forall i :: 0 <= i < |table| ==> !(PREFIX <= table[i].sourceRef) {
      NothingThere(table, orders, customer);
    }
  }

  // ---- the run on the fields of the history

  /** The rows the validation adds up: payments under a wallet reference, of the filtered customer. */
  lemma WalletRowMeans(row: LedgerRow, customer: Option<string>)
    ensures IsWalletRow(row, customer) <==>
      (&& row.row.source == PAYMENT && (customer == None || customer == Some(row.row.customerId))
       && exists rest :: row.sourceRef == "PAYMENT:WALLET:" + rest)
  {
    if PREFIX <= row.sourceRef {
      assert row.sourceRef == "PAYMENT:WALLET:" + row.sourceRef[|PREFIX|..];
    }
  }

  predicate OfCustomer(h: HistoryRow, customer: Option<string>) {
    customer == None || customer == Some(h.customerId)
  }

  /** The wallet credit the settlements of an order used. */
  function AppliedTo(history: seq<HistoryRow>, customer: Option<string>, orderId: string): int {
    if history == [] then 0
    else
      var h := history[|history| - 1];
      AppliedTo(history[..|history| - 1], customer, orderId) +
      if h.orderId == Some(orderId) && OfCustomer(h, customer) && h.applied.Some? then h.applied.value else 0
  }

  /** Every settlement of an order is a candidate, as often as it is in the history, and nothing else is. */
  lemma {:induction false} CandidatesAreAll(history: seq<HistoryRow>, customer: Option<string>, h: HistoryRow)
    ensures multiset(Candidates(history, customer))[h] ==
      if h.orderId != None && OfCustomer(h, customer) then multiset(history)[h] else 0
  {
    if history != [] {
      var init, last := history[..|history| - 1], history[|history| - 1];
      CandidatesAreAll(init, customer, h);
      assert history == init + [last];
    }
  }

  lemma {:induction false} SumOfCandidates(history: seq<HistoryRow>, customer: Option<string>, orderId: string)
    requires orderId != ""
    ensures SumFor(Applied(Candidates(history, customer)), orderId) == AppliedTo(history, customer, orderId)
  {
    hide SumFor, Applied;
    if history == [] {
      NothingApplied(orderId);
    } else {
      var init, h := history[..|history| - 1], history[|history| - 1];
      SumOfCandidates(init, customer, orderId);
      var rows := Candidates(init, customer);
      if h.orderId.Some? && (customer.None? || customer.value == h.customerId) {
        AppliedOneMore(rows, h, orderId);
      } else {
        assert Candidates(history, customer) == rows;
      }
    }
  }

  lemma NothingApplied(orderId: string)
    ensures SumFor(Applied([]), orderId) == 0
  {
  }

  lemma AppliedOneMore(rows: seq<HistoryRow>, h: HistoryRow, orderId: string)
    requires orderId != ""
    ensures SumFor(Applied(rows + [h]), orderId) ==
      SumFor(Applied(rows), orderId) + if h.orderId == Some(orderId) && h.applied.Some? then h.applied.value else 0
  {
    hide SumFor;
    assert (rows + [h])[..|rows|] == rows;
    assert Applied(rows) + [] == Applied(rows);
    if h.applied.Some? { ItemsSnoc(Applied(rows), Item(h.orderId, h.applied.value)); }
  }

  /** The settlement counts towards the order: it is the customer's and names an amount. */
  ghost predicate SettlesOrder(history: seq<HistoryRow>, customer: Option<string>, orderId: string) {
    exists h :: h in history && h.orderId == Some(orderId) && OfCustomer(h, customer) && h.applied != None
  }

  lemma AmountsOnFields(orders: seq<Aggregated>, history: seq<HistoryRow>, customer: Option<string>, k: nat)
    requires Aggregates(orders, Candidates(history, customer)) && k < |orders|
    ensures orders[k].orderId != "" && orders[k].totalApplied == AppliedTo(history, customer, orders[k].orderId)
    ensures SettlesOrder(history, customer, orders[k].orderId)
  {
    hide SumFor, Applied, Covers, AppliedTo, Candidates;
    var rows := Candidates(history, customer);
    CandidateIff(history, customer);
    assert EarliestOf(orders[k], rows, |rows|);
    var x :| 0 <= x < |rows| && Feeds(rows[x], orders[k].orderId);
    assert rows[x] in rows;
    SumOfCandidates(history, customer, orders[k].orderId);
  }

  /** The aggregated orders are those with a settlement that names an amount, each with what its settlements used. */
  lemma AggregatesOnFields(orders: seq<Aggregated>, history: seq<HistoryRow>, customer: Option<string>, id: string)
    requires Aggregates(orders, Candidates(history, customer)) && id != ""
    ensures id in IdsOf(orders) <==> SettlesOrder(history, customer, id)
    ensures forall k :: 0 <= k < |orders| ==> orders[k].totalApplied == AppliedTo(history, customer, orders[k].orderId)
  {
    hide Aggregates, AppliedTo, Candidates, SettlesOrder;
    forall k | 0 <= k < |orders|
      ensures orders[k].totalApplied == AppliedTo(history, customer, orders[k].orderId) && SettlesOrder(history, customer, orders[k].orderId)
    {
      AmountsOnFields(orders, history, customer, k);
    }
    if SettlesOrder(history, customer, id) { SettledIsAggregated(orders, history, customer, id); }
  }

  lemma SettledIsAggregated(orders: seq<Aggregated>, history: seq<HistoryRow>, customer: Option<string>, id: string)
    requires Aggregates(orders, Candidates(history, customer)) && id != "" && SettlesOrder(history, customer, id)
    ensures id in IdsOf(orders)
  {
    hide Aggregates, Candidates;
    CandidateIff(history, customer);
    var rows := Candidates(history, customer);
    var h :| h in history && h.orderId == Some(id) && OfCustomer(h, customer) && h.applied != None;
    assert h in rows;
    var x :| 0 <= x < |rows| && rows[x] == h;
    CoveredIds(orders, rows, x);
  }

  lemma CandidateIff(history: seq<HistoryRow>, customer: Option<string>)
    ensures forall h :: h in Candidates(history, customer) <==> h in history && h.orderId != None && OfCustomer(h, customer)
  {
    forall h ensures h in Candidates(history, customer) <==> h in history && h.orderId != None && OfCustomer(h, customer) {
      CandidatesAreAll(history, customer, h);
      assert h in Candidates(history, customer) <==> h in multiset(Candidates(history, customer));
      assert h in history <==> h in multiset(history);
    }
  }

  lemma CoveredIds(orders: seq<Aggregated>, rows: seq<HistoryRow>, x: nat)
    requires Aggregates(orders, rows) && x < |rows| && Named(rows[x].orderId) && rows[x].applied.Some?
    ensures rows[x].orderId.value in IdsOf(orders)
  {
    hide Applied, SumFor;
    assert rows[..|rows|] == rows;
    AppliedContains(rows, |rows|, x);
  }

  /** A row as the run writes it for an order. */
  ghost predicate WrittenFor(row: LedgerRow, o: Aggregated) {
    row.sourceRef == "PAYMENT:WALLET:" + o.orderId + ":APPLIED"
    && row.row == Payment(o.customerId, PAYMENT, o.totalApplied, o.earliestCreatedAt)
  }

  /** Alone, the run adds a row for an order exactly where the ledger has none, in the order of the candidates. */
  lemma {:induction false} RowsWritten(table: seq<LedgerRow>, orders: seq<Aggregated>, env: Env)
    requires Unique(table) && Quiet(env) && Distinct(IdsOf(orders))
    ensures
      var t := ApplyAll(table, orders, env).table;
      && table <= t && |t| == |table| + MissingCount(table, orders)
      && forall i :: |table| <= i < |t| ==> exists k :: 0 <= k < |orders| && WrittenFor(t[i], orders[k]) && !HasRef(table, t[i].sourceRef)
  {
    hide HasRef, SourceRef, WrittenFor, NewRow;
    if orders != [] {
      var n := |orders| - 1;
      var o := orders[n];
      assert IdsOf(orders[..n]) == IdsOf(orders)[..n];
      RowsWritten(table, orders[..n], env);
      QuietRun(table, orders[..n], env, None);
      NotAmongEarlier(orders);
      var s, t := ApplyAll(table, orders[..n], env).table, ApplyAll(table, orders, env).table;
      assert env.beforeCheck(n) == [] && env.beforeInsert(n) == [] && !env.fails(n);
      QuietStep(ApplyAll(table, orders[..n], env), o, env, n);
      RowIsWrittenFor(o);
      forall i | |table| <= i < |t| ensures exists k :: 0 <= k < |orders| && WrittenFor(t[i], orders[k]) && !HasRef(table, t[i].sourceRef) {
        if i < |s| {
          var k :| 0 <= k < n && WrittenFor(s[i], orders[..n][k]) && !HasRef(table, s[i].sourceRef);
          assert WrittenFor(t[i], orders[k]);
        } else {
          assert WrittenFor(t[i], orders[n]);
        }
      }
    }
  }

  lemma QuietStep(r: Run, o: Aggregated, env: Env, i: nat)
    requires env.beforeCheck(i) == [] && env.beforeInsert(i) == [] && !env.fails(i)
    ensures Step(r, o, env, i).table == if HasRef(r.table, SourceRef(o.orderId)) then r.table else r.table + [NewRow(o)]
  {
    hide HasRef, SourceRef, NewRow;
  }

  lemma RowIsWrittenFor(o: Aggregated)
    ensures WrittenFor(NewRow(o), o) && NewRow(o).sourceRef == SourceRef(o.orderId)
  {
  }

  /** Apply twice: the second run, whoever else writes meanwhile, writes nothing and fails nowhere. */
  method BackfillTwice(
      history: seq<HistoryRow>, table0: seq<LedgerRow>, customer: Option<string>, first: Env, second: Env)
    returns (a: Outcome, b: Outcome)
    requires Unique(table0)
    ensures a.counts.errored == 0 ==> b.counts.written == 0 && b.counts.errored == 0
  {
    hide *;
    var orders, again;
    a, orders := Backfill(history, table0, true, customer, first);
    var rows := Candidates(history, customer);
    b, again := Backfill(history, a.table, true, customer, second);
    if a.counts.errored == 0 {
      ApplyAllKeeps(table0, orders, first);
      forall k | 0 <= k < |again| ensures HasRef(a.table, SourceRef(again[k].orderId)) {
        var j := SameOrders(again, orders, rows, k);
        EveryOrderHasItsRow(table0, orders, first, j);
      }
      RerunWritesNothing(a.table, again, second);
    }
  }

  /** Two aggregations of one history name the same orders. */
  lemma SameOrders(a: seq<Aggregated>, b: seq<Aggregated>, rows: seq<HistoryRow>, k: nat) returns (j: nat)
    requires Aggregates(a, rows) && Aggregates(b, rows) && k < |a|
    ensures j < |b| && b[j].orderId == a[k].orderId
  {
    hide Applied, SumFor;
    assert EarliestOf(a[k], rows, |rows|);
    var x :| 0 <= x < |rows| && Feeds(rows[x], a[k].orderId);
    AppliedContains(rows, |rows|, x);
    assert rows[..|rows|] == rows;
    assert a[k].orderId in IdsOf(b);
    j :| 0 <= j < |b| && IdsOf(b)[j] == a[k].orderId;
  }
}
