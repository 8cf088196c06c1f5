/**
 * The cash analysis: three aggregation loops, the gate and suppression decision for each order, the
 * anomaly pass, and the totals.
 */
module CashAnalysis {
  import opened Wrappers
  import opened Fixed4
  import opened KeyedSums
  import opened CashEvidence

  // ---- the lookups

  ghost predicate LastShifts(m: map<string, Shift>, shifts: seq<Shift>) {
    forall id :: LastShift(shifts, id) == if id in m then Some(m[id]) else None
  }

  method ShiftById(shifts: seq<Shift>) returns (m: map<string, Shift>)
    ensures LastShifts(m, shifts)
  {
    m := map[];
    var i := 0;
    while i < |shifts|
      invariant 0 <= i <= |shifts|
      invariant LastShifts(m, shifts[..i])
    {
      assert shifts[..i + 1][..i] == shifts[..i];
      m := m[shifts[i].id := shifts[i]];
      i := i + 1;
    }
    assert shifts[..i] == shifts;
  }

  ghost predicate LastCustodies(m: map<string, Custody>, custodies: seq<Custody>) {
    forall id :: id != "" ==> LastCustody(custodies, id) == if id in m then Some(m[id]) else None
  }

  method CustodyByShiftId(custodies: seq<Custody>) returns (m: map<string, Custody>)
    ensures LastCustodies(m, custodies)
  {
    m := map[];
    var i := 0;
    while i < |custodies|
      invariant 0 <= i <= |custodies|
      invariant LastCustodies(m, custodies[..i])
    {
      assert custodies[..i + 1][..i] == custodies[..i];
      if Named(custodies[i].shiftId) {
        m := m[custodies[i].shiftId.value := custodies[i]];
      }
      i := i + 1;
    }
    assert custodies[..i] == custodies;
  }

  /** The earliest start among the open shifts of each driver that has one. */
  ghost predicate OpenSince(has: map<string, bool>, since: map<string, int>, shifts: seq<Shift>) {
    && (forall d :: d in has <==> OpenFor(shifts, d))
    && has.Keys == since.Keys
    && (forall d :: d in has ==> has[d])
    && (forall d :: d in since ==> EarliestOpen(shifts, d, since[d]))
  }

  ghost predicate EarliestOpen(shifts: seq<Shift>, d: string, at: int) {
    && (exists k :: 0 <= k < |shifts| && shifts[k].driverId == d && shifts[k].startedAt == at)
    && (forall k :: 0 <= k < |shifts| && shifts[k].driverId == d ==> at <= shifts[k].startedAt)
  }

  lemma OpenStep(shifts: seq<Shift>, n: nat)
    requires n < |shifts|
    ensures forall d :: OpenFor(shifts[..n + 1], d) <==> (OpenFor(shifts[..n], d) || d == shifts[n].driverId)
  {
    var a, b := shifts[..n], shifts[..n + 1];
    forall d ensures OpenFor(b, d) <==> (OpenFor(a, d) || d == shifts[n].driverId) {
      if OpenFor(a, d) {
        var k :| 0 <= k < |a| && a[k].driverId == d;
        assert b[k].driverId == d;
      }
      assert b[n].driverId == shifts[n].driverId;
      if OpenFor(b, d) {
        var k :| 0 <= k < |b| && b[k].driverId == d;
        if k < n { assert a[k].driverId == d; }
      }
    }
  }

  lemma EarliestStep(shifts: seq<Shift>, n: nat, d: string, at: int)
    requires n < |shifts| && EarliestOpen(shifts[..n], d, at)
    ensures
      var s := shifts[n];
      EarliestOpen(shifts[..n + 1], d, if s.driverId == d && s.startedAt < at then s.startedAt else at)
  {
    var a, b := shifts[..n], shifts[..n + 1];
    var k :| 0 <= k < |a| && a[k].driverId == d && a[k].startedAt == at;
    assert b[k] == a[k] && b[n] == shifts[n];
    forall j | 0 <= j < n ensures b[j] == a[j] {}
  }

  lemma EarliestFirst(shifts: seq<Shift>, n: nat)
    requires n < |shifts| && !OpenFor(shifts[..n], shifts[n].driverId)
    ensures EarliestOpen(shifts[..n + 1], shifts[n].driverId, shifts[n].startedAt)
  {
    var a, b := shifts[..n], shifts[..n + 1];
    assert b[n] == shifts[n];
    forall k | 0 <= k < n ensures b[k].driverId != shifts[n].driverId {
      assert b[k] == a[k];
    }
  }

  method OpenShiftMaps(shifts: seq<Shift>) returns (has: map<string, bool>, since: map<string, int>)
    ensures OpenSince(has, since, shifts)
  {
    hide OpenFor, EarliestOpen;
    has, since := map[], map[];
    NothingOpen();
    var i := 0;
    assert shifts[..0] == [];
    while i < |shifts|
      invariant 0 <= i <= |shifts|
      invariant OpenSince(has, since, shifts[..i])
    {
      var s := shifts[i];
      OpenStep(shifts, i);
      ghost var before := since;
      has := has[s.driverId := true];
      if s.driverId !in since || s.startedAt < since[s.driverId] {
        since := since[s.driverId := s.startedAt];
      }
      forall d | d in since ensures EarliestOpen(shifts[..i + 1], d, since[d]) {
        if d in before { EarliestStep(shifts, i, d, before[d]); } else { EarliestFirst(shifts, i); }
      }
      i := i + 1;
    }
    assert shifts[..i] == shifts;
  }

  lemma NothingOpen()
    ensures forall d :: !OpenFor([], d)
  {
  }

  /** The earliest open shift decides whether any is overdue. */
  lemma EarliestDecidesOverdue(ev: Evidence, d: string, at: int)
    requires EarliestOpen(ev.openShifts, d, at)
    ensures Overdue(ev, d) <==> ev.generatedAt - at > SHIFT_OVERDUE
  {
    var k :| 0 <= k < |ev.openShifts| && ev.openShifts[k].driverId == d && ev.openShifts[k].startedAt == at;
    if ev.generatedAt - at > SHIFT_OVERDUE {
      assert ShiftOverdue(ev, ev.openShifts[k]);
    }
  }

  ghost predicate ActiveBranches(m: set<string>, ev: Evidence, orders: seq<Order>) {
    forall b :: b != "" ==> (b in m <==> BranchActive(ev, orders, b))
  }

  lemma BranchStep(ev: Evidence, orders: seq<Order>, n: nat, b: string)
    requires n < |orders|
    ensures BranchActive(ev, orders[..n + 1], b) <==>
      (BranchActive(ev, orders[..n], b) || (CompletedToday(ev, orders[n]) && BranchId(ev, orders[n]) == Some(b)))
  {
    hide CompletedToday, BranchId;
    var p, q := orders[..n], orders[..n + 1];
    assert q[n] == orders[n];
    if BranchActive(ev, p, b) {
      var k :| 0 <= k < |p| && CompletedToday(ev, p[k]) && BranchId(ev, p[k]) == Some(b);
      assert CompletedToday(ev, q[k]);
    }
    if BranchActive(ev, q, b) {
      var k :| 0 <= k < |q| && CompletedToday(ev, q[k]) && BranchId(ev, q[k]) == Some(b);
      if k < n { assert CompletedToday(ev, p[k]); }
    }
  }

  method BranchActivity(ev: Evidence) returns (m: set<string>)
    ensures ActiveBranches(m, ev, ev.orders)
  {
    hide BranchActive, CompletedToday, BranchId;
    m := {};
    NoBranchYet(ev);
    assert ev.orders[..0] == [];
    var i := 0;
    while i < |ev.orders|
      invariant 0 <= i <= |ev.orders|
      invariant ActiveBranches(m, ev, ev.orders[..i])
    {
      var o := ev.orders[i];
      forall b ensures BranchActive(ev, ev.orders[..i + 1], b) <==>
        (BranchActive(ev, ev.orders[..i], b) || (CompletedToday(ev, o) && BranchId(ev, o) == Some(b)))
      {
        BranchStep(ev, ev.orders, i, b);
      }
      if CompletedToday(ev, o) && Named(BranchId(ev, o)) {
        m := m + {BranchId(ev, o).value};
      }
      i := i + 1;
    }
    assert ev.orders[..i] == ev.orders;
  }

  lemma NoBranchYet(ev: Evidence)
    ensures forall b :: !BranchActive(ev, [], b)
  {
  }

  function GetAgg(m: map<string, DriverAgg>, d: string): DriverAgg {
    if d in m then m[d] else NO_CASH
  }

  ghost predicate Aggregated(m: map<string, DriverAgg>, ev: Evidence, orders: seq<Order>) {
    forall d :: GetAgg(m, d) == AggOf(ev, orders, d)
  }

  lemma AggStep(ev: Evidence, orders: seq<Order>, n: nat, d: string)
    requires n < |orders|
    ensures
      var a := AggOf(ev, orders[..n], d);
      AggOf(ev, orders[..n + 1], d) ==
        if Drives(orders[n], d) && orders[n].completedAt.Some? then AddOrder(ev, a, orders[n]) else a
  {
    assert orders[..n + 1][..n] == orders[..n];
  }

  method AggregateDrivers(ev: Evidence) returns (m: map<string, DriverAgg>)
    ensures Aggregated(m, ev, ev.orders)
  {
    hide AggOf, StillOut, CompletedToday;
    m := map[];
    NoOrdersYet(ev);
    assert ev.orders[..0] == [];
    var i := 0;
    while i < |ev.orders|
      invariant 0 <= i <= |ev.orders|
      invariant Aggregated(m, ev, ev.orders[..i])
    {
      var o := ev.orders[i];
      ghost var before := m;
      if Named(o.driverId) && o.completedAt.Some? {
        var d, amount := o.driverId.value, o.totalPrice;
        if d !in m {
          m := m[d := DriverAgg(0, 0, 0)];
        }
        if CompletedToday(ev, o) {
          m := m[d := m[d].(ordersTodayCount := m[d].ordersTodayCount + 1,
                            collectedCashTodayMinor := m[d].collectedCashTodayMinor + amount)];
        }
        if StillOut(o) {
          m := m[d := m[d].(remainingCashMinor := m[d].remainingCashMinor + amount)];
        }
        assert m[d] == AddOrder(ev, GetAgg(before, d), o);
        assert forall e :: e != d ==> GetAgg(m, e) == GetAgg(before, e);
        assert Drives(o, d);
      }
      forall d ensures GetAgg(m, d) == AggOf(ev, ev.orders[..i + 1], d) {
        AggStep(ev, ev.orders, i, d);
        assert AggOf(ev, ev.orders[..i], d) == GetAgg(before, d);
      }
      i := i + 1;
    }
    assert ev.orders[..i] == ev.orders;
  }

  lemma NoOrdersYet(ev: Evidence)
    ensures forall d :: AggOf(ev, [], d) == NO_CASH
  {
  }

  // ---- the flows

  function Completed(orders: seq<Order>): (r: seq<Order>)
    ensures forall o :: o in r <==> o in orders && o.completedAt.Some?
  {
    if orders == [] then []
    else
      var o := orders[|orders| - 1];
      assert orders == orders[..|orders| - 1] + [o];
      Completed(orders[..|orders| - 1]) + if o.completedAt.Some? then [o] else []
  }

  /** Completed orders stay in order, each once: the parts of a list give the parts of the result. */
  lemma {:induction false} CompletedOfParts(a: seq<Order>, b: seq<Order>)
    ensures Completed(a + b) == Completed(a) + Completed(b)
  {
    hide Completed;
    if b == [] {
      assert a + b == a;
      CompletedNone();
      assert Completed(a) + [] == Completed(a);
    } else {
      CompletedOfParts(a, b[..|b| - 1]);
      CompletedOneMore(a, b[..|b| - 1], b[|b| - 1]);
      assert b == b[..|b| - 1] + [b[|b| - 1]];
    }
  }

  lemma CompletedOneMore(a: seq<Order>, init: seq<Order>, o: Order)
    requires Completed(a + init) == Completed(a) + Completed(init)
    ensures Completed(a + (init + [o])) == Completed(a) + Completed(init + [o])
  {
    hide Completed;
    CompletedSnoc(init, o);
    CompletedSnoc(a + init, o);
    assert a + (init + [o]) == (a + init) + [o];
  }

  lemma CompletedSnoc(a: seq<Order>, o: Order)
    ensures Completed(a + [o]) == Completed(a) + if o.completedAt.Some? then [o] else []
  {
    assert (a + [o])[..|a|] == a;
  }

  ghost predicate FlowsOf(flows: seq<Flow>, ev: Evidence, done: seq<Order>) {
    && |flows| == |done|
    && forall i :: 0 <= i < |flows| ==> done[i].completedAt.Some? && flows[i] == FlowOf(ev, done[i])
  }

  /** The lookups agree with the evidence. */
  datatype Lookups = Lookups(
    shiftById: map<string, Shift>, custodyByShiftId: map<string, Custody>, hasOpen: map<string, bool>,
    openSince: map<string, int>, branchActive: set<string>, agg: map<string, DriverAgg>)

  ghost predicate Agree(lk: Lookups, ev: Evidence) {
    && LastShifts(lk.shiftById, ev.handoverShifts)
    && LastCustodies(lk.custodyByShiftId, ev.custodies)
    && OpenSince(lk.hasOpen, lk.openSince, ev.openShifts)
    && ActiveBranches(lk.branchActive, ev, ev.orders)
    && Aggregated(lk.agg, ev, ev.orders)
  }

  lemma LookupsGiveStage(lk: Lookups, ev: Evidence, o: Order)
    requires Agree(lk, ev)
    ensures ShiftOf(ev, o) ==
      if Named(o.handoverShiftId) && o.handoverShiftId.value in lk.shiftById
      then Some(lk.shiftById[o.handoverShiftId.value]) else None
    ensures CustodyOf(ev, o) ==
      if Named(o.handoverShiftId) && o.handoverShiftId.value in lk.custodyByShiftId
      then Some(lk.custodyByShiftId[o.handoverShiftId.value]) else None
  {
    hide LastShift, LastCustody, OpenSince, ActiveBranches, Aggregated;
  }

  lemma LookupsGiveDriver(lk: Lookups, ev: Evidence, o: Order)
    requires Agree(lk, ev) && Named(o.driverId)
    ensures
      var d := o.driverId.value;
      && DriverOpen(ev, o) == (d in lk.hasOpen)
      && (d in lk.hasOpen ==> lk.hasOpen[d])
      && (d in lk.hasOpen <==> d in lk.openSince)
      && DriverOverdue(ev, o) == (d in lk.openSince && ev.generatedAt - lk.openSince[d] > SHIFT_OVERDUE)
      && DriverActive(ev, o) == (GetAgg(lk.agg, d).ordersTodayCount > 0)
      && (GetAgg(lk.agg, d).collectedCashTodayMinor > 0 ==> DriverActive(ev, o))
      && Remaining(ev, o) == GetAgg(lk.agg, d).remainingCashMinor
  {
    hide LastShifts, LastCustodies, ActiveBranches, AggOf, EarliestOpen, OrderedToday, Overdue, OpenFor, GetAgg;
    var d := o.driverId.value;
    assert GetAgg(lk.agg, d) == AggOf(ev, ev.orders, d);
    CountOverAll(ev, d);
    OverdueMeansOpen(ev, o);
    if d in lk.openSince {
      EarliestDecidesOverdue(ev, d, lk.openSince[d]);
    }
  }

  lemma CountOverAll(ev: Evidence, d: string)
    ensures AggOf(ev, ev.orders, d).ordersTodayCount > 0 <==> OrderedToday(ev, d)
    ensures AggOf(ev, ev.orders, d).ordersTodayCount == 0 ==> AggOf(ev, ev.orders, d).collectedCashTodayMinor == 0
  {
    hide CompletedToday, AggOf;
    assert ev.orders[..|ev.orders|] == ev.orders;
    CountMeansOrdered(ev, |ev.orders|, d);
  }

  /** The gate of one order, decided from the lookups. */
  method DecideGate(lk: Lookups, ev: Evidence, o: Order, ageDays: nat) returns (gate: Gate, driverHasOpen: bool)
    requires Agree(lk, ev) && o.completedAt.Some? && ageDays == AgeDays(ev, o.completedAt.value)
    ensures gate == GateOf(ev, o) && driverHasOpen == DriverOpen(ev, o)
  {
    hide Agree, DriverOverdue, DriverOpen, DriverActive, Remaining;
    if Named(o.driverId) { LookupsGiveDriver(lk, ev, o); } else { NobodyDrives(ev, o); }
    var named := Named(o.driverId);
    var d := if named then o.driverId.value else "";
    driverHasOpen := named && d in lk.hasOpen && lk.hasOpen[d];
    var openDuration := if named && d in lk.openSince then Some(ev.generatedAt - lk.openSince[d]) else None;
    var agg := if named && d in lk.agg then Some(lk.agg[d]) else None;
    var collectedToday := if agg.Some? then agg.value.collectedCashTodayMinor else 0;
    var ordersToday := if agg.Some? then agg.value.ordersTodayCount else 0;
    var remaining := if agg.Some? then agg.value.remainingCashMinor else 0;
    if driverHasOpen && openDuration.Some? && openDuration.value > SHIFT_OVERDUE {
      gate := GATE_SHIFT_OVERDUE;
    } else if ordersToday > 0 || collectedToday > 0 {
      gate := ACTIVE_FLOW;
    } else if remaining > 0 && ageDays >= 1 {
      gate := HISTORICAL_BALANCE;
    } else {
      gate := NO_ACTIVITY_TODAY;
    }
  }

  lemma NobodyDrives(ev: Evidence, o: Order)
    requires !Named(o.driverId)
    ensures !DriverOverdue(ev, o) && !DriverOpen(ev, o) && !DriverActive(ev, o) && Remaining(ev, o) == 0
  {
  }

  lemma ActiveSeen(lk: Lookups, ev: Evidence, o: Order)
    requires Agree(lk, ev)
    ensures Named(BranchId(ev, o)) ==>
      (BranchId(ev, o).value in lk.branchActive <==> BranchActive(ev, ev.orders, BranchId(ev, o).value))
    ensures DriverActive(ev, o) && Named(BranchId(ev, o)) ==> BranchId(ev, o).value in lk.branchActive
  {
    hide LastShifts, LastCustodies, OpenSince, Aggregated, BranchActive, DriverActive, BranchId;
    if DriverActive(ev, o) && Named(BranchId(ev, o)) { ActiveDriverActiveBranch(ev, o); }
  }

  /** The suppression decision: the tests in the order the analysis makes them. */
  method DecideSuppression(lk: Lookups, ev: Evidence, o: Order, ageDays: nat, stage: Stage, gate: Gate, driverHasOpen: bool)
    returns (ignored: bool, reason: Reason)
    requires Agree(lk, ev) && o.completedAt.Some? && ageDays == AgeDays(ev, o.completedAt.value)
    requires stage == StageOf(ev, o) && gate == GateOf(ev, o) && driverHasOpen == DriverOpen(ev, o)
    ensures ignored == !Raises(ev, o) && reason == ReasonOf(ev, o)
  {
    hide Agree, DriverOverdue, DriverOpen, DriverActive, Remaining, BranchActive, StageOf, BranchId;
    ActiveSeen(lk, ev, o);
    OverdueMeansOpen(ev, o);
    var branchId := BranchId(ev, o);
    var branchActive := Named(branchId) && branchId.value in lk.branchActive;
    ignored := true;
    if ageDays == 0 {
      reason := NEW_CASH_SAME_DAY;
    } else if gate == GATE_SHIFT_OVERDUE {
      ignored := false;
      reason := SHIFT_OVERDUE_OVERRIDE_ACTIVE;
    } else if driverHasOpen {
      reason := ACTIVE_OPEN_SHIFT;
    } else if gate == NO_ACTIVITY_TODAY && ageDays == 0 {
      reason := IDLE_SAME_DAY;
    } else if gate == HISTORICAL_BALANCE {
      reason := AGED_BALANCE;
    } else if ageDays >= 2 && (stage == VERIFIED || stage == DEPOSIT || stage == BANK) {
      reason := PIPELINE_TIMING_NOT_RISK;
    } else if !branchActive && Named(branchId) {
      reason := BRANCH_IDLE;
    } else if gate == ACTIVE_FLOW && ageDays >= 1 {
      ignored := false;
      reason := ACTIVE_FLOW_AGED;
    } else {
      reason := NO_OPERATIONAL_RISK;
    }
  }

  method BuildFlows(lk: Lookups, ev: Evidence) returns (flows: seq<Flow>)
    requires Agree(lk, ev)
    ensures FlowsOf(flows, ev, Completed(ev.orders))
  {
    hide Agree, Completed, GateOf, ReasonOf, Raises, ClassifyStage, LastShift, LastCustody;
    flows := [];
    CompletedNone();
    assert ev.orders[..0] == [];
    var i := 0;
    while i < |ev.orders|
      invariant 0 <= i <= |ev.orders|
      invariant FlowsOf(flows, ev, Completed(ev.orders[..i]))
    {
      var o := ev.orders[i];
      CompletedStep(ev.orders, i);
      if o.completedAt.Some? {
        LookupsGiveStage(lk, ev, o);
        var shift := if Named(o.handoverShiftId) && o.handoverShiftId.value in lk.shiftById
                     then Some(lk.shiftById[o.handoverShiftId.value]) else None;
        var custody := if Named(o.handoverShiftId) && o.handoverShiftId.value in lk.custodyByShiftId
                       then Some(lk.custodyByShiftId[o.handoverShiftId.value]) else None;
        var log := if custody.Some? then custody.value.bankDepositLog else None;
        var stage := ClassifyStage(
          o.handoverShiftId,
          if shift.Some? then Some(shift.value.status) else None,
          if custody.Some? then Some(custody.value.id) else None,
          if custody.Some? then Some(custody.value.status) else None,
          if log.Some? then Some(log.value.id) else None,
          if log.Some? then Some(log.value.status) else None);
        var ageDays := AgeDays(ev, o.completedAt.value);
        var gate, driverHasOpen := DecideGate(lk, ev, o, ageDays);
        var ignored, reason := DecideSuppression(lk, ev, o, ageDays, stage, gate, driverHasOpen);
        flows := flows + [Flow(
          o.id, o.driverId, BranchId(ev, o), o.totalPrice, o.completedAt.value, ageDays, stage, gate, ignored, reason,
          if custody.Some? then Some(custody.value.id) else None)];
      }
      i := i + 1;
    }
    assert ev.orders[..i] == ev.orders;
  }

  lemma CompletedNone()
    ensures Completed([]) == []
  {
  }

  lemma CompletedStep(orders: seq<Order>, n: nat)
    requires n < |orders|
    ensures Completed(orders[..n + 1]) == Completed(orders[..n]) + if orders[n].completedAt.Some? then [orders[n]] else []
  {
    assert orders[..n + 1][..n] == orders[..n];
  }
}
