/**
 * The analysis and the classifier on the fields of the rows: which order raises which anomaly, what the
 * anomaly and its alert say, and where the totals come from.
 */
module CashMeanings {
  import opened Wrappers
  import opened Fixed4
  import opened KeyedSums
  import opened KuwaitCalendar
  import opened CashEvidence
  import opened CashAnalysis
  import opened CashAnomalies
  import opened CashClassifier

  // ---- which orders are visible

  ghost predicate HasOpenShift(ev: Evidence, d: string) {
    exists s :: s in ev.openShifts && s.driverId == d
  }

  lemma OpenIsOpenShift(ev: Evidence, d: string)
    ensures OpenFor(ev.openShifts, d) <==> HasOpenShift(ev, d)
  {
    if OpenFor(ev.openShifts, d) {
      var k :| 0 <= k < |ev.openShifts| && ev.openShifts[k].driverId == d;
      assert ev.openShifts[k] in ev.openShifts;
    }
    if HasOpenShift(ev, d) {
      var s :| s in ev.openShifts && s.driverId == d;
      var k :| 0 <= k < |ev.openShifts| && ev.openShifts[k] == s;
    }
  }

  /**
   * Cash of an earlier day, not banked, is visible under a driver past sixteen hours of shift, or, once it is
   * 24 hours old, under a driver with no open shift who completed an order today; cash already verified or
   * deposited then only on the first day.
   */
  lemma VisibleMeans(ev: Evidence, o: Order, d: string)
    requires IsOf(o, d)
    ensures Visible(ev, o) <==>
      (&& StageOf(ev, o) != BANK && KuwaitDay(o.completedAt.value) < ev.reportDay
       && (OverrunBy(ev, d)
           || (&& !HasOpenShift(ev, d) && WorkedToday(ev, d) && ev.generatedAt - o.completedAt.value >= 86_400_000
               && (ev.reportDay - KuwaitDay(o.completedAt.value) == 1
                   || StageOf(ev, o) == DRIVER || StageOf(ev, o) == DRIVER_HANDOVER || StageOf(ev, o) == CUSTODY))))
  {
    hide StageOf, OverrunBy, WorkedToday, HasOpenShift, Overdue, OrderedToday, OpenFor, KuwaitDay;
    OverdueIsOverrun(ev, d);
    ActiveIsWorking(ev, d);
    OpenIsOpenShift(ev, d);
  }

  /** Cash of an earlier day, no shift of its driver open. */
  ghost predicate SettledEarlier(ev: Evidence, o: Order, d: string)
    requires IsOf(o, d)
  {
    KuwaitDay(o.completedAt.value) < ev.reportDay && !HasOpenShift(ev, d)
  }

  /** The driver's branch, if it has one, saw an order completed on the report day. */
  ghost predicate BranchWorked(ev: Evidence, d: string) {
    exists x :: x in ev.orders && x.completedAt.Some? && KuwaitDay(x.completedAt.value) == ev.reportDay && d in ev.branchOf &&
      x.driverId.Some? && x.driverId.value in ev.branchOf && x.driverId != Some("") && ev.branchOf[x.driverId.value] == ev.branchOf[d]
  }

  lemma BranchActiveIsWorked(ev: Evidence, o: Order, d: string)
    requires IsOf(o, d) && d in ev.branchOf
    ensures BranchActive(ev, ev.orders, ev.branchOf[d]) <==> BranchWorked(ev, d)
  {
    hide Today, KuwaitDay;
    if BranchActive(ev, ev.orders, ev.branchOf[d]) {
      var k :| 0 <= k < |ev.orders| && CompletedToday(ev, ev.orders[k]) && BranchId(ev, ev.orders[k]) == Some(ev.branchOf[d]);
      TodayIsTheReportDay(ev, ev.orders[k].completedAt.value);
      assert ev.orders[k] in ev.orders;
    }
    if BranchWorked(ev, d) {
      var x :| x in ev.orders && x.completedAt.Some? && KuwaitDay(x.completedAt.value) == ev.reportDay && d in ev.branchOf &&
        x.driverId.Some? && x.driverId.value in ev.branchOf && x.driverId != Some("") && ev.branchOf[x.driverId.value] == ev.branchOf[d];
      TodayIsTheReportDay(ev, x.completedAt.value);
      var k :| 0 <= k < |ev.orders| && ev.orders[k] == x;
      assert CompletedToday(ev, ev.orders[k]) && BranchId(ev, ev.orders[k]) == Some(ev.branchOf[d]);
    }
  }

  /** The idle-branch reason is left for a driver at rest with nothing in hand, in a named branch at rest. */
  lemma BranchIdleMeans(ev: Evidence, o: Order, d: string)
    requires IsOf(o, d) && forall x :: x in ev.orders ==> x.totalPrice >= 0
    ensures ReasonOf(ev, o) == BRANCH_IDLE <==>
      (&& SettledEarlier(ev, o, d) && !WorkedToday(ev, d) && !(exists x :: x in ev.orders && HeldByDriver(x, d))
       && !(ev.reportDay - KuwaitDay(o.completedAt.value) >= 2 && AtBankEnd(StageOf(ev, o)))
       && d in ev.branchOf && ev.branchOf[d] != "" && !BranchWorked(ev, d))
  {
    hide StageOf, OverrunBy, WorkedToday, HasOpenShift, Overdue, OrderedToday, OpenFor, KuwaitDay, AggOf, HeldByDriver, BranchActive,
         BranchWorked;
    OverdueIsOverrun(ev, d);
    ActiveIsWorking(ev, d);
    OpenIsOpenShift(ev, d);
    OverdueMeansOpen(ev, o);
    GateMeans(ev, o, d);
    if d in ev.branchOf { BranchActiveIsWorked(ev, o, d); }
  }

  predicate AtBankEnd(s: Stage) {
    s == VERIFIED || s == DEPOSIT || s == BANK
  }

  /** The reason published with the flow of an order of driver d, for prices that are not negative. */
  lemma ReasonMeans(ev: Evidence, o: Order, d: string)
    requires IsOf(o, d) && forall x :: x in ev.orders ==> x.totalPrice >= 0
    ensures
      var r, age, settled := ReasonOf(ev, o), ev.reportDay - KuwaitDay(o.completedAt.value), SettledEarlier(ev, o, d);
      && (r == NEW_CASH_SAME_DAY <==> age <= 0)
      && (r == SHIFT_OVERDUE_OVERRIDE_ACTIVE <==> age >= 1 && OverrunBy(ev, d))
      && (r == ACTIVE_OPEN_SHIFT <==> age >= 1 && !OverrunBy(ev, d) && HasOpenShift(ev, d))
      && (r == AGED_BALANCE <==> settled && !WorkedToday(ev, d) && exists x :: x in ev.orders && HeldByDriver(x, d))
      && (r == ACTIVE_FLOW_AGED <==> settled && WorkedToday(ev, d) && (age == 1 || !AtBankEnd(StageOf(ev, o))))
      && (r == PIPELINE_TIMING_NOT_RISK <==>
           settled && age >= 2 && AtBankEnd(StageOf(ev, o)) && (WorkedToday(ev, d) || !exists x :: x in ev.orders && HeldByDriver(x, d)))
  {
    hide StageOf, OverrunBy, WorkedToday, HasOpenShift, Overdue, OrderedToday, OpenFor, KuwaitDay, AggOf, HeldByDriver, BranchActive;
    OverdueIsOverrun(ev, d);
    ActiveIsWorking(ev, d);
    OpenIsOpenShift(ev, d);
    OverdueMeansOpen(ev, o);
    GateMeans(ev, o, d);
  }

  // ---- which anomalies an order raises

  /** A deposit of the driver approved at most 48 hours before or after the order was completed. */
  ghost predicate DepositNearby(ev: Evidence, o: Order, d: string)
    requires o.completedAt.Some?
  {
    exists x :: x in ev.deposits && x.driverId == d && x.status == APPROVED
      && -172_800_000 <= x.createdAt - o.completedAt.value <= 172_800_000
  }

  /** By how much the bank deposit of the order's bag exceeds the bag. */
  function Excess(ev: Evidence, o: Order): Option<int> {
    var c := CustodyOf(ev, o);
    if c.Some? && c.value.bankDepositLog.Some? then Some(c.value.bankDepositLog.value.amountKd - c.value.amountKd) else None
  }

  /** The evidence for one kind of anomaly. */
  ghost predicate Evident(ev: Evidence, o: Order, d: string, k: Kind)
    requires o.completedAt.Some?
  {
    var stage, c := StageOf(ev, o), CustodyOf(ev, o);
    match k
    case SHIFT_LEFT_OPEN => false
    case STUCK_AT_DRIVER => stage == DRIVER
    case HANDOVER_DELAY => stage == DRIVER_HANDOVER
    case CUSTODY_DELAY => stage == CUSTODY && c.Some? && c.value.status == PENDING_DEPOSIT
    case DEPOSIT_NOT_REGISTERED => stage == VERIFIED
    case DEPOSIT_AMOUNT_MISMATCH => stage == DEPOSIT && Excess(ev, o).Some? && Excess(ev, o).value < -100
    case OVERPAYMENT_ANOMALY => stage == DEPOSIT && Excess(ev, o).Some? && Excess(ev, o).value > 100
    case SUBSCRIPTION_LEAKAGE => o.subscriptionId != None && o.subscriptionId != Some("") && o.paidInCash
    case DOUBLE_COUNT_RISK => stage != DRIVER && DepositNearby(ev, o, d)
  }

  lemma NearbyIsNear(ev: Evidence, o: Order, d: string)
    requires IsOf(o, d)
    ensures (exists x :: x in ev.deposits && Near(x, d, o.completedAt.value)) <==> DepositNearby(ev, o, d)
  {
    if x :| x in ev.deposits && Near(x, d, o.completedAt.value) {
      assert x.driverId == d && x.status == APPROVED;
    }
    if DepositNearby(ev, o, d) {
      var x :| x in ev.deposits && x.driverId == d && x.status == APPROVED &&
        -172_800_000 <= x.createdAt - o.completedAt.value <= 172_800_000;
      assert Near(x, d, o.completedAt.value);
    }
  }

  lemma ChainKindsMean(ev: Evidence, o: Order, d: string, k: Kind)
    requires IsOf(o, d)
    ensures |ChainKinds(ev, o)| <= 1
    ensures k in ChainKinds(ev, o) <==> k != SUBSCRIPTION_LEAKAGE && k != DOUBLE_COUNT_RISK && Evident(ev, o, d, k)
  {
    hide StageOf, CustodyOf, DepositNearby;
    var kinds := ChainKinds(ev, o);
    if k in kinds { assert kinds[0] == k; }
    assert kinds != [] ==> kinds[0] in kinds;
  }

  lemma LateKindsMean(ev: Evidence, o: Order, d: string)
    requires IsOf(o, d)
    ensures DoublyCounted(ev, o) <==> Evident(ev, o, d, DOUBLE_COUNT_RISK)
    ensures Named(o.subscriptionId) && o.paidInCash <==> Evident(ev, o, d, SUBSCRIPTION_LEAKAGE)
  {
    hide StageOf, CustodyOf, DepositNearby, Near;
    NearbyIsNear(ev, o, d);
  }

  lemma KindsMean(ev: Evidence, o: Order, d: string, k: Kind)
    requires IsOf(o, d)
    ensures k in KindsOf(ev, o) <==> Evident(ev, o, d, k)
    ensures multiset(KindsOf(ev, o))[k] <= 1
  {
    hide ChainKinds, Evident, DoublyCounted, IsOf;
    LateKindsMean(ev, o, d);
    ChainKindsMean(ev, o, d, k);
    InThree(ChainKinds(ev, o), if Named(o.subscriptionId) && o.paidInCash then [SUBSCRIPTION_LEAKAGE] else [],
            if DoublyCounted(ev, o) then [DOUBLE_COUNT_RISK] else [], k);
  }

  lemma InThree(a: seq<Kind>, b: seq<Kind>, c: seq<Kind>, k: Kind)
    requires |a| <= 1 && |b| <= 1 && |c| <= 1
    requires k in b ==> k !in a
    requires k in c ==> k !in a && k !in b
    ensures k in a + b + c <==> k in a || k in b || k in c
    ensures multiset(a + b + c)[k] <= 1
  {
    OnceAtMost(a, k);
    OnceAtMost(b, k);
    OnceAtMost(c, k);
  }

  lemma OnceAtMost(kinds: seq<Kind>, k: Kind)
    requires |kinds| <= 1
    ensures multiset(kinds)[k] <= 1 && (multiset(kinds)[k] == 1 <==> k in kinds)
  {
    assert kinds == [] || kinds == [kinds[0]];
  }

  /** What a per-flow anomaly says about its order. */
  ghost predicate Says(ev: Evidence, a: Anomaly, o: Order, d: string)
    requires o.completedAt.Some?
  {
    && a.amountMinor == o.totalPrice && a.driverId == Some(d)
    && a.ageDays == ev.reportDay - KuwaitDay(o.completedAt.value)
    && a.severity == SeverityFor(ClassifyAmountTier(o.totalPrice), a.ageDays)
    && a.stage == StageOf(ev, o)
    && a.branchId == (if d in ev.branchOf then Some(ev.branchOf[d]) else None)
    && (a.actionLocked <==> a.ageDays < 2)
  }

  /**
   * An order raises an anomaly of a kind if and only if it is visible and the tables show the evidence; it
   * raises each kind at most once, and the anomaly carries the order's money, age and branch.
   */
  lemma OrderRaises(ev: Evidence, o: Order, d: string, k: Kind)
    requires IsOf(o, d)
    ensures (exists a :: a in FromOrder(ev, o) && a.kind == k) <==> Visible(ev, o) && Evident(ev, o, d, k)
    ensures forall a :: a in FromOrder(ev, o) ==> Says(ev, a, o, d)
    ensures |FromOrder(ev, o)| == if Visible(ev, o) then |KindsOf(ev, o)| else 0
  {
    hide StageOf, CustodyOf, Evident, Visible, KindsOf, SeverityFor, ClassifyAmountTier, KuwaitDay, GateOf, ReasonOf, Raises;
    KindsMean(ev, o, d, k);
    if Visible(ev, o) {
      VisibleIsAged(ev, o, d);
      var f, kinds := FlowOf(ev, o), KindsOf(ev, o);
      if k in kinds {
        var i :| 0 <= i < |kinds| && kinds[i] == k;
        assert FromOrder(ev, o)[i].kind == k;
      }
      forall a | a in FromOrder(ev, o) ensures Says(ev, a, o, d) && a.kind in kinds {
        var i :| 0 <= i < |kinds| && FromOrder(ev, o)[i] == a;
      }
    }
  }

  lemma VisibleIsAged(ev: Evidence, o: Order, d: string)
    requires IsOf(o, d) && Visible(ev, o)
    ensures KuwaitDay(o.completedAt.value) < ev.reportDay
  {
    hide StageOf, KuwaitDay;
  }

  /** An order without a driver raises nothing. */
  lemma NobodyRaises(ev: Evidence, o: Order)
    requires o.completedAt.Some? && (o.driverId == None || o.driverId == Some(""))
    ensures FromOrder(ev, o) == []
  {
  }

  // ---- what an alert says

  /** Each kind of anomaly: a broken chain, cash growing old, or a shift left open. */
  datatype Nature = Chain | Old | ShiftOpen

  function NatureOf(k: Kind): Nature {
    match k
    case SHIFT_LEFT_OPEN => ShiftOpen
    case STUCK_AT_DRIVER => Old
    case HANDOVER_DELAY => Old
    case CUSTODY_DELAY => Old
    case SUBSCRIPTION_LEAKAGE => Old
    case DEPOSIT_NOT_REGISTERED => Chain
    case DEPOSIT_AMOUNT_MISMATCH => Chain
    case OVERPAYMENT_ANOMALY => Chain
    case DOUBLE_COUNT_RISK => Chain
  }

  /** At least 5 KD, and cash of at least 24.00 hours. */
  predicate Material(a: Anomaly, cashAge: nat) {
    a.amountMinor >= 50_000 && cashAge >= 2400
  }

  /**
   * The alert of an anomaly: financial exactly for broken chains and for material old cash or open shifts; a
   * financial alert is CRITICAL only from 5 KD, an open shift is never more than a WARNING, and everything
   * compliance-only is INFO.
   */
  lemma AlertMeans(a: Anomaly, cashAge: nat)
    ensures
      var x, n := ProjectAlert(a, cashAge), NatureOf(a.kind);
      && (x.domain == FINANCIAL <==> n == Chain || Material(a, cashAge))
      && (x.severity == ALERT_CRITICAL <==>
           n != ShiftOpen && x.domain == FINANCIAL && (a.severity == CRITICAL || a.severity == CRITICAL_ESCALATED)
           && a.amountMinor >= 50_000)
      && (x.severity == ALERT_INFO <==>
           x.domain == COMPLIANCE || (n != ShiftOpen && a.severity == INFO))
      && x.kind == (if n != ShiftOpen then Same(a.kind)
                    else if Material(a, cashAge) then SHIFT_OVERDUE_FINANCIAL else SHIFT_COMPLIANCE_ONLY)
      && x.amount == a.amountMinor && x.driverId == a.driverId && x.cashAgeHours == cashAge
  {
  }

  // ---- ages

  /** Ages are rounded to the nearest hundredth of an hour, halves up. */
  lemma AgeHoursMean(ms: int, k: nat)
    requires k > 0
    ensures AgeHours(ms) == k <==> k * 36_000 - 18_000 <= ms < k * 36_000 + 18_000
    ensures AgeHours(ms) == 0 <==> ms < 18_000
  {
  }

  /** A flow that counts as cash of the driver. */
  predicate CashFlow(f: LiveFlow, d: string) {
    f.driverId == d && d != "" && f.amount > 0
  }

  lemma {:induction false} CashFlowsAre(flows: seq<LiveFlow>, d: string)
    ensures forall f :: f in FlowsFor(flows, d) <==> f in flows && CashFlow(f, d)
  {
    if flows != [] {
      assert flows == flows[..|flows| - 1] + [flows[|flows| - 1]];
      CashFlowsAre(flows[..|flows| - 1], d);
    }
  }

  /**
   * The age an anomaly is judged by: that of the driver's oldest cash; without any, no age for an open shift
   * and 24 hours for each day of age otherwise.
   */
  lemma CashAgeMeans(flows: seq<LiveFlow>, a: Anomaly, d: string)
    requires a.driverId == Some(d) && d != ""
    ensures (exists f :: f in flows && CashFlow(f, d)) ==>
      (forall f :: f in flows && CashFlow(f, d) ==> f.ageHours <= CashAge(flows, a))
      && exists f :: f in flows && CashFlow(f, d) && f.ageHours == CashAge(flows, a)
    ensures !(exists f :: f in flows && CashFlow(f, d)) ==>
      CashAge(flows, a) == if a.kind == SHIFT_LEFT_OPEN then 0 else a.ageDays * 2400
  {
    hide FlowsFor, Oldest, CashFlow;
    var mine := FlowsFor(flows, d);
    CashFlowsAre(flows, d);
    assert OldestOf(Oldest(mine), mine);
    if mine != [] {
      assert mine[0] in mine;
      forall f | f in mine ensures f.ageHours <= Oldest(mine) {
        var i :| 0 <= i < |mine| && mine[i] == f;
      }
      if Oldest(mine) == 0 {
        assert mine[0].ageHours == 0;
      } else {
        var i :| 0 <= i < |mine| && mine[i].ageHours == Oldest(mine);
        assert mine[i] in mine;
      }
    }
  }

  // ---- where the totals come from

  /** Completed cash at some stages: that of the report day, that of earlier days, or both. */
  function CashAt(ev: Evidence, orders: seq<Order>, stages: set<Stage>, today: bool, earlier: bool): int {
    if orders == [] then 0
    else
      var o := orders[|orders| - 1];
      CashAt(ev, orders[..|orders| - 1], stages, today, earlier) +
      if o.completedAt.Some? && StageOf(ev, o) in stages
         && (if KuwaitDay(o.completedAt.value) >= ev.reportDay then today else earlier)
      then o.totalPrice else 0
  }

  lemma FlowFields(ev: Evidence, o: Order)
    requires o.completedAt.Some?
    ensures
      var f := FlowOf(ev, o);
      f.amountMinor == o.totalPrice && f.stage == StageOf(ev, o)
      && (f.ageDays == 0 <==> KuwaitDay(o.completedAt.value) >= ev.reportDay)
  {
    hide StageOf, GateOf, ReasonOf, Raises, KuwaitDay;
  }

  function FlowsUpTo(ev: Evidence, done: seq<Order>): (flows: seq<Flow>)
    requires forall i :: 0 <= i < |done| ==> done[i].completedAt.Some?
    ensures FlowsOf(flows, ev, done)
  {
    seq(|done|, i requires 0 <= i < |done| => FlowOf(ev, done[i]))
  }

  /** The flows with a property sum to the cash at the stages and ages that have it. */
  lemma {:induction false} SumByStage(
      ev: Evidence, orders: seq<Order>, p: Flow -> bool, stages: set<Stage>, today: bool, earlier: bool)
    requires forall f: Flow :: p(f) <==> f.stage in stages && (if f.ageDays == 0 then today else earlier)
    ensures SumOf(Filter(p, FlowsUpTo(ev, Completed(orders)))) == CashAt(ev, orders, stages, today, earlier)
  {
    hide SumOf, Filter, FlowOf, StageOf, KuwaitDay;
    if orders == [] {
      EmptySums();
      assert FlowsUpTo(ev, Completed([])) == [];
    } else {
      var n := |orders| - 1;
      var o := orders[n];
      SumByStage(ev, orders[..n], p, stages, today, earlier);
      var flows := FlowsUpTo(ev, Completed(orders));
      if o.completedAt.Some? {
        FlowFields(ev, o);
        assert flows[..|flows| - 1] == FlowsUpTo(ev, Completed(orders[..n]));
        SumFilterStep(p, flows);
      } else {
        assert Completed(orders) == Completed(orders[..n]);
      }
    }
  }

  /** The totals of the analysis, on the stage and day of the orders. */
  lemma TotalsMean(ev: Evidence, all: seq<Flow>)
    requires FlowsOf(all, ev, Completed(ev.orders))
    ensures
      var unbanked := {DRIVER, DRIVER_HANDOVER, CUSTODY, VERIFIED, DEPOSIT};
      && SumOf(Filter(LIVE, all)) == CashAt(ev, ev.orders, unbanked, true, true)
      && SumOf(Filter(IS_NEW, all)) == CashAt(ev, ev.orders, unbanked, true, false)
      && SumOf(Filter(IS_AGED, all)) == CashAt(ev, ev.orders, unbanked, false, true)
      && SumOf(Filter(AT_DRIVER, all)) == CashAt(ev, ev.orders, {DRIVER, DRIVER_HANDOVER}, true, true)
      && SumOf(Filter(AT_CUSTODY, all)) == CashAt(ev, ev.orders, {CUSTODY, VERIFIED}, true, true)
      && SumOf(Filter(AT_BANK, all)) == CashAt(ev, ev.orders, {DEPOSIT}, true, true)
  {
    hide SumOf, Filter, CashAt, FlowOf, Completed;
    assert all == FlowsUpTo(ev, Completed(ev.orders));
    var unbanked := {DRIVER, DRIVER_HANDOVER, CUSTODY, VERIFIED, DEPOSIT};
    SumByStage(ev, ev.orders, LIVE, unbanked, true, true);
    SumByStage(ev, ev.orders, IS_NEW, unbanked, true, false);
    SumByStage(ev, ev.orders, IS_AGED, unbanked, false, true);
    SumByStage(ev, ev.orders, AT_DRIVER, {DRIVER, DRIVER_HANDOVER}, true, true);
    SumByStage(ev, ev.orders, AT_CUSTODY, {CUSTODY, VERIFIED}, true, true);
    SumByStage(ev, ev.orders, AT_BANK, {DEPOSIT}, true, true);
  }
}
