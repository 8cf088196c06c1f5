/**
 * The anomaly pass of the cash analysis, its totals, and what can be read off the result.
 */
module CashAnomalies {
  import opened Wrappers
  import opened Fixed4
  import opened KeyedSums
  import opened CashEvidence
  import opened CashAnalysis

  const FRESH := 24 * HOUR
  const OVERLAP := 48 * HOUR

  function AsAnomaly(f: Flow, kind: Kind): Anomaly {
    Anomaly(kind, SeverityFor(ClassifyAmountTier(f.amountMinor), f.ageDays), f.amountMinor, f.ageDays, f.stage,
            f.driverId, f.branchId, f.ageDays < 2)
  }

  // ---- what the pass should report

  /** Concern raised, not banked yet, and a full day old unless its driver overran a shift. */
  predicate Visible(ev: Evidence, o: Order)
    requires o.completedAt.Some?
  {
    && Raises(ev, o) && StageOf(ev, o) != BANK
    && (DriverOverdue(ev, o) || ev.generatedAt - o.completedAt.value >= FRESH)
  }

  /** At most one kind tells where the cash is stuck, or that the banked amount differs. */
  function ChainKinds(ev: Evidence, o: Order): seq<Kind> {
    var c := CustodyOf(ev, o);
    match StageOf(ev, o)
    case DRIVER => [STUCK_AT_DRIVER]
    case DRIVER_HANDOVER => [HANDOVER_DELAY]
    case CUSTODY => if c.Some? && c.value.status == PENDING_DEPOSIT then [CUSTODY_DELAY] else []
    case VERIFIED => [DEPOSIT_NOT_REGISTERED]
    case DEPOSIT =>
      if c.None? || c.value.bankDepositLog.None? then []
      else
        var delta := c.value.bankDepositLog.value.amountKd - c.value.amountKd;
        if delta < -TOLERANCE_MINOR then [DEPOSIT_AMOUNT_MISMATCH]
        else if delta > TOLERANCE_MINOR then [OVERPAYMENT_ANOMALY]
        else []
    case BANK => []
  }

  predicate Near(d: Deposit, driverId: string, completedAt: int) {
    d.driverId == driverId && d.status == APPROVED && Abs(d.createdAt - completedAt) <= OVERLAP
  }

  /** A legacy deposit of the same driver was approved within 48 hours. */
  predicate DoublyCounted(ev: Evidence, o: Order) {
    && StageOf(ev, o) != DRIVER && Named(o.driverId) && o.completedAt.Some?
    && exists d :: d in ev.deposits && Near(d, o.driverId.value, o.completedAt.value)
  }

  function KindsOf(ev: Evidence, o: Order): seq<Kind> {
    ChainKinds(ev, o)
    + (if Named(o.subscriptionId) && o.paidInCash then [SUBSCRIPTION_LEAKAGE] else [])
    + (if DoublyCounted(ev, o) then [DOUBLE_COUNT_RISK] else [])
  }

  function Reports(f: Flow, kinds: seq<Kind>): (r: seq<Anomaly>)
    ensures |r| == |kinds| && forall i :: 0 <= i < |kinds| ==> r[i] == AsAnomaly(f, kinds[i])
  {
    seq(|kinds|, i requires 0 <= i < |kinds| => AsAnomaly(f, kinds[i]))
  }

  function FromOrder(ev: Evidence, o: Order): seq<Anomaly>
    requires o.completedAt.Some?
  {
    if Visible(ev, o) then Reports(FlowOf(ev, o), KindsOf(ev, o)) else []
  }

  function FromOrders(ev: Evidence, done: seq<Order>): seq<Anomaly>
    requires forall i :: 0 <= i < |done| ==> done[i].completedAt.Some?
  {
    if done == [] then [] else FromOrders(ev, done[..|done| - 1]) + FromOrder(ev, done[|done| - 1])
  }

  function Exposure(ev: Evidence, d: string): int {
    AggOf(ev, ev.orders, d).collectedCashTodayMinor + AggOf(ev, ev.orders, d).remainingCashMinor
  }

  function FromShift(ev: Evidence, s: Shift): Anomaly
    requires s.startedAt <= ev.generatedAt
  {
    var ageDays := (ev.generatedAt - s.startedAt) / DAY;
    Anomaly(SHIFT_LEFT_OPEN, SeverityFor(ClassifyAmountTier(Exposure(ev, s.driverId)), ageDays),
            Exposure(ev, s.driverId), ageDays, DRIVER, Some(s.driverId),
            if s.driverId in ev.branchOf then Some(ev.branchOf[s.driverId]) else None, ageDays < 2)
  }

  function OverdueShifts(ev: Evidence, shifts: seq<Shift>): (r: seq<Shift>)
    ensures forall s :: s in r <==> s in shifts && ShiftOverdue(ev, s)
  {
    if shifts == [] then []
    else
      var s := shifts[|shifts| - 1];
      assert shifts == shifts[..|shifts| - 1] + [s];
      OverdueShifts(ev, shifts[..|shifts| - 1]) + if ShiftOverdue(ev, s) then [s] else []
  }

  ghost predicate ShiftAlerts(alerts: seq<Anomaly>, ev: Evidence, overdue: seq<Shift>) {
    && |alerts| == |overdue|
    && forall i :: 0 <= i < |alerts| ==> overdue[i].startedAt <= ev.generatedAt && alerts[i] == FromShift(ev, overdue[i])
  }

  // ---- the pass

  lemma OverdueStep(ev: Evidence, n: nat)
    requires n < |ev.openShifts|
    ensures
      var s := ev.openShifts[n];
      OverdueShifts(ev, ev.openShifts[..n + 1]) ==
        OverdueShifts(ev, ev.openShifts[..n]) + if ev.generatedAt - s.startedAt > SHIFT_OVERDUE then [s] else []
  {
    assert ev.openShifts[..n + 1][..n] == ev.openShifts[..n];
  }

  lemma ExposureFromAgg(lk: Lookups, ev: Evidence, d: string)
    requires Agree(lk, ev)
    ensures Exposure(ev, d) == GetAgg(lk.agg, d).collectedCashTodayMinor + GetAgg(lk.agg, d).remainingCashMinor
  {
    hide LastShifts, LastCustodies, OpenSince, ActiveBranches, AggOf;
  }

  /** The alert of one overdue shift, with the exposure taken from the lookups. */
  method AlertFor(lk: Lookups, ev: Evidence, s: Shift) returns (a: Anomaly)
    requires Agree(lk, ev) && s.startedAt <= ev.generatedAt
    ensures a == FromShift(ev, s)
  {
    hide Agree, Exposure, SeverityFor, ClassifyAmountTier;
    ExposureFromAgg(lk, ev, s.driverId);
    var collectedToday := if s.driverId in lk.agg then lk.agg[s.driverId].collectedCashTodayMinor else 0;
    var remaining := if s.driverId in lk.agg then lk.agg[s.driverId].remainingCashMinor else 0;
    var exposure := collectedToday + remaining;
    var ageDays := (ev.generatedAt - s.startedAt) / DAY;
    a := Anomaly(
      SHIFT_LEFT_OPEN, SeverityFor(ClassifyAmountTier(exposure), ageDays), exposure, ageDays, DRIVER,
      Some(s.driverId), if s.driverId in ev.branchOf then Some(ev.branchOf[s.driverId]) else None, ageDays < 2);
  }

  method DetectOverdue(lk: Lookups, ev: Evidence) returns (alerts: seq<Anomaly>)
    requires WellFormed(ev) && Agree(lk, ev)
    ensures ShiftAlerts(alerts, ev, OverdueShifts(ev, ev.openShifts))
    ensures forall i :: 0 <= i < |alerts| ==> AlertOnFields(ev, alerts[i])
  {
    hide Agree, FromShift, OverdueShifts, AlertOnFields;
    alerts := [];
    assert OverdueShifts(ev, ev.openShifts[..0]) == [] by { NoShifts(ev, ev.openShifts[..0]); }
    var i := 0;
    while i < |ev.openShifts|
      invariant 0 <= i <= |ev.openShifts|
      invariant ShiftAlerts(alerts, ev, OverdueShifts(ev, ev.openShifts[..i]))
    {
      var s := ev.openShifts[i];
      OverdueStep(ev, i);
      if ev.generatedAt - s.startedAt > SHIFT_OVERDUE {
        var a := AlertFor(lk, ev, s);
        alerts := alerts + [a];
      }
      i := i + 1;
    }
    assert ev.openShifts[..i] == ev.openShifts;
    forall k | 0 <= k < |alerts| ensures AlertOnFields(ev, alerts[k]) {
      ShiftAlertOnFields(ev, OverdueShifts(ev, ev.openShifts)[k]);
    }
  }

  /**
   * A shift alert, on the fields of the tables: an open shift of more than sixteen hours, and the cash of its
   * driver, completed on the report day, paid to the driver, or handed over without a shift.
   */
  ghost predicate AlertOnFields(ev: Evidence, a: Anomaly) {
    exists s :: s in ev.openShifts && AlertOfShift(ev, a, s)
  }

  ghost predicate AlertOfShift(ev: Evidence, a: Anomaly, s: Shift) {
    && ev.generatedAt - s.startedAt > 57_600_000
    && a.kind == SHIFT_LEFT_OPEN && a.driverId == Some(s.driverId) && a.stage == DRIVER
    && a.amountMinor == CashOn(ev.orders, s.driverId, ev.reportDay)
         + CashIn(ev.orders, s.driverId, PAID_TO_DRIVER, true) + CashIn(ev.orders, s.driverId, PAID_TO_DRIVER, false)
         + CashIn(ev.orders, s.driverId, HANDED_OVER_TO_OFFICE, false)
    && a.ageDays * 86_400_000 <= ev.generatedAt - s.startedAt < (a.ageDays + 1) * 86_400_000
    && a.severity == SeverityFor(ClassifyAmountTier(a.amountMinor), a.ageDays)
    && a.branchId == (if s.driverId in ev.branchOf then Some(ev.branchOf[s.driverId]) else None)
    && (a.actionLocked <==> a.ageDays < 2)
  }

  lemma ShiftAlertOnFields(ev: Evidence, s: Shift)
    requires s in ev.openShifts && ShiftOverdue(ev, s)
    ensures s.startedAt <= ev.generatedAt && AlertOnFields(ev, FromShift(ev, s))
  {
    hide AggOf, CashOn, CashIn, SeverityFor, ClassifyAmountTier;
    RemainingIsOut(ev, ev.orders, s.driverId);
    CollectedIsOfTheDay(ev, ev.orders, s.driverId);
    assert AlertOfShift(ev, FromShift(ev, s), s);
  }

  lemma NoShifts(ev: Evidence, shifts: seq<Shift>)
    requires shifts == []
    ensures OverdueShifts(ev, shifts) == []
  {
  }

  /** The first bag with the id. */
  function FindCustody(custodies: seq<Custody>, id: string): Option<Custody> {
    if custodies == [] then None
    else if custodies[0].id == id then Some(custodies[0])
    else FindCustody(custodies[1..], id)
  }

  lemma {:induction false} FindCustodyFinds(custodies: seq<Custody>, c: Custody)
    requires c in custodies
    requires forall i, j :: 0 <= i < j < |custodies| ==> custodies[i].id != custodies[j].id
    ensures FindCustody(custodies, c.id) == Some(c)
  {
    if custodies[0] != c {
      assert c in custodies[1..];
      var k :| 0 <= k < |custodies[1..]| && custodies[1..][k] == c;
      assert custodies[0].id != custodies[k + 1].id;
      FindCustodyFinds(custodies[1..], c);
    }
  }

  ghost predicate ById(m: map<string, Order>, orders: seq<Order>) {
    forall o :: o in orders ==> o.id in m && m[o.id] == o
  }

  method OrderById(orders: seq<Order>) returns (m: map<string, Order>)
    requires forall i, j :: 0 <= i < j < |orders| ==> orders[i].id != orders[j].id
    ensures ById(m, orders)
  {
    m := map[];
    var i := 0;
    while i < |orders|
      invariant 0 <= i <= |orders|
      invariant forall k :: 0 <= k < i ==> orders[k].id in m && m[orders[k].id] == orders[k]
    {
      m := m[orders[i].id := orders[i]];
      i := i + 1;
    }
  }

  /** Where the cash is stuck, then how far the banked amount is off. */
  method ChainAnomalies(ev: Evidence, f: Flow, order: Order, custody: Option<Custody>) returns (found: seq<Anomaly>)
    requires WellFormed(ev) && f.stage == StageOf(ev, order) && custody == CustodyOf(ev, order) && f.stage != BANK
    ensures found == Reports(f, ChainKinds(ev, order))
  {
    hide StageOf, CustodyOf, WellFormed, AsAnomaly;
    StageMeans(ev, order);
    found := [];
    if f.stage == DRIVER {
      found := found + [AsAnomaly(f, STUCK_AT_DRIVER)];
    } else if f.stage == DRIVER_HANDOVER {
      found := found + [AsAnomaly(f, HANDOVER_DELAY)];
    } else if f.stage == CUSTODY && custody.Some? {
      if custody.value.status == PENDING_DEPOSIT {
        found := found + [AsAnomaly(f, CUSTODY_DELAY)];
      }
    } else if f.stage == VERIFIED && custody.Some? {
      if custody.value.bankDepositLog.None? {
        found := found + [AsAnomaly(f, DEPOSIT_NOT_REGISTERED)];
      }
    }
    if custody.Some? && custody.value.bankDepositLog.Some? {
      var delta := custody.value.bankDepositLog.value.amountKd - custody.value.amountKd;
      if Abs(delta) > TOLERANCE_MINOR {
        if delta < 0 {
          found := found + [AsAnomaly(f, DEPOSIT_AMOUNT_MISMATCH)];
        } else {
          found := found + [AsAnomaly(f, OVERPAYMENT_ANOMALY)];
        }
      }
    }
  }

  /** What one flow adds, decided from its row, its order and its bag. */
  method FlowAnomalies(ev: Evidence, f: Flow, order: Order, custody: Option<Custody>) returns (found: seq<Anomaly>)
    requires WellFormed(ev) && order.completedAt.Some? && f == FlowOf(ev, order) && custody == CustodyOf(ev, order)
    ensures found == FromOrder(ev, order)
  {
    hide Raises, GateOf, ReasonOf, StageOf, CustodyOf, WellFormed, AsAnomaly, ChainKinds, DoublyCounted;
    GateOverdue(ev, order);
    found := [];
    if f.ignored {
      return;
    }
    if f.stage == BANK {
      return;
    }
    if ev.generatedAt - f.originAt < FRESH && f.gate != GATE_SHIFT_OVERDUE {
      return;
    }
    found := ChainAnomalies(ev, f, order, custody);
    ghost var kinds := ChainKinds(ev, order);
    if Named(order.subscriptionId) && order.paidInCash {
      found, kinds := found + [AsAnomaly(f, SUBSCRIPTION_LEAKAGE)], kinds + [SUBSCRIPTION_LEAKAGE];
    }
    DoublyMeans(ev, order);
    if Named(order.driverId) && f.stage != DRIVER {
      if exists d :: d in ev.deposits && d.driverId == order.driverId.value && d.status == APPROVED &&
           Abs(d.createdAt - order.completedAt.value) <= OVERLAP
      {
        SomeNear(ev, order);
        found, kinds := found + [AsAnomaly(f, DOUBLE_COUNT_RISK)], kinds + [DOUBLE_COUNT_RISK];
      }
    }
    assert kinds == KindsOf(ev, order);
    assert found == Reports(f, kinds);
  }

  lemma DoublyMeans(ev: Evidence, o: Order)
    requires o.completedAt.Some?
    ensures DoublyCounted(ev, o) ==>
      (StageOf(ev, o) != DRIVER && Named(o.driverId) &&
       exists d :: d in ev.deposits && d.driverId == o.driverId.value && d.status == APPROVED &&
         Abs(d.createdAt - o.completedAt.value) <= OVERLAP)
  {
    hide StageOf;
  }

  lemma SomeNear(ev: Evidence, o: Order)
    requires o.completedAt.Some? && Named(o.driverId) && StageOf(ev, o) != DRIVER
    requires exists d :: d in ev.deposits && d.driverId == o.driverId.value && d.status == APPROVED &&
               Abs(d.createdAt - o.completedAt.value) <= OVERLAP
    ensures DoublyCounted(ev, o)
  {
    hide StageOf;
    var d :| d in ev.deposits && d.driverId == o.driverId.value && d.status == APPROVED &&
      Abs(d.createdAt - o.completedAt.value) <= OVERLAP;
    assert Near(d, o.driverId.value, o.completedAt.value);
  }

  lemma GateOverdue(ev: Evidence, o: Order)
    requires o.completedAt.Some?
    ensures GateOf(ev, o) == GATE_SHIFT_OVERDUE <==> DriverOverdue(ev, o)
  {
  }

  lemma FromOrdersStep(ev: Evidence, done: seq<Order>, i: nat)
    requires i < |done| && forall k :: 0 <= k < |done| ==> done[k].completedAt.Some?
    ensures FromOrders(ev, done[..i + 1]) == FromOrders(ev, done[..i]) + FromOrder(ev, done[i])
  {
    hide FromOrder;
    assert done[..i + 1][..i] == done[..i];
  }

  lemma FlowAt(flows: seq<Flow>, ev: Evidence, i: nat)
    requires FlowsOf(flows, ev, Completed(ev.orders)) && i < |flows|
    ensures
      var done := Completed(ev.orders);
      |done| == |flows| && done[i] in ev.orders && done[i].completedAt.Some? && flows[i] == FlowOf(ev, done[i])
  {
    hide FlowOf, Completed;
    assert Completed(ev.orders)[i] in Completed(ev.orders);
  }

  lemma CompletedFlows(flows: seq<Flow>, ev: Evidence)
    requires FlowsOf(flows, ev, Completed(ev.orders))
    ensures |Completed(ev.orders)| == |flows|
    ensures forall k :: 0 <= k < |Completed(ev.orders)| ==> Completed(ev.orders)[k].completedAt.Some?
  {
    hide FlowOf, Completed;
  }

  lemma FoundById(m: map<string, Order>, orders: seq<Order>, o: Order)
    requires ById(m, orders) && o in orders
    ensures o.id in m && m[o.id] == o
  {
  }

  method DetectInFlows(ev: Evidence, flows: seq<Flow>) returns (anomalies: seq<Anomaly>)
    requires WellFormed(ev) && FlowsOf(flows, ev, Completed(ev.orders))
    ensures anomalies == FromOrders(ev, Completed(ev.orders))
  {
    var orderById := OrderById(ev.orders);
    hide WellFormed, FlowOf, FromOrder, FromOrders, FindCustody, CustodyOf, Completed, ById, FlowsOf;
    CompletedFlows(flows, ev);
    ghost var done := Completed(ev.orders);
    anomalies := [];
    assert FromOrders(ev, done[..0]) == [] by { NoOrdersReported(ev, done); }
    var i := 0;
    while i < |flows|
      invariant 0 <= i <= |flows|
      invariant anomalies == FromOrders(ev, done[..i])
    {
      var f := flows[i];
      FlowAt(flows, ev, i);
      LookupsGiveBack(ev, f, done[i]);
      FoundById(orderById, ev.orders, done[i]);
      var order := orderById[f.orderId];
      var custody := if Named(f.custodyId) then FindCustody(ev.custodies, f.custodyId.value) else None;
      var found := FlowAnomalies(ev, f, order, custody);
      FromOrdersStep(ev, done, i);
      anomalies := anomalies + found;
      i := i + 1;
    }
    assert done[..i] == done;
  }

  lemma NoOrdersReported(ev: Evidence, done: seq<Order>)
    requires forall k :: 0 <= k < |done| ==> done[k].completedAt.Some?
    ensures FromOrders(ev, done[..0]) == []
  {
  }

  /** By the primary keys, the ids in a flow lead back to its own order and bag. */
  lemma LookupsGiveBack(ev: Evidence, f: Flow, o: Order)
    requires WellFormed(ev) && o.completedAt.Some? && f == FlowOf(ev, o)
    ensures f.orderId == o.id
    ensures CustodyOf(ev, o) == if Named(f.custodyId) then FindCustody(ev.custodies, f.custodyId.value) else None
  {
    hide FindCustody, GateOf, ReasonOf, Raises, StageOf, LastCustody;
    var c := CustodyOf(ev, o);
    if c.Some? {
      var k :| 0 <= k < |ev.custodies| && ev.custodies[k] == c.value;
      assert ev.custodies[k].id != "";
      FindCustodyFinds(ev.custodies, c.value);
    }
  }

  // ---- totals

  function SumOf(flows: seq<Flow>): int {
    if flows == [] then 0 else SumOf(flows[..|flows| - 1]) + flows[|flows| - 1].amountMinor
  }

  function Filter(p: Flow -> bool, flows: seq<Flow>): seq<Flow> {
    if flows == [] then []
    else
      var f := flows[|flows| - 1];
      Filter(p, flows[..|flows| - 1]) + if p(f) then [f] else []
  }

  lemma SumAdds(a: seq<Flow>, f: Flow)
    ensures SumOf(a + [f]) == SumOf(a) + f.amountMinor
  {
    assert (a + [f])[..|a|] == a;
  }

  lemma {:induction false} SumFilterStep(p: Flow -> bool, flows: seq<Flow>)
    requires flows != []
    ensures
      var f := flows[|flows| - 1];
      SumOf(Filter(p, flows)) == SumOf(Filter(p, flows[..|flows| - 1])) + if p(f) then f.amountMinor else 0
  {
    hide SumOf;
    SumAdds(Filter(p, flows[..|flows| - 1]), flows[|flows| - 1]);
    assert Filter(p, flows[..|flows| - 1]) + [] == Filter(p, flows[..|flows| - 1]);
  }

  const LIVE := (f: Flow) => f.stage != BANK
  const IS_NEW := (f: Flow) => f.stage != BANK && f.ageDays == 0
  const IS_AGED := (f: Flow) => f.stage != BANK && f.ageDays != 0
  const AT_DRIVER := (f: Flow) => f.stage == DRIVER || f.stage == DRIVER_HANDOVER
  const AT_CUSTODY := (f: Flow) => f.stage == CUSTODY || f.stage == VERIFIED
  const AT_BANK := (f: Flow) => f.stage == DEPOSIT

  datatype Totals = Totals(
    totalCash: int, newCash: int, agedCash: int, atDriver: int, atCustody: int, atBank: int)

  method SumTotals(flows: seq<Flow>) returns (t: Totals, live: seq<Flow>)
    ensures live == Filter(LIVE, flows) && t.totalCash == SumOf(live)
    ensures t.newCash == SumOf(Filter(IS_NEW, flows)) && t.agedCash == SumOf(Filter(IS_AGED, flows))
    ensures t.newCash + t.agedCash == t.totalCash
    ensures t.atDriver + t.atCustody + t.atBank == t.totalCash
    ensures t.atDriver == SumOf(Filter(AT_DRIVER, flows)) && t.atBank == SumOf(Filter(AT_BANK, flows))
    ensures t.atCustody == SumOf(Filter(AT_CUSTODY, flows))
  {
    hide SumOf, Filter;
    live := Filter(LIVE, flows);
    var total := SumOf(live);
    var newCash := SumOf(Filter((f: Flow) => f.ageDays == 0, live));
    var atDriver, atCustody, atBank := SumOf(Filter(AT_DRIVER, live)), SumOf(Filter(AT_CUSTODY, live)), SumOf(Filter(AT_BANK, live));
    FilterTwice(LIVE, (f: Flow) => f.ageDays == 0, IS_NEW, flows);
    FilterTwice(LIVE, AT_DRIVER, AT_DRIVER, flows);
    FilterTwice(LIVE, AT_CUSTODY, AT_CUSTODY, flows);
    FilterTwice(LIVE, AT_BANK, AT_BANK, flows);
    LocationsPartition(flows);
    t := Totals(total, newCash, total - newCash, atDriver, atCustody, atBank);
  }

  lemma {:induction false} FilterTwice(p: Flow -> bool, q: Flow -> bool, both: Flow -> bool, flows: seq<Flow>)
    requires forall f :: both(f) <==> p(f) && q(f)
    ensures Filter(q, Filter(p, flows)) == Filter(both, flows)
  {
    if flows != [] {
      var init, f := flows[..|flows| - 1], flows[|flows| - 1];
      FilterTwice(p, q, both, init);
      if p(f) {
        assert (Filter(p, init) + [f])[..|Filter(p, init)|] == Filter(p, init);
      } else {
        assert Filter(p, flows) == Filter(p, init);
      }
    }
  }

  /** Every live flow is at exactly one place and is either new or aged. */
  lemma {:induction false} LocationsPartition(flows: seq<Flow>)
    ensures SumOf(Filter(LIVE, flows)) == SumOf(Filter(IS_NEW, flows)) + SumOf(Filter(IS_AGED, flows))
    ensures SumOf(Filter(LIVE, flows)) ==
      SumOf(Filter(AT_DRIVER, flows)) + SumOf(Filter(AT_CUSTODY, flows)) + SumOf(Filter(AT_BANK, flows))
  {
    hide SumOf, Filter;
    if flows == [] {
      EmptySums();
    } else {
      LocationsPartition(flows[..|flows| - 1]);
      SumFilterStep(LIVE, flows);
      SumFilterStep(IS_NEW, flows);
      SumFilterStep(IS_AGED, flows);
      SumFilterStep(AT_DRIVER, flows);
      SumFilterStep(AT_CUSTODY, flows);
      SumFilterStep(AT_BANK, flows);
    }
  }

  lemma EmptySums()
    ensures forall p :: SumOf(Filter(p, [])) == 0
  {
  }

  // ---- the whole analysis

  datatype Analysis = Analysis(flows: seq<Flow>, anomalies: seq<Anomaly>, totals: Totals)

  ghost predicate Analyses(r: Analysis, ev: Evidence, all: seq<Flow>, alerts: seq<Anomaly>) {
    && FlowsOf(all, ev, Completed(ev.orders)) && ShiftAlerts(alerts, ev, OverdueShifts(ev, ev.openShifts))
    && r.flows == Filter(LIVE, all)
    && r.anomalies == alerts + FromOrders(ev, Completed(ev.orders))
  }

  method RunAnalysis(ev: Evidence) returns (r: Analysis, ghost all: seq<Flow>, ghost alerts: seq<Anomaly>)
    requires WellFormed(ev)
    ensures Analyses(r, ev, all, alerts)
    ensures r.totals.totalCash == SumOf(r.flows) == r.totals.newCash + r.totals.agedCash
    ensures r.totals.totalCash == r.totals.atDriver + r.totals.atCustody + r.totals.atBank
    ensures r.totals.newCash == SumOf(Filter(IS_NEW, all)) && r.totals.agedCash == SumOf(Filter(IS_AGED, all))
    ensures r.totals.atDriver == SumOf(Filter(AT_DRIVER, all)) && r.totals.atCustody == SumOf(Filter(AT_CUSTODY, all))
    ensures r.totals.atBank == SumOf(Filter(AT_BANK, all))
    ensures forall i :: 0 <= i < |alerts| ==> AlertOnFields(ev, alerts[i])
  {
    hide FlowsOf, ShiftAlerts, FromOrders, LastShifts, LastCustodies, OpenSince, ActiveBranches, Aggregated, Filter, SumOf,
         AlertOnFields;
    var shiftById := ShiftById(ev.handoverShifts);
    var custodyByShiftId := CustodyByShiftId(ev.custodies);
    var hasOpen, openSince := OpenShiftMaps(ev.openShifts);
    var branchActive := BranchActivity(ev);
    var agg := AggregateDrivers(ev);
    var lk := Lookups(shiftById, custodyByShiftId, hasOpen, openSince, branchActive, agg);
    var flows := BuildFlows(lk, ev);
    var overdue := DetectOverdue(lk, ev);
    var found := DetectInFlows(ev, flows);
    var totals, live := SumTotals(flows);
    all, alerts := flows, overdue;
    r := Analysis(live, overdue + found, totals);
  }

  // ---- what the result tells

  /**
   * A per-flow anomaly takes an aged amount not yet banked, and its driver either overran a shift, or
   * has the shift closed, took an order today, and the cash is a full day old.
   */
  lemma AnomalyTakes(ev: Evidence, o: Order, a: Anomaly)
    requires o.completedAt.Some? && a in FromOrder(ev, o)
    ensures a.ageDays == AgeDays(ev, o.completedAt.value) != 0 && a.stage == StageOf(ev, o) != BANK
    ensures Named(o.driverId) && a.driverId == o.driverId && a.amountMinor == o.totalPrice
    ensures DriverOverdue(ev, o)
      || (!DriverOpen(ev, o) && DriverActive(ev, o) && ev.generatedAt - o.completedAt.value >= FRESH)
    ensures a.severity == SeverityFor(ClassifyAmountTier(a.amountMinor), a.ageDays)
    ensures a.kind in KindsOf(ev, o) && a.kind != SHIFT_LEFT_OPEN
  {
    hide KindsOf, SeverityFor, ClassifyAmountTier, GateOf, ReasonOf, StageOf, DriverOverdue, DriverOpen, DriverActive;
    var i :| 0 <= i < |FromOrder(ev, o)| && FromOrder(ev, o)[i] == a;
    assert a == AsAnomaly(FlowOf(ev, o), KindsOf(ev, o)[i]);
    NoShiftKinds(ev, o);
    RaisesNeedsDriver(ev, o);
  }

  lemma RaisesNeedsDriver(ev: Evidence, o: Order)
    requires o.completedAt.Some? && Raises(ev, o)
    ensures Named(o.driverId)
  {
  }

  lemma NoShiftKinds(ev: Evidence, o: Order)
    ensures SHIFT_LEFT_OPEN !in KindsOf(ev, o)
  {
  }

  /** Unless the driver overran a shift, bags at the bank end of the chain alarm on one day only and never escalate. */
  lemma PipelineAlarmsOnce(ev: Evidence, o: Order, a: Anomaly)
    requires o.completedAt.Some? && a in FromOrder(ev, o)
    requires !DriverOverdue(ev, o) && (StageOf(ev, o) == VERIFIED || StageOf(ev, o) == DEPOSIT)
    ensures a.ageDays == 1 && a.severity != CRITICAL_ESCALATED
    ensures a.kind in {DEPOSIT_NOT_REGISTERED, DEPOSIT_AMOUNT_MISMATCH, OVERPAYMENT_ANOMALY, SUBSCRIPTION_LEAKAGE, DOUBLE_COUNT_RISK}
  {
    hide DriverOverdue, DriverOpen, DriverActive, StageOf, CustodyOf;
    AnomalyTakes(ev, o, a);
    assert Raises(ev, o);
  }

  /**
   * In the flows of the analysis the idle-branch test hides no active flow: an active flow is suppressed
   * only as same-day cash, under an open shift, or as pipeline timing, and otherwise stays visible.
   */
  lemma IdleBranchHidesNoActiveFlow(flows: seq<Flow>, ev: Evidence, i: nat)
    requires FlowsOf(flows, ev, Completed(ev.orders)) && i < |flows| && flows[i].gate == ACTIVE_FLOW
    ensures flows[i].reason != BRANCH_IDLE
    ensures flows[i].ignored <==>
      (flows[i].ageDays == 0 || DriverOpen(ev, Completed(ev.orders)[i]) || (flows[i].ageDays >= 2 && Pipeline(flows[i].stage)))
    ensures !flows[i].ignored ==> flows[i].reason == ACTIVE_FLOW_AGED
  {
    hide DriverOverdue, DriverOpen, DriverActive, StageOf, Remaining, BranchActive, CustodyOf;
    FlowAt(flows, ev, i);
  }

  /** Every kind but the two advisory ones pins down the stage. */
  lemma KindPinsStage(ev: Evidence, o: Order, k: Kind)
    requires WellFormed(ev) && k in KindsOf(ev, o) && k != SUBSCRIPTION_LEAKAGE && k != DOUBLE_COUNT_RISK
    ensures (k == STUCK_AT_DRIVER <==> StageOf(ev, o) == DRIVER)
    ensures (k == HANDOVER_DELAY <==> StageOf(ev, o) == DRIVER_HANDOVER)
    ensures (k == CUSTODY_DELAY <==> StageOf(ev, o) == CUSTODY)
    ensures (k == DEPOSIT_NOT_REGISTERED <==> StageOf(ev, o) == VERIFIED)
    ensures (k == DEPOSIT_AMOUNT_MISMATCH || k == OVERPAYMENT_ANOMALY <==> StageOf(ev, o) == DEPOSIT)
  {
    hide StageOf, CustodyOf, WellFormed, DoublyCounted;
    StageMeans(ev, o);
  }

  /** Where cash is with its driver, the alarm is exact: the pass reports it stuck if and only if it is visible. */
  lemma StuckExactly(ev: Evidence, o: Order)
    requires o.completedAt.Some?
    ensures (exists a :: a in FromOrder(ev, o) && a.kind == STUCK_AT_DRIVER) <==>
      (StageOf(ev, o) == DRIVER && Visible(ev, o))
  {
    hide StageOf, Visible, DoublyCounted, CustodyOf;
    if StageOf(ev, o) == DRIVER && Visible(ev, o) {
      assert KindsOf(ev, o)[0] == STUCK_AT_DRIVER;
      assert FromOrder(ev, o)[0].kind == STUCK_AT_DRIVER;
    }
    if exists a :: a in FromOrder(ev, o) && a.kind == STUCK_AT_DRIVER {
      var a :| a in FromOrder(ev, o) && a.kind == STUCK_AT_DRIVER;
      AnomalyTakes(ev, o, a);
    }
  }

  /** Each anomaly comes from an overdue open shift or from a completed order. */
  lemma {:induction false} FromOrdersOrigin(ev: Evidence, done: seq<Order>, a: Anomaly) returns (o: Order)
    requires forall i :: 0 <= i < |done| ==> done[i].completedAt.Some?
    requires a in FromOrders(ev, done)
    ensures o in done && a in FromOrder(ev, o)
  {
    hide FromOrder;
    var n := |done| - 1;
    if a in FromOrder(ev, done[n]) {
      o := done[n];
    } else {
      o := FromOrdersOrigin(ev, done[..n], a);
    }
  }

  lemma {:induction false} FromOrdersHas(ev: Evidence, done: seq<Order>, k: nat)
    requires forall i :: 0 <= i < |done| ==> done[i].completedAt.Some?
    requires k < |done|
    ensures forall a :: a in FromOrder(ev, done[k]) ==> a in FromOrders(ev, done)
  {
    hide FromOrder;
    var n := |done| - 1;
    if k < n {
      FromOrdersHas(ev, done[..n], k);
      assert done[..n][k] == done[k];
    }
  }

  /** An overdue gate never goes unreported, however young or banked the cash is. */
  lemma OverdueGateIsReported(ev: Evidence, o: Order, r: Analysis, all: seq<Flow>, alerts: seq<Anomaly>)
    requires WellFormed(ev) && Analyses(r, ev, all, alerts) && o.completedAt.Some? && GateOf(ev, o) == GATE_SHIFT_OVERDUE
    ensures exists a :: a in r.anomalies && a.kind == SHIFT_LEFT_OPEN && a.driverId == o.driverId
  {
    hide FlowsOf, FromOrders, OverdueShifts, StageOf, Exposure, SeverityFor;
    var d := o.driverId.value;
    var k :| 0 <= k < |ev.openShifts| && ev.openShifts[k].driverId == d && ShiftOverdue(ev, ev.openShifts[k]);
    var overdue := OverdueShifts(ev, ev.openShifts);
    assert ev.openShifts[k] in overdue;
    var i :| 0 <= i < |overdue| && overdue[i] == ev.openShifts[k];
    assert r.anomalies[i] == alerts[i] == FromShift(ev, overdue[i]);
    assert alerts[i] in r.anomalies;
  }

  ghost predicate Twice(shifts: seq<Shift>) {
    exists i, j :: 0 <= i < j < |shifts| && shifts[i].driverId == shifts[j].driverId
  }

  ghost predicate OverdueTwice(ev: Evidence, shifts: seq<Shift>) {
    exists i, j :: 0 <= i < j < |shifts| && ShiftOverdue(ev, shifts[i]) && ShiftOverdue(ev, shifts[j]) &&
      shifts[i].driverId == shifts[j].driverId
  }

  ghost predicate Has(shifts: seq<Shift>, d: string) {
    exists s :: s in shifts && s.driverId == d
  }

  ghost predicate HasOverdue(ev: Evidence, shifts: seq<Shift>, d: string) {
    exists s :: s in shifts && ShiftOverdue(ev, s) && s.driverId == d
  }

  lemma TwiceStep(a: seq<Shift>, s: Shift)
    ensures Twice(a + [s]) <==> (Twice(a) || Has(a, s.driverId))
  {
    var b := a + [s];
    if Twice(a) {
      var i, j :| 0 <= i < j < |a| && a[i].driverId == a[j].driverId;
      assert b[i].driverId == b[j].driverId;
    }
    if Has(a, s.driverId) {
      var x :| x in a && x.driverId == s.driverId;
      var k :| 0 <= k < |a| && a[k] == x;
      assert b[k].driverId == b[|a|].driverId;
    }
    if Twice(b) {
      var i, j :| 0 <= i < j < |b| && b[i].driverId == b[j].driverId;
      assert b[i] == a[i];
      if j < |a| { assert a[i].driverId == a[j].driverId; } else { assert a[i] in a; }
    }
  }

  lemma OverdueTwiceStep(ev: Evidence, a: seq<Shift>, s: Shift)
    ensures OverdueTwice(ev, a + [s]) <==> (OverdueTwice(ev, a) || (ShiftOverdue(ev, s) && HasOverdue(ev, a, s.driverId)))
  {
    hide ShiftOverdue;
    var b := a + [s];
    if OverdueTwice(ev, a) {
      var i, j :| 0 <= i < j < |a| && ShiftOverdue(ev, a[i]) && ShiftOverdue(ev, a[j]) && a[i].driverId == a[j].driverId;
      assert ShiftOverdue(ev, b[i]) && ShiftOverdue(ev, b[j]);
    }
    if ShiftOverdue(ev, s) && HasOverdue(ev, a, s.driverId) {
      var x :| x in a && ShiftOverdue(ev, x) && x.driverId == s.driverId;
      var k :| 0 <= k < |a| && a[k] == x;
      assert ShiftOverdue(ev, b[k]) && ShiftOverdue(ev, b[|a|]);
    }
    if OverdueTwice(ev, b) {
      var i, j :| 0 <= i < j < |b| && ShiftOverdue(ev, b[i]) && ShiftOverdue(ev, b[j]) && b[i].driverId == b[j].driverId;
      assert b[i] == a[i];
      if j < |a| { assert ShiftOverdue(ev, a[i]) && ShiftOverdue(ev, a[j]); } else { assert a[i] in a; }
    }
  }

  lemma {:induction false} OverdueDriversRepeat(ev: Evidence, shifts: seq<Shift>)
    ensures Twice(OverdueShifts(ev, shifts)) <==> OverdueTwice(ev, shifts)
  {
    hide ShiftOverdue, Twice, OverdueTwice;
    if shifts == [] {
      assert !Twice([]) && !OverdueTwice(ev, []) by { NoneTwice(ev); }
    } else {
      var init, s := shifts[..|shifts| - 1], shifts[|shifts| - 1];
      OverdueDriversRepeat(ev, init);
      assert shifts == init + [s];
      OverdueTwiceStep(ev, init, s);
      var a := OverdueShifts(ev, init);
      TwiceStep(a, s);
      assert Has(a, s.driverId) <==> HasOverdue(ev, init, s.driverId);
      assert OverdueShifts(ev, shifts) == a + if ShiftOverdue(ev, s) then [s] else [];
      assert a + [] == a;
    }
  }

  lemma NoneTwice(ev: Evidence)
    ensures !Twice([]) && !OverdueTwice(ev, [])
  {
  }

  /** The alerts name each driver once exactly when no driver has two overdue shifts open. */
  lemma OneAlertPerDriverIff(ev: Evidence, alerts: seq<Anomaly>)
    requires ShiftAlerts(alerts, ev, OverdueShifts(ev, ev.openShifts))
    ensures (forall i, j :: 0 <= i < j < |alerts| ==> alerts[i].driverId != alerts[j].driverId) <==>
      !OverdueTwice(ev, ev.openShifts)
  {
    hide OverdueShifts, Exposure, SeverityFor, ShiftOverdue, OverdueTwice;
    OverdueDriversRepeat(ev, ev.openShifts);
    var overdue := OverdueShifts(ev, ev.openShifts);
    forall i | 0 <= i < |alerts| ensures alerts[i].driverId == Some(overdue[i].driverId) {}
    if Twice(overdue) {
      var i, j :| 0 <= i < j < |overdue| && overdue[i].driverId == overdue[j].driverId;
      assert alerts[i].driverId == alerts[j].driverId;
    } else {
      forall i, j | 0 <= i < j < |alerts| ensures alerts[i].driverId != alerts[j].driverId {
        assert overdue[i].driverId != overdue[j].driverId;
      }
    }
  }
}
