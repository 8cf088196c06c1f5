/**
 * The evidence the cash analysis reads, and what its verdicts mean in terms of that evidence alone.
 * Times are milliseconds of the UTC epoch, days are Kuwait calendar days, amounts are in units of 0.0001 KD.
 */
module CashEvidence {
  import opened Wrappers
  import opened Fixed4
  import opened KeyedSums
  import opened KuwaitCalendar

  const HOUR := 3_600_000
  const DAY := 86_400_000
  const SHIFT_OVERDUE := 16 * HOUR
  const TOLERANCE_MINOR := 100
  const SMALL_THRESHOLD_MINOR := 200_000
  const LARGE_THRESHOLD_MINOR := 2_000_000

  datatype CashStatus = UNPAID | PAID_TO_DRIVER | HANDED_OVER_TO_OFFICE | PAID_ONLINE
  datatype ShiftStatus = OPEN | CLOSED
  datatype CustodyStatus = PENDING_DEPOSIT | AWAITING_VERIFICATION | CUSTODY_VERIFIED | CUSTODY_REJECTED
  datatype LogStatus = LOG_PENDING | LOG_VERIFIED
  datatype DepositStatus = DEPOSIT_PENDING | APPROVED | DEPOSIT_REJECTED

  datatype Order = Order(
    id: string, totalPrice: int, cashStatus: CashStatus, completedAt: Option<int>, paidInCash: bool,
    subscriptionId: Option<string>, driverId: Option<string>, handoverShiftId: Option<string>)
  datatype Shift = Shift(id: string, status: ShiftStatus, driverId: string, startedAt: int)
  datatype BankLog = BankLog(id: string, status: LogStatus, amountKd: int)
  datatype Custody = Custody(
    id: string, status: CustodyStatus, shiftId: Option<string>, amountKd: int, bankDepositLog: Option<BankLog>)
  datatype Deposit = Deposit(driverId: string, status: DepositStatus, createdAt: int)

  /** One reading of the tables; `branchOf` holds the branch of each driver that has one. */
  datatype Evidence = Evidence(
    orders: seq<Order>, handoverShifts: seq<Shift>, custodies: seq<Custody>, openShifts: seq<Shift>,
    deposits: seq<Deposit>, branchOf: map<string, string>, generatedAt: int, reportDay: int)

  datatype Stage = DRIVER | DRIVER_HANDOVER | CUSTODY | VERIFIED | DEPOSIT | BANK
  datatype Gate = GATE_SHIFT_OVERDUE | ACTIVE_FLOW | HISTORICAL_BALANCE | NO_ACTIVITY_TODAY
  datatype Reason = NEW_CASH_SAME_DAY | SHIFT_OVERDUE_OVERRIDE_ACTIVE | ACTIVE_OPEN_SHIFT | IDLE_SAME_DAY
                  | AGED_BALANCE | PIPELINE_TIMING_NOT_RISK | BRANCH_IDLE | ACTIVE_FLOW_AGED | NO_OPERATIONAL_RISK
  datatype Tier = SMALL | MEDIUM | LARGE
  datatype Severity = INFO | WARNING | CRITICAL | CRITICAL_ESCALATED

  datatype Kind = SHIFT_LEFT_OPEN | STUCK_AT_DRIVER | HANDOVER_DELAY | CUSTODY_DELAY | DEPOSIT_NOT_REGISTERED
                | DEPOSIT_AMOUNT_MISMATCH | OVERPAYMENT_ANOMALY | SUBSCRIPTION_LEAKAGE | DOUBLE_COUNT_RISK

  datatype Flow = Flow(
    orderId: string, driverId: Option<string>, branchId: Option<string>, amountMinor: int, originAt: int,
    ageDays: nat, stage: Stage, gate: Gate, ignored: bool, reason: Reason, custodyId: Option<string>)

  datatype Anomaly = Anomaly(
    kind: Kind, severity: Severity, amountMinor: int, ageDays: nat, stage: Stage,
    driverId: Option<string>, branchId: Option<string>, actionLocked: bool)

  /** Primary keys are unique and no id is the empty string. */
  ghost predicate WellFormed(ev: Evidence) {
    && (forall i, j :: 0 <= i < j < |ev.orders| ==> ev.orders[i].id != ev.orders[j].id)
    && (forall i, j :: 0 <= i < j < |ev.custodies| ==> ev.custodies[i].id != ev.custodies[j].id)
    && (forall i :: 0 <= i < |ev.custodies| ==> ev.custodies[i].id != "")
    && (forall i :: 0 <= i < |ev.custodies| && ev.custodies[i].bankDepositLog.Some? ==>
          ev.custodies[i].bankDepositLog.value.id != "")
  }

  // ---- time

  predicate Today(ev: Evidence, ms: int) {
    StartOfDay(ev.reportDay) <= ms < StartOfDay(ev.reportDay) + DAY
  }

  lemma TodayIsTheReportDay(ev: Evidence, ms: int)
    ensures Today(ev, ms) <==> KuwaitDay(ms) == ev.reportDay
  {
  }

  predicate CompletedToday(ev: Evidence, o: Order) {
    o.completedAt.Some? && Today(ev, o.completedAt.value)
  }

  lemma TodayIsCompleted(ev: Evidence, o: Order)
    ensures CompletedToday(ev, o) ==> o.completedAt.Some?
  {
  }

  function AgeDays(ev: Evidence, completedAt: int): nat {
    var d := ev.reportDay - KuwaitDay(completedAt);
    if d <= 0 then 0 else d
  }

  // ---- amounts and severities

  function ClassifyAmountTier(minor: int): Tier {
    if minor < SMALL_THRESHOLD_MINOR then SMALL else if minor <= LARGE_THRESHOLD_MINOR then MEDIUM else LARGE
  }

  function SeverityFor(tier: Tier, ageDays: nat): Severity {
    if ageDays >= 2 then
      if tier == LARGE then CRITICAL_ESCALATED else if tier == MEDIUM then CRITICAL else WARNING
    else if ageDays == 1 then
      if tier == LARGE then CRITICAL else if tier == MEDIUM then WARNING else INFO
    else if tier == LARGE then WARNING
    else INFO
  }

  function Rank(s: Severity): nat {
    match s
    case INFO => 0
    case WARNING => 1
    case CRITICAL => 2
    case CRITICAL_ESCALATED => 3
  }

  /** More money or more days never lower the severity. */
  lemma SeverityIsMonotone(a: int, b: int, m: nat, n: nat)
    requires a <= b && m <= n
    ensures Rank(SeverityFor(ClassifyAmountTier(a), m)) <= Rank(SeverityFor(ClassifyAmountTier(b), n))
  {
  }

  /** Critical takes at least a calendar day and at least 20 KD; escalated two days and more than 200 KD. */
  lemma CriticalNeeds(minor: int, ageDays: nat)
    ensures
      var s := SeverityFor(ClassifyAmountTier(minor), ageDays);
      && (Rank(s) >= 2 <==> (ageDays >= 2 && minor >= 200_000) || (ageDays == 1 && minor > 2_000_000))
      && (s == CRITICAL_ESCALATED <==> ageDays >= 2 && minor > 2_000_000)
  {
  }

  // ---- one driver, over all tables

  predicate OpenFor(shifts: seq<Shift>, d: string) {
    exists k :: 0 <= k < |shifts| && shifts[k].driverId == d
  }

  predicate ShiftOverdue(ev: Evidence, s: Shift) {
    ev.generatedAt - s.startedAt > SHIFT_OVERDUE
  }

  /** Some open shift of the driver is past the cap. */
  predicate Overdue(ev: Evidence, d: string) {
    exists k :: 0 <= k < |ev.openShifts| && ev.openShifts[k].driverId == d && ShiftOverdue(ev, ev.openShifts[k])
  }

  predicate Drives(o: Order, d: string) {
    Named(o.driverId) && o.driverId.value == d
  }

  predicate OrderedToday(ev: Evidence, d: string) {
    exists k :: 0 <= k < |ev.orders| && Drives(ev.orders[k], d) && CompletedToday(ev, ev.orders[k])
  }

  datatype DriverAgg = DriverAgg(ordersTodayCount: nat, collectedCashTodayMinor: int, remainingCashMinor: int)

  const NO_CASH := DriverAgg(0, 0, 0)

  predicate StillOut(o: Order) {
    o.cashStatus == PAID_TO_DRIVER || (o.cashStatus == HANDED_OVER_TO_OFFICE && !Named(o.handoverShiftId))
  }

  function AddOrder(ev: Evidence, a: DriverAgg, o: Order): DriverAgg {
    DriverAgg(a.ordersTodayCount + if CompletedToday(ev, o) then 1 else 0,
              a.collectedCashTodayMinor + if CompletedToday(ev, o) then o.totalPrice else 0,
              a.remainingCashMinor + if StillOut(o) then o.totalPrice else 0)
  }

  function AggOf(ev: Evidence, orders: seq<Order>, d: string): DriverAgg {
    if orders == [] then NO_CASH
    else
      var o := orders[|orders| - 1];
      var a := AggOf(ev, orders[..|orders| - 1], d);
      if Drives(o, d) && o.completedAt.Some? then AddOrder(ev, a, o) else a
  }

  lemma {:induction false} CountMeansOrdered(ev: Evidence, n: nat, d: string)
    requires n <= |ev.orders|
    ensures AggOf(ev, ev.orders[..n], d).ordersTodayCount > 0 <==>
      exists k :: 0 <= k < n && Drives(ev.orders[k], d) && CompletedToday(ev, ev.orders[k])
    ensures AggOf(ev, ev.orders[..n], d).ordersTodayCount == 0 ==>
      AggOf(ev, ev.orders[..n], d).collectedCashTodayMinor == 0
  {
    hide CompletedToday, StillOut;
    if n > 0 {
      CountMeansOrdered(ev, n - 1, d);
      assert ev.orders[..n][..n - 1] == ev.orders[..n - 1];
      var o := ev.orders[n - 1];
      TodayIsCompleted(ev, o);
    }
  }

  // ---- the balances, on the fields of the orders

  predicate IsOf(o: Order, d: string) {
    o.completedAt.Some? && o.driverId == Some(d) && d != ""
  }

  /** Completed cash of the driver in one status, with a handover shift or without. */
  function CashIn(orders: seq<Order>, d: string, status: CashStatus, withShift: bool): int {
    if orders == [] then 0
    else
      var o := orders[|orders| - 1];
      CashIn(orders[..|orders| - 1], d, status, withShift) +
      if IsOf(o, d) && o.cashStatus == status && (o.handoverShiftId != None && o.handoverShiftId != Some("")) == withShift
      then o.totalPrice else 0
  }

  /** Completed cash of the driver on one Kuwait day. */
  function CashOn(orders: seq<Order>, d: string, day: int): int {
    if orders == [] then 0
    else
      var o := orders[|orders| - 1];
      CashOn(orders[..|orders| - 1], d, day) + if IsOf(o, d) && KuwaitDay(o.completedAt.value) == day then o.totalPrice else 0
  }

  function CompletedCash(orders: seq<Order>, d: string): int {
    if orders == [] then 0
    else
      var o := orders[|orders| - 1];
      CompletedCash(orders[..|orders| - 1], d) + if IsOf(o, d) then o.totalPrice else 0
  }

  /**
   * Still out is what was paid to the driver and what was handed over without a shift; with the cash handed
   * over under a shift, the unpaid and the online orders it makes up all completed cash of the driver.
   */
  lemma {:induction false} RemainingIsOut(ev: Evidence, orders: seq<Order>, d: string)
    ensures AggOf(ev, orders, d).remainingCashMinor ==
      CashIn(orders, d, PAID_TO_DRIVER, true) + CashIn(orders, d, PAID_TO_DRIVER, false)
      + CashIn(orders, d, HANDED_OVER_TO_OFFICE, false)
    ensures AggOf(ev, orders, d).remainingCashMinor + CashIn(orders, d, HANDED_OVER_TO_OFFICE, true)
      + CashIn(orders, d, UNPAID, true) + CashIn(orders, d, UNPAID, false)
      + CashIn(orders, d, PAID_ONLINE, true) + CashIn(orders, d, PAID_ONLINE, false)
      == CompletedCash(orders, d)
  {
    hide Today;
    if orders != [] {
      RemainingIsOut(ev, orders[..|orders| - 1], d);
    }
  }

  /** Collected today is the completed cash of the report day. */
  lemma {:induction false} CollectedIsOfTheDay(ev: Evidence, orders: seq<Order>, d: string)
    ensures AggOf(ev, orders, d).collectedCashTodayMinor == CashOn(orders, d, ev.reportDay)
  {
    hide StillOut, KuwaitDay, Today;
    if orders != [] {
      var o := orders[|orders| - 1];
      CollectedIsOfTheDay(ev, orders[..|orders| - 1], d);
      if o.completedAt.Some? { TodayIsTheReportDay(ev, o.completedAt.value); }
    }
  }

  /** An order whose money its driver still holds. */
  predicate HeldByDriver(o: Order, d: string) {
    && IsOf(o, d) && o.totalPrice > 0
    && (o.cashStatus == PAID_TO_DRIVER
        || (o.cashStatus == HANDED_OVER_TO_OFFICE && (o.handoverShiftId == None || o.handoverShiftId == Some(""))))
  }

  lemma {:induction false} RemainingIsPositiveIff(ev: Evidence, orders: seq<Order>, d: string)
    requires forall o :: o in orders ==> o.totalPrice >= 0
    ensures AggOf(ev, orders, d).remainingCashMinor >= 0
    ensures AggOf(ev, orders, d).remainingCashMinor > 0 <==> exists o :: o in orders && HeldByDriver(o, d)
  {
    hide Today;
    if orders != [] {
      var init, o := orders[..|orders| - 1], orders[|orders| - 1];
      assert orders == init + [o];
      RemainingIsPositiveIff(ev, init, d);
      if x :| x in init && HeldByDriver(x, d) { assert x in orders; }
      if x :| x in orders && HeldByDriver(x, d) && x != o { assert x in init; }
      assert AggOf(ev, orders, d).remainingCashMinor > 0 <==> AggOf(ev, init, d).remainingCashMinor > 0 || HeldByDriver(o, d);
    }
  }

  function BranchId(ev: Evidence, o: Order): Option<string> {
    if Named(o.driverId) && o.driverId.value in ev.branchOf then Some(ev.branchOf[o.driverId.value]) else None
  }

  predicate BranchActive(ev: Evidence, orders: seq<Order>, b: string) {
    exists k :: 0 <= k < |orders| && CompletedToday(ev, orders[k]) && BranchId(ev, orders[k]) == Some(b)
  }

  // ---- where the cash is

  function LastShift(shifts: seq<Shift>, id: string): Option<Shift> {
    if shifts == [] then None
    else if shifts[|shifts| - 1].id == id then Some(shifts[|shifts| - 1])
    else LastShift(shifts[..|shifts| - 1], id)
  }

  function LastCustody(custodies: seq<Custody>, shiftId: string): (c: Option<Custody>)
    ensures c.Some? ==> c.value in custodies
  {
    if custodies == [] then None
    else
      var c := custodies[|custodies| - 1];
      if Named(c.shiftId) && c.shiftId.value == shiftId then Some(c)
      else LastCustody(custodies[..|custodies| - 1], shiftId)
  }

  /** Of several shifts with the id the last one counts. */
  lemma {:induction false} LastShiftMeans(shifts: seq<Shift>, id: string)
    ensures LastShift(shifts, id) == None <==> forall k :: 0 <= k < |shifts| ==> shifts[k].id != id
    ensures LastShift(shifts, id).Some? ==>
      exists k :: 0 <= k < |shifts| && shifts[k] == LastShift(shifts, id).value && shifts[k].id == id
        && forall j :: k < j < |shifts| ==> shifts[j].id != id
  {
    if shifts != [] && shifts[|shifts| - 1].id != id {
      var init := shifts[..|shifts| - 1];
      LastShiftMeans(init, id);
      assert forall k :: 0 <= k < |init| ==> init[k] == shifts[k];
    }
  }

  /** Of several bags of the shift the last one counts. */
  lemma {:induction false} LastCustodyMeans(custodies: seq<Custody>, shiftId: string)
    requires shiftId != ""
    ensures LastCustody(custodies, shiftId) == None <==> forall k :: 0 <= k < |custodies| ==> custodies[k].shiftId != Some(shiftId)
    ensures LastCustody(custodies, shiftId).Some? ==>
      exists k :: 0 <= k < |custodies| && custodies[k] == LastCustody(custodies, shiftId).value
        && custodies[k].shiftId == Some(shiftId) && forall j :: k < j < |custodies| ==> custodies[j].shiftId != Some(shiftId)
  {
    if custodies != [] && custodies[|custodies| - 1].shiftId != Some(shiftId) {
      var init := custodies[..|custodies| - 1];
      LastCustodyMeans(init, shiftId);
      assert forall k :: 0 <= k < |init| ==> init[k] == custodies[k];
    }
  }

  function ShiftOf(ev: Evidence, o: Order): Option<Shift> {
    if Named(o.handoverShiftId) then LastShift(ev.handoverShifts, o.handoverShiftId.value) else None
  }

  function CustodyOf(ev: Evidence, o: Order): (c: Option<Custody>)
    ensures c.Some? ==> c.value in ev.custodies
  {
    if Named(o.handoverShiftId) then LastCustody(ev.custodies, o.handoverShiftId.value) else None
  }

  /** The farthest link of the chain there is evidence for. */
  function ClassifyStage(
      shiftId: Option<string>, shiftStatus: Option<ShiftStatus>, custodyId: Option<string>,
      custodyStatus: Option<CustodyStatus>, depositId: Option<string>, depositStatus: Option<LogStatus>): Stage
  {
    if depositStatus == Some(LOG_VERIFIED) then BANK
    else if Named(depositId) then DEPOSIT
    else if custodyStatus == Some(CUSTODY_VERIFIED) then VERIFIED
    else if Named(custodyId) then CUSTODY
    else if Named(shiftId) && shiftStatus == Some(CLOSED) then DRIVER_HANDOVER
    else DRIVER
  }

  function StageOf(ev: Evidence, o: Order): Stage {
    var shift, custody := ShiftOf(ev, o), CustodyOf(ev, o);
    var log := if custody.Some? then custody.value.bankDepositLog else None;
    ClassifyStage(
      o.handoverShiftId,
      if shift.Some? then Some(shift.value.status) else None,
      if custody.Some? then Some(custody.value.id) else None,
      if custody.Some? then Some(custody.value.status) else None,
      if log.Some? then Some(log.value.id) else None,
      if log.Some? then Some(log.value.status) else None)
  }

  /** What each stage says about the custody bag. */
  lemma StageMeans(ev: Evidence, o: Order)
    requires WellFormed(ev)
    ensures
      var c, s := CustodyOf(ev, o), StageOf(ev, o);
      && (s == DRIVER || s == DRIVER_HANDOVER <==> c.None?)
      && (s == DRIVER_HANDOVER <==> c.None? && ShiftOf(ev, o).Some? && ShiftOf(ev, o).value.status == CLOSED)
      && (s == CUSTODY || s == VERIFIED <==> c.Some? && c.value.bankDepositLog.None?)
      && (s == VERIFIED <==> c.Some? && c.value.bankDepositLog.None? && c.value.status == CUSTODY_VERIFIED)
      && (s == DEPOSIT <==> c.Some? && c.value.bankDepositLog.Some? && c.value.bankDepositLog.value.status != LOG_VERIFIED)
  {
    hide LastShift, LastCustody;
    var c := CustodyOf(ev, o);
    if c.Some? {
      var k :| 0 <= k < |ev.custodies| && ev.custodies[k] == c.value;
      assert ev.custodies[k].id != "";
    }
  }

  predicate Pipeline(s: Stage) {
    s == VERIFIED || s == DEPOSIT || s == BANK
  }

  // ---- the verdict on one completed order

  predicate DriverOverdue(ev: Evidence, o: Order) {
    Named(o.driverId) && Overdue(ev, o.driverId.value)
  }

  predicate DriverOpen(ev: Evidence, o: Order) {
    Named(o.driverId) && OpenFor(ev.openShifts, o.driverId.value)
  }

  predicate DriverActive(ev: Evidence, o: Order) {
    Named(o.driverId) && OrderedToday(ev, o.driverId.value)
  }

  function Remaining(ev: Evidence, o: Order): int {
    if Named(o.driverId) then AggOf(ev, ev.orders, o.driverId.value).remainingCashMinor else 0
  }

  function GateOf(ev: Evidence, o: Order): Gate
    requires o.completedAt.Some?
  {
    if DriverOverdue(ev, o) then GATE_SHIFT_OVERDUE
    else if DriverActive(ev, o) then ACTIVE_FLOW
    else if Remaining(ev, o) > 0 && AgeDays(ev, o.completedAt.value) >= 1 then HISTORICAL_BALANCE
    else NO_ACTIVITY_TODAY
  }

  /** Aged cash raises concern exactly when its driver overran a shift, or works today with the shift closed. */
  predicate Raises(ev: Evidence, o: Order)
    requires o.completedAt.Some?
  {
    var age := AgeDays(ev, o.completedAt.value);
    && age != 0
    && (DriverOverdue(ev, o) ||
        (!DriverOpen(ev, o) && DriverActive(ev, o) && (age == 1 || !Pipeline(StageOf(ev, o)))))
  }

  function ReasonOf(ev: Evidence, o: Order): Reason
    requires o.completedAt.Some?
  {
    var age := AgeDays(ev, o.completedAt.value);
    if age == 0 then NEW_CASH_SAME_DAY
    else if DriverOverdue(ev, o) then SHIFT_OVERDUE_OVERRIDE_ACTIVE
    else if DriverOpen(ev, o) then ACTIVE_OPEN_SHIFT
    else if GateOf(ev, o) == HISTORICAL_BALANCE then AGED_BALANCE
    else if age >= 2 && Pipeline(StageOf(ev, o)) then PIPELINE_TIMING_NOT_RISK
    else if DriverActive(ev, o) then ACTIVE_FLOW_AGED
    else if Named(BranchId(ev, o)) && !BranchActive(ev, ev.orders, BranchId(ev, o).value) then BRANCH_IDLE
    else NO_OPERATIONAL_RISK
  }

  function FlowOf(ev: Evidence, o: Order): Flow
    requires o.completedAt.Some?
  {
    Flow(o.id, o.driverId, BranchId(ev, o), o.totalPrice, o.completedAt.value, AgeDays(ev, o.completedAt.value),
         StageOf(ev, o), GateOf(ev, o), !Raises(ev, o), ReasonOf(ev, o),
         if CustodyOf(ev, o).Some? then Some(CustodyOf(ev, o).value.id) else None)
  }

  /** A working driver's branch is working: the idle-branch test can never hide an active flow. */
  lemma ActiveDriverActiveBranch(ev: Evidence, o: Order)
    requires DriverActive(ev, o) && BranchId(ev, o).Some?
    ensures BranchActive(ev, ev.orders, BranchId(ev, o).value)
  {
    hide CompletedToday;
    var k :| 0 <= k < |ev.orders| && Drives(ev.orders[k], o.driverId.value) && CompletedToday(ev, ev.orders[k]);
    assert BranchId(ev, ev.orders[k]) == BranchId(ev, o);
  }

  lemma OverdueMeansOpen(ev: Evidence, o: Order)
    ensures DriverOverdue(ev, o) ==> DriverOpen(ev, o)
  {
    if DriverOverdue(ev, o) {
      var d := o.driverId.value;
      var k :| 0 <= k < |ev.openShifts| && ev.openShifts[k].driverId == d && ShiftOverdue(ev, ev.openShifts[k]);
      assert ev.openShifts[k].driverId == d;
    }
  }

  // ---- the gate, on the fields of the rows

  /** An open shift of the driver lasting for more than sixteen hours. */
  ghost predicate OverrunBy(ev: Evidence, d: string) {
    exists s :: s in ev.openShifts && s.driverId == d && ev.generatedAt - s.startedAt > 57_600_000
  }

  /** An order the driver completed on the report day. */
  ghost predicate WorkedToday(ev: Evidence, d: string) {
    exists o :: o in ev.orders && IsOf(o, d) && KuwaitDay(o.completedAt.value) == ev.reportDay
  }

  lemma OverdueIsOverrun(ev: Evidence, d: string)
    ensures Overdue(ev, d) <==> OverrunBy(ev, d)
  {
    if Overdue(ev, d) {
      var k :| 0 <= k < |ev.openShifts| && ev.openShifts[k].driverId == d && ShiftOverdue(ev, ev.openShifts[k]);
      assert ev.openShifts[k] in ev.openShifts;
    }
    if OverrunBy(ev, d) {
      var s :| s in ev.openShifts && s.driverId == d && ev.generatedAt - s.startedAt > 57_600_000;
      var k :| 0 <= k < |ev.openShifts| && ev.openShifts[k] == s;
      assert ShiftOverdue(ev, ev.openShifts[k]);
    }
  }

  lemma ActiveIsWorking(ev: Evidence, d: string)
    ensures OrderedToday(ev, d) <==> WorkedToday(ev, d)
  {
    hide Today, KuwaitDay;
    if OrderedToday(ev, d) {
      var k :| 0 <= k < |ev.orders| && Drives(ev.orders[k], d) && CompletedToday(ev, ev.orders[k]);
      TodayIsTheReportDay(ev, ev.orders[k].completedAt.value);
      assert ev.orders[k] in ev.orders;
    }
    if WorkedToday(ev, d) {
      var o :| o in ev.orders && IsOf(o, d) && KuwaitDay(o.completedAt.value) == ev.reportDay;
      TodayIsTheReportDay(ev, o.completedAt.value);
      var k :| 0 <= k < |ev.orders| && ev.orders[k] == o;
      assert Drives(ev.orders[k], d) && CompletedToday(ev, ev.orders[k]);
    }
  }

  /**
   * The gate of a completed order of driver d, for prices that are not negative: an overrun shift first, then
   * an order today, then aged cash while the driver still holds some money.
   */
  lemma GateMeans(ev: Evidence, o: Order, d: string)
    requires IsOf(o, d) && forall x :: x in ev.orders ==> x.totalPrice >= 0
    ensures GateOf(ev, o) == GATE_SHIFT_OVERDUE <==> OverrunBy(ev, d)
    ensures GateOf(ev, o) == ACTIVE_FLOW <==> !OverrunBy(ev, d) && WorkedToday(ev, d)
    ensures GateOf(ev, o) == HISTORICAL_BALANCE <==>
      (&& !OverrunBy(ev, d) && !WorkedToday(ev, d) && KuwaitDay(o.completedAt.value) < ev.reportDay
       && exists x :: x in ev.orders && HeldByDriver(x, d))
  {
    hide AggOf, OverrunBy, WorkedToday, Overdue, OrderedToday, HeldByDriver, KuwaitDay;
    OverdueIsOverrun(ev, d);
    ActiveIsWorking(ev, d);
    RemainingIsPositiveIff(ev, ev.orders, d);
  }

  /** Which severities are warnings; with the critical ones above, every severity is fixed. */
  lemma WarningNeeds(minor: int, ageDays: nat)
    ensures SeverityFor(ClassifyAmountTier(minor), ageDays) == WARNING <==>
      ((ageDays >= 2 && minor < 200_000) || (ageDays == 1 && 200_000 <= minor <= 2_000_000) || (ageDays == 0 && minor > 2_000_000))
  {
  }
}
