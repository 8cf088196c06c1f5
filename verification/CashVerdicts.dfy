/**
 * The cash pipeline end to end: which rows of the tables turn the dashboard light red, and which make
 * its scenario contract fail.
 */
module CashVerdicts {
  import opened Wrappers
  import opened Fixed4
  import opened KeyedSums
  import opened KuwaitCalendar
  import opened CashEvidence
  import opened CashAnalysis
  import opened CashAnomalies
  import opened CashClassifier

  // ---- conditions on the tables

  /** Ages are rounded to hundredths of an hour: 24.00 hours start eighteen seconds early. */
  const OLD := FRESH - 18_000

  /** The order is cash of the driver that is not banked yet. */
  predicate LiveCash(ev: Evidence, o: Order, d: string) {
    o.completedAt.Some? && Drives(o, d) && StageOf(ev, o) != BANK && o.totalPrice > 0
  }

  predicate OldCash(ev: Evidence, o: Order, d: string) {
    LiveCash(ev, o, d) && ev.generatedAt - o.completedAt.value >= OLD
  }

  ghost predicate HasLiveCash(ev: Evidence, d: string) {
    exists o :: o in ev.orders && LiveCash(ev, o, d)
  }

  ghost predicate HasOldCash(ev: Evidence, d: string) {
    exists o :: o in ev.orders && OldCash(ev, o, d)
  }

  /** Verified cash without a deposit, a deposit off by more than the tolerance, or a second deposit nearby. */
  predicate BreaksChain(ev: Evidence, o: Order) {
    var c := CustodyOf(ev, o);
    || StageOf(ev, o) == VERIFIED
    || (StageOf(ev, o) == DEPOSIT && c.Some? && c.value.bankDepositLog.Some?
        && Abs(c.value.bankDepositLog.value.amountKd - c.value.amountKd) > TOLERANCE_MINOR)
    || DoublyCounted(ev, o)
  }

  predicate CriticalSize(minor: int, ageDays: nat) {
    (ageDays >= 2 && minor >= SMALL_THRESHOLD_MINOR) || (ageDays == 1 && minor > LARGE_THRESHOLD_MINOR)
  }

  /** The order turns the light red: large and aged enough, and a broken chain or old cash of its driver. */
  ghost predicate TurnsLightRed(ev: Evidence, o: Order) {
    && o.completedAt.Some? && Visible(ev, o) && Named(o.driverId)
    && CriticalSize(o.totalPrice, AgeDays(ev, o.completedAt.value))
    && (BreaksChain(ev, o) || (KindsOf(ev, o) != [] && HasOldCash(ev, o.driverId.value)))
  }

  /** The order breaks the scenario contract: a broken chain over a small amount or fresh cash only. */
  ghost predicate BreaksContract(ev: Evidence, o: Order) {
    && o.completedAt.Some? && Visible(ev, o) && Named(o.driverId) && BreaksChain(ev, o)
    && (o.totalPrice < FLOOR || (HasLiveCash(ev, o.driverId.value) && !HasOldCash(ev, o.driverId.value)))
  }

  // ---- the published flows are the live cash

  lemma {:induction false} FilterMembers(p: Flow -> bool, flows: seq<Flow>)
    ensures forall f :: f in Filter(p, flows) <==> f in flows && p(f)
  {
    if flows != [] {
      assert flows == flows[..|flows| - 1] + [flows[|flows| - 1]];
      FilterMembers(p, flows[..|flows| - 1]);
    }
  }

  lemma {:induction false} FlowsForMembers(flows: seq<LiveFlow>, d: string)
    ensures forall f :: f in FlowsFor(flows, d) <==> f in flows && Counts(f) && f.driverId == d
  {
    if flows != [] {
      assert flows == flows[..|flows| - 1] + [flows[|flows| - 1]];
      FlowsForMembers(flows[..|flows| - 1], d);
    }
  }

  /** The order as the analysis publishes it. */
  function Published(ev: Evidence, o: Order): LiveFlow
    requires o.completedAt.Some?
  {
    ToPublic(ev, FlowOf(ev, o))
  }

  lemma PublishedIsLive(ev: Evidence, o: Order, d: string)
    requires o.completedAt.Some? && d != ""
    ensures Counts(Published(ev, o)) && Published(ev, o).driverId == d && StageOf(ev, o) != BANK <==> LiveCash(ev, o, d)
    ensures Published(ev, o).ageHours >= GRACE <==> ev.generatedAt - o.completedAt.value >= OLD
  {
    hide StageOf, CustodyOf, GateOf, ReasonOf, Raises, BranchId;
    AgeInHours(ev.generatedAt - o.completedAt.value);
  }

  lemma AgeInHours(ms: int)
    ensures AgeHours(ms) >= GRACE <==> ms >= OLD
  {
  }

  /** A live flow comes from an unbanked order, and each unbanked order gives one. */
  lemma FlowOrigin(ev: Evidence, r: Analysis, all: seq<Flow>, alerts: seq<Anomaly>, f: LiveFlow) returns (o: Order)
    requires Analyses(r, ev, all, alerts) && f in ToPublicAll(ev, r.flows)
    ensures o in ev.orders && o.completedAt.Some? && StageOf(ev, o) != BANK && f == Published(ev, o)
  {
    hide Filter, StageOf, CustodyOf, GateOf, ReasonOf, Raises, BranchId, Completed, FromOrders, ToPublic, ShiftAlerts;
    var i :| 0 <= i < |r.flows| && ToPublicAll(ev, r.flows)[i] == f;
    FilterMembers(LIVE, all);
    assert r.flows[i] in Filter(LIVE, all);
    var k :| 0 <= k < |all| && all[k] == r.flows[i];
    o := Completed(ev.orders)[k];
    assert o in Completed(ev.orders);
  }

  lemma FlowOfOrder(ev: Evidence, r: Analysis, all: seq<Flow>, alerts: seq<Anomaly>, o: Order)
    requires Analyses(r, ev, all, alerts) && o in ev.orders && o.completedAt.Some? && StageOf(ev, o) != BANK
    ensures Published(ev, o) in ToPublicAll(ev, r.flows)
  {
    hide Filter, StageOf, CustodyOf, GateOf, ReasonOf, Raises, BranchId, Completed, FromOrders, ToPublic, ShiftAlerts;
    assert o in Completed(ev.orders);
    var k :| 0 <= k < |Completed(ev.orders)| && Completed(ev.orders)[k] == o;
    FilterMembers(LIVE, all);
    assert all[k] in r.flows;
    var i :| 0 <= i < |r.flows| && r.flows[i] == all[k];
    assert ToPublicAll(ev, r.flows)[i] == Published(ev, o);
  }

  /** What the classifier reads off the flows of a driver, in terms of the orders. */
  lemma DriverCash(ev: Evidence, r: Analysis, all: seq<Flow>, alerts: seq<Anomaly>, d: string)
    requires Analyses(r, ev, all, alerts) && d != ""
    ensures
      var mine := FlowsFor(ToPublicAll(ev, r.flows), d);
      && (mine != [] <==> HasLiveCash(ev, d))
      && (Oldest(mine) >= GRACE <==> HasOldCash(ev, d))
  {
    hide Analyses, FlowsFor, Oldest, LiveCash, Published, Counts, StageOf, ToPublicAll;
    var flows := ToPublicAll(ev, r.flows);
    var mine := FlowsFor(flows, d);
    FlowsForMembers(flows, d);
    if mine != [] {
      assert mine[0] in mine;
      var o := FlowOrigin(ev, r, all, alerts, mine[0]);
      PublishedIsLive(ev, o, d);
    }
    if HasLiveCash(ev, d) {
      var o :| o in ev.orders && LiveCash(ev, o, d);
      LiveIsCompleted(ev, o, d);
      FlowOfOrder(ev, r, all, alerts, o);
      PublishedIsLive(ev, o, d);
      assert Published(ev, o) in mine;
    }
    assert OldestOf(Oldest(mine), mine);
    if Oldest(mine) >= GRACE {
      var i :| 0 <= i < |mine| && mine[i].ageHours == Oldest(mine);
      assert mine[i] in mine;
      var o := FlowOrigin(ev, r, all, alerts, mine[i]);
      PublishedIsLive(ev, o, d);
      assert OldCash(ev, o, d);
    }
    if HasOldCash(ev, d) {
      var o :| o in ev.orders && OldCash(ev, o, d);
      LiveIsCompleted(ev, o, d);
      FlowOfOrder(ev, r, all, alerts, o);
      PublishedIsLive(ev, o, d);
      assert Published(ev, o) in mine;
      var i :| 0 <= i < |mine| && mine[i] == Published(ev, o);
    }
  }

  lemma LiveIsCompleted(ev: Evidence, o: Order, d: string)
    requires LiveCash(ev, o, d)
    ensures o.completedAt.Some? && StageOf(ev, o) != BANK
  {
  }

  /** The age an anomaly of an order is judged by. */
  lemma JudgedAge(ev: Evidence, r: Analysis, all: seq<Flow>, alerts: seq<Anomaly>, o: Order, a: Anomaly)
    requires Analyses(r, ev, all, alerts) && o.completedAt.Some? && a in FromOrder(ev, o)
    ensures Named(o.driverId) && a.driverId == o.driverId
    ensures CashAge(ToPublicAll(ev, r.flows), a) < GRACE <==>
      (HasLiveCash(ev, o.driverId.value) && !HasOldCash(ev, o.driverId.value))
  {
    hide Analyses, FlowsFor, Oldest, FromOrder, HasLiveCash, HasOldCash, StageOf, ToPublicAll;
    AnomalyTakes(ev, o, a);
    DriverCash(ev, r, all, alerts, o.driverId.value);
  }

  lemma LiveItself(ev: Evidence, o: Order)
    requires o in ev.orders && o.completedAt.Some? && Named(o.driverId) && StageOf(ev, o) != BANK && o.totalPrice > 0
    ensures HasLiveCash(ev, o.driverId.value)
  {
    hide StageOf;
    assert LiveCash(ev, o, o.driverId.value);
  }

  lemma ChainBreaksAre(ev: Evidence, o: Order)
    requires WellFormed(ev)
    ensures BreaksChain(ev, o) <==> exists k :: k in KindsOf(ev, o) && ChainBreak(k)
  {
    hide StageOf, CustodyOf, WellFormed, DoublyCounted;
    StageMeans(ev, o);
    var chain := ChainKinds(ev, o);
    if BreaksChain(ev, o) && !DoublyCounted(ev, o) {
      assert |chain| == 1 && ChainBreak(chain[0]);
      assert KindsOf(ev, o)[0] == chain[0];
      assert chain[0] in KindsOf(ev, o);
    }
    if DoublyCounted(ev, o) {
      assert KindsOf(ev, o)[|KindsOf(ev, o)| - 1] == DOUBLE_COUNT_RISK;
      assert DOUBLE_COUNT_RISK in KindsOf(ev, o);
    }
  }

  /** Every reported kind is an anomaly of the order. */
  lemma KindIsReported(ev: Evidence, o: Order, k: Kind)
    requires o.completedAt.Some? && Visible(ev, o) && k in KindsOf(ev, o)
    ensures AsAnomaly(FlowOf(ev, o), k) in FromOrder(ev, o)
  {
    hide KindsOf, FlowOf, Visible, AsAnomaly;
    var i :| 0 <= i < |KindsOf(ev, o)| && KindsOf(ev, o)[i] == k;
    assert FromOrder(ev, o)[i] == AsAnomaly(FlowOf(ev, o), k);
  }

  lemma SeverityOfKind(ev: Evidence, o: Order, k: Kind)
    requires o.completedAt.Some?
    ensures Rank(AsAnomaly(FlowOf(ev, o), k).severity) >= 2 <==> CriticalSize(o.totalPrice, AgeDays(ev, o.completedAt.value))
    ensures AsAnomaly(FlowOf(ev, o), k).kind == k
  {
    hide SeverityFor, ClassifyAmountTier, StageOf, CustodyOf, GateOf, ReasonOf, Raises, BranchId;
    CriticalNeeds(o.totalPrice, AgeDays(ev, o.completedAt.value));
  }

  lemma AnomalySize(ev: Evidence, o: Order, a: Anomaly)
    requires o.completedAt.Some? && a in FromOrder(ev, o)
    ensures Rank(a.severity) >= 2 <==> CriticalSize(o.totalPrice, AgeDays(ev, o.completedAt.value))
    ensures Visible(ev, o) && a.kind in KindsOf(ev, o) && a.kind != SHIFT_LEFT_OPEN && a.amountMinor == o.totalPrice
  {
    hide SeverityFor, ClassifyAmountTier, KindsOf, Visible;
    AnomalyTakes(ev, o, a);
    CriticalNeeds(a.amountMinor, a.ageDays);
  }

  /** One order, through analysis and classifier: it yields a critical financial alert exactly under the table condition. */
  lemma OrderTurnsRedIff(ev: Evidence, r: Analysis, all: seq<Flow>, alerts: seq<Anomaly>, o: Order)
    requires WellFormed(ev) && Analyses(r, ev, all, alerts) && o in ev.orders && o.completedAt.Some?
    ensures (exists a :: a in FromOrder(ev, o) && TurnsRed(ToPublicAll(ev, r.flows), a)) <==> TurnsLightRed(ev, o)
  {
    hide WellFormed, Analyses, FromOrder, KindsOf, BreaksChain, HasLiveCash, HasOldCash, CashAge, Visible, ToPublicAll, AsAnomaly,
         StageOf, FlowOf;
    var flows := ToPublicAll(ev, r.flows);
    ChainBreaksAre(ev, o);
    if a :| a in FromOrder(ev, o) && TurnsRed(flows, a) {
      AnomalySize(ev, o, a);
      JudgedAge(ev, r, all, alerts, o, a);
      VisibleIsUnbanked(ev, o);
      LiveItself(ev, o);
      assert KindsOf(ev, o) != [];
    }
    if TurnsLightRed(ev, o) {
      VisibleIsUnbanked(ev, o);
      LiveItself(ev, o);
      var k: Kind;
      if BreaksChain(ev, o) {
        k :| k in KindsOf(ev, o) && ChainBreak(k);
      } else {
        k := KindsOf(ev, o)[0];
      }
      var a := AsAnomaly(FlowOf(ev, o), k);
      KindIsReported(ev, o, k);
      SeverityOfKind(ev, o, k);
      NoShiftKinds(ev, o);
      JudgedAge(ev, r, all, alerts, o, a);
      assert TurnsRed(flows, a);
    }
  }

  lemma VisibleIsUnbanked(ev: Evidence, o: Order)
    requires o.completedAt.Some? && Visible(ev, o)
    ensures StageOf(ev, o) != BANK && Named(o.driverId) && AgeDays(ev, o.completedAt.value) >= 1
  {
    hide StageOf;
    RaisesNeedsDriver(ev, o);
  }

  /**
   * When cash less than a day old turns the light red, in a report on the current day, against the
   * classifier's claim that it never can: exactly for more than 200 KD taken the day before by a driver
   * past the shift cap, not banked, and with a broken chain or other cash of that driver a day old.
   */
  lemma FreshCashTurnsRedIff(ev: Evidence, r: Analysis, all: seq<Flow>, alerts: seq<Anomaly>, o: Order)
    requires WellFormed(ev) && Analyses(r, ev, all, alerts) && o in ev.orders && o.completedAt.Some?
    requires ev.reportDay == KuwaitDay(ev.generatedAt) && ev.generatedAt - o.completedAt.value < FRESH
    ensures (exists a :: a in FromOrder(ev, o) && TurnsRed(ToPublicAll(ev, r.flows), a)) <==>
      (&& DriverOverdue(ev, o) && AgeDays(ev, o.completedAt.value) == 1
       && StageOf(ev, o) != BANK && o.totalPrice > LARGE_THRESHOLD_MINOR
       && (BreaksChain(ev, o) || (KindsOf(ev, o) != [] && HasOldCash(ev, o.driverId.value))))
  {
    hide WellFormed, Analyses, FromOrder, KindsOf, BreaksChain, HasOldCash, TurnsRed, ToPublicAll, StageOf, DriverOpen, DriverActive,
         KuwaitDay;
    OrderTurnsRedIff(ev, r, all, alerts, o);
    OneDayOld(ev.generatedAt, o.completedAt.value);
  }

  /** Less than 24 hours cross at most one midnight. */
  lemma OneDayOld(now: int, then_: int)
    requires now - then_ < FRESH
    ensures KuwaitDay(now) - KuwaitDay(then_) <= 1
  {
  }

  /** One order breaks the scenario contract exactly under the table condition. */
  lemma OrderBreaksContractIff(ev: Evidence, r: Analysis, all: seq<Flow>, alerts: seq<Anomaly>, o: Order)
    requires WellFormed(ev) && Analyses(r, ev, all, alerts) && o in ev.orders && o.completedAt.Some?
    ensures (exists a :: a in FromOrder(ev, o) && BreaksGuard(ToPublicAll(ev, r.flows), a)) <==> BreaksContract(ev, o)
  {
    hide WellFormed, Analyses, FromOrder, KindsOf, BreaksChain, HasLiveCash, HasOldCash, CashAge, Visible, ToPublicAll, AsAnomaly,
         StageOf, FlowOf;
    var flows := ToPublicAll(ev, r.flows);
    ChainBreaksAre(ev, o);
    if a :| a in FromOrder(ev, o) && BreaksGuard(flows, a) {
      AnomalySize(ev, o, a);
      JudgedAge(ev, r, all, alerts, o, a);
    }
    if BreaksContract(ev, o) {
      var k :| k in KindsOf(ev, o) && ChainBreak(k);
      var a := AsAnomaly(FlowOf(ev, o), k);
      KindIsReported(ev, o, k);
      SeverityOfKind(ev, o, k);
      AnomalySize(ev, o, a);
      JudgedAge(ev, r, all, alerts, o, a);
      assert BreaksGuard(flows, a);
    }
  }

  /** A chain break the dashboard guard objects to. */
  predicate BreaksGuard(flows: seq<LiveFlow>, a: Anomaly) {
    ChainBreak(a.kind) && (a.amountMinor < FLOOR || CashAge(flows, a) < GRACE)
  }

  /** Shift alerts neither turn the light red nor break the contract, so only orders can. */
  lemma OnlyOrdersMatter(ev: Evidence, r: Analysis, all: seq<Flow>, alerts: seq<Anomaly>, a: Anomaly) returns (o: Order)
    requires Analyses(r, ev, all, alerts) && a in r.anomalies && a.kind != SHIFT_LEFT_OPEN
    ensures o in ev.orders && o.completedAt.Some? && a in FromOrder(ev, o)
  {
    hide FlowsOf, OverdueShifts, FromOrder, Exposure, SeverityFor, ClassifyAmountTier, Completed;
    forall i | 0 <= i < |alerts| ensures alerts[i].kind == SHIFT_LEFT_OPEN {}
    o := FromOrdersOrigin(ev, Completed(ev.orders), a);
  }

  lemma AnomaliesOfOrder(ev: Evidence, r: Analysis, all: seq<Flow>, alerts: seq<Anomaly>, o: Order, a: Anomaly)
    requires Analyses(r, ev, all, alerts) && o in ev.orders && o.completedAt.Some? && a in FromOrder(ev, o)
    ensures a in r.anomalies
  {
    hide FlowsOf, ShiftAlerts, FromOrder, Completed;
    assert o in Completed(ev.orders);
    var k :| 0 <= k < |Completed(ev.orders)| && Completed(ev.orders)[k] == o;
    FromOrdersHas(ev, Completed(ev.orders), k);
  }

  /**
   * From the tables to the dashboard: the light is red exactly when some order turns it red, and the
   * scenario contract fails exactly when some order breaks it.
   */
  method Dashboard(ev: Evidence) returns (c: Classified, violations: seq<Violation>)
    requires WellFormed(ev)
    ensures c.systemStatus == RED <==> exists o :: o in ev.orders && TurnsLightRed(ev, o)
    ensures violations != [] <==> exists o :: o in ev.orders && BreaksContract(ev, o)
  {
    hide *;
    var r, all, alerts := RunAnalysis(ev);
    var flows := ToPublicAll(ev, r.flows);
    c := ComposeFromAnalysis(flows, r.anomalies);
    violations := AssertScenarioContract(c);
    RedByOrders(ev, r, all, alerts, c);
    BrokenByOrders(ev, r, all, alerts, c);
  }

  lemma RedByOrders(ev: Evidence, r: Analysis, all: seq<Flow>, alerts: seq<Anomaly>, c: Classified)
    requires WellFormed(ev) && Analyses(r, ev, all, alerts)
    requires c.systemStatus == RED <==> exists a :: a in c.financialAlerts && a.severity == ALERT_CRITICAL
    requires c.financialAlerts == InDomain(Projected(ToPublicAll(ev, r.flows), r.anomalies), FINANCIAL)
    ensures c.systemStatus == RED <==> exists o :: o in ev.orders && TurnsLightRed(ev, o)
  {
    hide WellFormed, Analyses, FromOrder, InDomain, Projected, ToPublicAll, TurnsLightRed, CashAge;
    var flows := ToPublicAll(ev, r.flows);
    RedExactly(r, ev, all, alerts, c);
    if a :| a in r.anomalies && TurnsRed(flows, a) {
      var o := OnlyOrdersMatter(ev, r, all, alerts, a);
      OrderTurnsRedIff(ev, r, all, alerts, o);
    }
    if o :| o in ev.orders && TurnsLightRed(ev, o) {
      RedIsCompleted(ev, o);
      OrderTurnsRedIff(ev, r, all, alerts, o);
      var a :| a in FromOrder(ev, o) && TurnsRed(flows, a);
      AnomaliesOfOrder(ev, r, all, alerts, o, a);
    }
  }

  lemma RedIsCompleted(ev: Evidence, o: Order)
    ensures TurnsLightRed(ev, o) || BreaksContract(ev, o) ==> o.completedAt.Some?
  {
    hide BreaksChain, HasOldCash, HasLiveCash, KindsOf;
  }

  lemma BrokenByOrders(ev: Evidence, r: Analysis, all: seq<Flow>, alerts: seq<Anomaly>, c: Classified)
    requires WellFormed(ev) && Analyses(r, ev, all, alerts)
    requires c.financialAlerts == InDomain(Projected(ToPublicAll(ev, r.flows), r.anomalies), FINANCIAL)
    ensures (forall a :: a in c.financialAlerts ==> a.amount >= FLOOR && a.cashAgeHours >= GRACE) <==>
      !exists o :: o in ev.orders && BreaksContract(ev, o)
  {
    hide WellFormed, Analyses, FromOrder, InDomain, Projected, ToPublicAll, BreaksContract, CashAge;
    var flows := ToPublicAll(ev, r.flows);
    ContractFailsExactly(flows, r.anomalies);
    if a :| a in r.anomalies && BreaksGuard(flows, a) {
      var o := OnlyOrdersMatter(ev, r, all, alerts, a);
      OrderBreaksContractIff(ev, r, all, alerts, o);
    }
    if o :| o in ev.orders && BreaksContract(ev, o) {
      RedIsCompleted(ev, o);
      OrderBreaksContractIff(ev, r, all, alerts, o);
      var a :| a in FromOrder(ev, o) && BreaksGuard(flows, a);
      AnomaliesOfOrder(ev, r, all, alerts, o, a);
    }
  }

  // ---- readings of the tables on which the claims fail

  const NOON := 118_800_000  // of day 1

  const BIG := Order("a", 3_000_000, PAID_TO_DRIVER, Some(NOON - 14 * HOUR), true, None, Some("d"), None)
  const TINY := Order("b", 1_000, PAID_TO_DRIVER, Some(NOON - 30 * HOUR), true, None, Some("d"), None)

  /** 300 KD taken fourteen hours ago, a tenth of a dinar thirty hours ago, a shift open for seventeen. */
  const OVERRUN := Evidence([BIG, TINY], [], [], [Shift("s", OPEN, "d", NOON - 17 * HOUR)], [], map[], NOON, 1)

  lemma OverrunFacts()
    ensures WellFormed(OVERRUN) && OVERRUN.reportDay == KuwaitDay(OVERRUN.generatedAt)
    ensures DriverOverdue(OVERRUN, BIG) && StageOf(OVERRUN, BIG) == StageOf(OVERRUN, TINY) == DRIVER
    ensures AgeDays(OVERRUN, BIG.completedAt.value) == 1 && OldCash(OVERRUN, TINY, "d")
  {
    assert ShiftOverdue(OVERRUN, OVERRUN.openShifts[0]);
  }

  /** Cash well inside the grace period turns the light red, on account of other cash of a tenth of a dinar. */
  lemma FreshCashCanTurnRed(r: Analysis, all: seq<Flow>, alerts: seq<Anomaly>, c: Classified)
    requires Analyses(r, OVERRUN, all, alerts)
    requires c.systemStatus == RED <==> exists a :: a in c.financialAlerts && a.severity == ALERT_CRITICAL
    requires c.financialAlerts == InDomain(Projected(ToPublicAll(OVERRUN, r.flows), r.anomalies), FINANCIAL)
    ensures BIG in OVERRUN.orders && NOON - BIG.completedAt.value == 14 * HOUR && TurnsLightRed(OVERRUN, BIG)
    ensures c.systemStatus == RED
  {
    hide StageOf, DriverOverdue, CustodyOf, OldCash, WellFormed, KuwaitDay, Analyses, InDomain, Projected;
    OverrunFacts();
    assert TINY == OVERRUN.orders[1] && BIG == OVERRUN.orders[0];
    assert HasOldCash(OVERRUN, "d");
    assert KindsOf(OVERRUN, BIG)[0] == STUCK_AT_DRIVER;
    assert Raises(OVERRUN, BIG);
    RedByOrders(OVERRUN, r, all, alerts, c);
  }

  const SLIP := Order("a", 30_000, HANDED_OVER_TO_OFFICE, Some(NOON - 25 * HOUR), true, None, Some("d"), Some("s"))
  const TODAY := Order("b", 1_000, PAID_TO_DRIVER, Some(NOON - HOUR), true, None, Some("d"), None)

  /** 3 KD verified yesterday, never registered as a deposit, and its driver at work today. */
  const UNREGISTERED := Evidence(
    [SLIP, TODAY], [], [Custody("c", CUSTODY_VERIFIED, Some("s"), 30_000, None)], [], [], map[], NOON, 1)

  lemma UnregisteredFacts()
    ensures WellFormed(UNREGISTERED) && StageOf(UNREGISTERED, SLIP) == VERIFIED
    ensures AgeDays(UNREGISTERED, SLIP.completedAt.value) == 1 && DriverActive(UNREGISTERED, SLIP)
    ensures !DriverOverdue(UNREGISTERED, SLIP) && !DriverOpen(UNREGISTERED, SLIP)
  {
    assert CompletedToday(UNREGISTERED, UNREGISTERED.orders[1]) && Drives(UNREGISTERED.orders[1], "d");
    assert LastCustody(UNREGISTERED.custodies, "s") == Some(UNREGISTERED.custodies[0]);
  }

  /** The classifier's own output breaks the dashboard's contract: an unregistered deposit of 3 KD. */
  lemma SmallChainBreakBreaksContract(r: Analysis, all: seq<Flow>, alerts: seq<Anomaly>, c: Classified)
    requires Analyses(r, UNREGISTERED, all, alerts)
    requires c.financialAlerts == InDomain(Projected(ToPublicAll(UNREGISTERED, r.flows), r.anomalies), FINANCIAL)
    ensures SLIP in UNREGISTERED.orders && BreaksContract(UNREGISTERED, SLIP)
    ensures exists a :: a in c.financialAlerts && !(a.amount >= FLOOR && a.cashAgeHours >= GRACE)
  {
    hide StageOf, DriverOverdue, DriverActive, DriverOpen, CustodyOf, WellFormed, Analyses, InDomain, Projected;
    UnregisteredFacts();
    assert SLIP == UNREGISTERED.orders[0];
    assert Raises(UNREGISTERED, SLIP);
    BrokenByOrders(UNREGISTERED, r, all, alerts, c);
  }

  /** One driver with two shifts left open, seventeen and eighteen hours long. */
  const LEFT_OPEN := Evidence(
    [], [], [], [Shift("s", OPEN, "d", NOON - 17 * HOUR), Shift("t", OPEN, "d", NOON - 18 * HOUR)], [], map[], NOON, 1)

  /** The analysis then names that driver twice, against the comment that promises one alert per driver. */
  lemma TwoAlertsForOneDriver(alerts: seq<Anomaly>)
    requires ShiftAlerts(alerts, LEFT_OPEN, OverdueShifts(LEFT_OPEN, LEFT_OPEN.openShifts))
    ensures |alerts| == 2 && alerts[0].driverId == alerts[1].driverId == Some("d")
  {
    hide Exposure, SeverityFor, ClassifyAmountTier;
    var shifts := LEFT_OPEN.openShifts;
    assert shifts[..1] == [shifts[0]] && shifts[..1][..0] == [];
    assert OverdueShifts(LEFT_OPEN, shifts[..1]) == [shifts[0]];
    assert OverdueShifts(LEFT_OPEN, shifts) == [shifts[0], shifts[1]];
  }
}
