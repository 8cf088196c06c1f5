/**
 * The traffic light of the cash dashboard, over the tables: which rows keep it from being green.
 */
module CashLight {
  import opened Wrappers
  import opened KeyedSums
  import opened CashEvidence
  import opened CashAnalysis
  import opened CashAnomalies
  import opened CashClassifier
  import opened CashMeanings
  import opened CashVerdicts

  /** An amount and an age of at least a day that rate more than INFO. */
  predicate WarningSize(minor: int, ageDays: nat) {
    ageDays >= 2 || (ageDays == 1 && minor >= 200_000)
  }

  /** A visible order above INFO, with a broken chain, or of at least 5 KD under a driver with cash a day old. */
  ghost predicate WarnsLight(ev: Evidence, o: Order) {
    && o.completedAt.Some? && Visible(ev, o) && Named(o.driverId)
    && WarningSize(o.totalPrice, AgeDays(ev, o.completedAt.value))
    && (BreaksChain(ev, o) || (KindsOf(ev, o) != [] && o.totalPrice >= 50_000 && HasOldCash(ev, o.driverId.value)))
  }

  /** What the tables put on a driver: the cash of the day and the cash still out. */
  function OnDriver(ev: Evidence, d: string): int {
    CashOn(ev.orders, d, ev.reportDay) + CashIn(ev.orders, d, PAID_TO_DRIVER, true)
    + CashIn(ev.orders, d, PAID_TO_DRIVER, false) + CashIn(ev.orders, d, HANDED_OVER_TO_OFFICE, false)
  }

  /** A shift open for more than sixteen hours, 5 KD on its driver, and unbanked cash of that driver a day old. */
  ghost predicate ShiftWarns(ev: Evidence, s: Shift) {
    ev.generatedAt - s.startedAt > 57_600_000 && OnDriver(ev, s.driverId) >= 50_000 && HasOldCash(ev, s.driverId)
  }

  // ---- one anomaly

  /** The alert of the anomaly is financial and more than INFO. */
  predicate Alarming(flows: seq<LiveFlow>, a: Anomaly) {
    match NatureOf(a.kind)
    case Chain => a.severity != INFO
    case Old => a.severity != INFO && Material(a, CashAge(flows, a))
    case ShiftOpen => Material(a, CashAge(flows, a))
  }

  lemma AlarmingMeans(flows: seq<LiveFlow>, a: Anomaly)
    ensures
      var x := ProjectAlert(a, CashAge(flows, a));
      Alarming(flows, a) <==> x.domain == FINANCIAL && x.severity != ALERT_INFO
  {
    hide CashAge;
    AlertMeans(a, CashAge(flows, a));
  }

  lemma SizeOf(ev: Evidence, o: Order, a: Anomaly)
    requires o.completedAt.Some? && a in FromOrder(ev, o)
    ensures a.severity != INFO <==> WarningSize(o.totalPrice, AgeDays(ev, o.completedAt.value))
  {
    hide KindsOf, AgeDays;
    AnomalyTakes(ev, o, a);
  }

  lemma ChainIsChainBreak(k: Kind)
    ensures NatureOf(k) == Chain <==> ChainBreak(k)
  {
  }

  lemma OrderWarnsIff(ev: Evidence, r: Analysis, all: seq<Flow>, alerts: seq<Anomaly>, o: Order)
    requires WellFormed(ev) && Analyses(r, ev, all, alerts) && o in ev.orders && o.completedAt.Some?
    ensures (exists a :: a in FromOrder(ev, o) && Alarming(ToPublicAll(ev, r.flows), a)) <==> WarnsLight(ev, o)
  {
    hide WellFormed, Analyses, FromOrder, KindsOf, BreaksChain, HasLiveCash, HasOldCash, CashAge, Visible, ToPublicAll, AsAnomaly,
         StageOf, FlowOf, WarningSize, AgeDays, ChainBreak, NatureOf;
    var flows := ToPublicAll(ev, r.flows);
    ChainBreaksAre(ev, o);
    if a :| a in FromOrder(ev, o) && Alarming(flows, a) {
      AlarmingOrder(ev, r, all, alerts, o, a);
    }
    if WarnsLight(ev, o) {
      var k: Kind;
      if BreaksChain(ev, o) {
        k :| k in KindsOf(ev, o) && ChainBreak(k);
      } else {
        k := KindsOf(ev, o)[0];
      }
      var a := AsAnomaly(FlowOf(ev, o), k);
      KindIsReported(ev, o, k);
      SeverityOfKind(ev, o, k);
      AlarmingOrder(ev, r, all, alerts, o, a);
    }
  }

  lemma AlarmingOrder(ev: Evidence, r: Analysis, all: seq<Flow>, alerts: seq<Anomaly>, o: Order, a: Anomaly)
    requires Analyses(r, ev, all, alerts) && o in ev.orders && o.completedAt.Some? && a in FromOrder(ev, o)
    ensures Visible(ev, o) && Named(o.driverId) && a.kind in KindsOf(ev, o) && KindsOf(ev, o) != []
    ensures Alarming(ToPublicAll(ev, r.flows), a) <==>
      (&& WarningSize(o.totalPrice, AgeDays(ev, o.completedAt.value))
       && (ChainBreak(a.kind) || (o.totalPrice >= 50_000 && HasOldCash(ev, o.driverId.value))))
  {
    hide Analyses, FromOrder, KindsOf, HasLiveCash, HasOldCash, CashAge, Visible, ToPublicAll, StageOf, WarningSize, AgeDays;
    SizeOf(ev, o, a);
    AnomalySize(ev, o, a);
    JudgedAge(ev, r, all, alerts, o, a);
    ChainIsChainBreak(a.kind);
    VisibleIsUnbanked(ev, o);
    if o.totalPrice > 0 { LiveItself(ev, o); }
    NoShiftNature(a.kind);
  }

  lemma NoShiftNature(k: Kind)
    ensures NatureOf(k) == ShiftOpen <==> k == SHIFT_LEFT_OPEN
  {
  }

  // ---- shift alerts

  /** The alert of an overdue shift alarms exactly for 5 KD on a driver with cash a day old. */
  lemma ShiftAlarmIff(ev: Evidence, r: Analysis, all: seq<Flow>, alerts: seq<Anomaly>, a: Anomaly, s: Shift)
    requires Analyses(r, ev, all, alerts) && AlertOfShift(ev, a, s)
    ensures Alarming(ToPublicAll(ev, r.flows), a) <==> ShiftWarns(ev, s)
  {
    hide Analyses, HasLiveCash, HasOldCash, ToPublicAll, FlowsFor, Oldest, SeverityFor, ClassifyAmountTier, CashOn, CashIn;
    var d := s.driverId;
    if d != "" {
      DriverCash(ev, r, all, alerts, d);
    } else {
      NobodysCash(ev);
    }
  }

  lemma NobodysCash(ev: Evidence)
    ensures !HasOldCash(ev, "")
  {
    hide StageOf;
  }

  // ---- the light

  ghost predicate SomethingWarns(ev: Evidence) {
    (exists o :: o in ev.orders && WarnsLight(ev, o)) || (exists s :: s in ev.openShifts && ShiftWarns(ev, s))
  }

  lemma AnomalyComesFrom(ev: Evidence, r: Analysis, all: seq<Flow>, alerts: seq<Anomaly>, a: Anomaly)
    requires Analyses(r, ev, all, alerts) && a in r.anomalies
    ensures a in alerts || exists o :: o in ev.orders && o.completedAt.Some? && a in FromOrder(ev, o)
  {
    hide FlowsOf, ShiftAlerts, FromOrder, Completed;
    if a !in alerts {
      assert a in FromOrders(ev, Completed(ev.orders));
      var o := FromOrdersOrigin(ev, Completed(ev.orders), a);
    }
  }

  lemma ShiftHasAlert(ev: Evidence, r: Analysis, all: seq<Flow>, alerts: seq<Anomaly>, s: Shift) returns (a: Anomaly)
    requires Analyses(r, ev, all, alerts) && s in ev.openShifts && ev.generatedAt - s.startedAt > 57_600_000
    ensures a in r.anomalies && AlertOfShift(ev, a, s)
  {
    hide FlowsOf, OverdueShifts, FromOrders, CashOn, CashIn, SeverityFor, ClassifyAmountTier, AggOf;
    var overdue := OverdueShifts(ev, ev.openShifts);
    assert s in overdue;
    var i :| 0 <= i < |overdue| && overdue[i] == s;
    a := alerts[i];
    assert r.anomalies[i] == a;
    RemainingIsOut(ev, ev.orders, s.driverId);
    CollectedIsOfTheDay(ev, ev.orders, s.driverId);
  }

  lemma AlarmsComeFromTables(ev: Evidence, r: Analysis, all: seq<Flow>, alerts: seq<Anomaly>)
    requires WellFormed(ev) && Analyses(r, ev, all, alerts)
    requires forall i :: 0 <= i < |alerts| ==> AlertOnFields(ev, alerts[i])
    ensures (exists a :: a in r.anomalies && Alarming(ToPublicAll(ev, r.flows), a)) <==> SomethingWarns(ev)
  {
    hide WellFormed, Analyses, FromOrder, ToPublicAll, Alarming, WarnsLight, ShiftWarns, AlertOfShift;
    var flows := ToPublicAll(ev, r.flows);
    if a :| a in r.anomalies && Alarming(flows, a) {
      AnomalyComesFrom(ev, r, all, alerts, a);
      if a in alerts {
        var i :| 0 <= i < |alerts| && alerts[i] == a;
        var s :| s in ev.openShifts && AlertOfShift(ev, a, s);
        ShiftAlarmIff(ev, r, all, alerts, a, s);
      } else {
        var o :| o in ev.orders && o.completedAt.Some? && a in FromOrder(ev, o);
        OrderWarnsIff(ev, r, all, alerts, o);
      }
    }
    if o :| o in ev.orders && WarnsLight(ev, o) {
      WarnerIsCompleted(ev, o);
      OrderWarnsIff(ev, r, all, alerts, o);
      var a :| a in FromOrder(ev, o) && Alarming(flows, a);
      AnomaliesOfOrder(ev, r, all, alerts, o, a);
    }
    if s :| s in ev.openShifts && ShiftWarns(ev, s) {
      WarnerIsOverdue(ev, s);
      var a := ShiftHasAlert(ev, r, all, alerts, s);
      ShiftAlarmIff(ev, r, all, alerts, a, s);
    }
  }

  lemma WarnerIsCompleted(ev: Evidence, o: Order)
    ensures WarnsLight(ev, o) ==> o.completedAt.Some?
  {
    hide BreaksChain, HasOldCash, KindsOf;
  }

  lemma WarnerIsOverdue(ev: Evidence, s: Shift)
    ensures ShiftWarns(ev, s) ==> ev.generatedAt - s.startedAt > 57_600_000
  {
    hide HasOldCash, OnDriver;
  }

  lemma QuietIffNothingAlarms(flows: seq<LiveFlow>, anomalies: seq<Anomaly>)
    ensures (forall x :: x in InDomain(Projected(flows, anomalies), FINANCIAL) ==> x.severity == ALERT_INFO) <==>
      !exists a :: a in anomalies && Alarming(flows, a)
  {
    hide InDomain, CashAge, Alarming, ProjectAlert;
    var all := Projected(flows, anomalies);
    if x :| x in InDomain(all, FINANCIAL) && x.severity != ALERT_INFO {
      var i :| 0 <= i < |all| && all[i] == x;
      AlarmingMeans(flows, anomalies[i]);
      assert anomalies[i] in anomalies;
    }
    if a :| a in anomalies && Alarming(flows, a) {
      var i :| 0 <= i < |anomalies| && anomalies[i] == a;
      AlarmingMeans(flows, a);
      assert all[i] in all && all[i] in InDomain(all, FINANCIAL);
    }
  }

  // ---- the cash of the drivers

  /** The unbanked cash of the driver, over the orders. */
  function HeldCash(ev: Evidence, orders: seq<Order>, d: string): int {
    if orders == [] then 0
    else
      var o := orders[|orders| - 1];
      HeldCash(ev, orders[..|orders| - 1], d) + if LiveCash(ev, o, d) then o.totalPrice else 0
  }

  lemma PublicSnoc(ev: Evidence, flows: seq<Flow>, f: Flow)
    ensures ToPublicAll(ev, flows + [f]) == ToPublicAll(ev, flows) + [ToPublic(ev, f)]
  {
  }

  lemma AmountSnoc(flows: seq<LiveFlow>, f: LiveFlow, d: string)
    ensures AmountFor(flows + [f], d) == AmountFor(flows, d) + if Counts(f) && f.driverId == d then f.amount else 0
  {
    hide SumAmounts;
    assert (flows + [f])[..|flows|] == flows;
    assert FlowsFor(flows, d) + [] == FlowsFor(flows, d);
    if Counts(f) && f.driverId == d { SumAmountsSnoc(FlowsFor(flows, d), f); }
  }

  lemma PublishedAmount(ev: Evidence, o: Order, d: string)
    requires o.completedAt.Some? && d != ""
    ensures
      var f := Published(ev, o);
      f.amount == o.totalPrice && (Counts(f) && f.driverId == d && StageOf(ev, o) != BANK <==> LiveCash(ev, o, d))
  {
    hide StageOf, GateOf, ReasonOf, Raises, BranchId, CustodyOf, AgeHours;
  }

  /** What a driver row shows is the driver's unbanked cash over the orders. */
  lemma {:induction false} AmountIsHeld(ev: Evidence, orders: seq<Order>, d: string)
    requires d != ""
    ensures AmountFor(ToPublicAll(ev, Filter(LIVE, FlowsUpTo(ev, Completed(orders)))), d) == HeldCash(ev, orders, d)
  {
    hide AmountFor, Filter, FlowOf, StageOf, LiveCash, Counts, ToPublic, ToPublicAll;
    if orders == [] {
      NothingHeld(ev, d);
    } else {
      var n := |orders| - 1;
      var o := orders[n];
      AmountIsHeld(ev, orders[..n], d);
      var before, flows := FlowsUpTo(ev, Completed(orders[..n])), FlowsUpTo(ev, Completed(orders));
      if o.completedAt.Some? {
        assert flows == before + [FlowOf(ev, o)];
        LiveSnoc(ev, before, o);
        assert Filter(LIVE, before) + [] == Filter(LIVE, before);
        PublishedAmount(ev, o, d);
        if StageOf(ev, o) != BANK {
          PublicSnoc(ev, Filter(LIVE, before), FlowOf(ev, o));
          assert Published(ev, o) == ToPublic(ev, FlowOf(ev, o));
          AmountSnoc(ToPublicAll(ev, Filter(LIVE, before)), Published(ev, o), d);
        }
      } else {
        assert Completed(orders) == Completed(orders[..n]);
        NotLive(ev, o, d);
      }
    }
  }

  lemma NothingHeld(ev: Evidence, d: string)
    ensures Completed([]) == [] && AmountFor(ToPublicAll(ev, Filter(LIVE, FlowsUpTo(ev, []))), d) == 0
  {
    assert FlowsUpTo(ev, []) == [];
    assert ToPublicAll(ev, []) == [];
  }

  lemma LiveSnoc(ev: Evidence, flows: seq<Flow>, o: Order)
    requires o.completedAt.Some?
    ensures Filter(LIVE, flows + [FlowOf(ev, o)]) == Filter(LIVE, flows) + if StageOf(ev, o) != BANK then [FlowOf(ev, o)] else []
  {
    hide StageOf, GateOf, ReasonOf, Raises, BranchId, CustodyOf;
    assert (flows + [FlowOf(ev, o)])[..|flows|] == flows;
  }

  lemma NotLive(ev: Evidence, o: Order, d: string)
    requires o.completedAt.None?
    ensures !LiveCash(ev, o, d)
  {
  }

  /** Every driver with unbanked cash has a row, and each row shows exactly that cash. */
  lemma RowsShowHeldCash(ev: Evidence, r: Analysis, all: seq<Flow>, alerts: seq<Anomaly>, row: DriverRow,
                         financial: seq<Alert>, compliance: seq<Alert>)
    requires Analyses(r, ev, all, alerts) && row.driverId != "" && RowOf(row, ToPublicAll(ev, r.flows), financial, compliance)
    ensures row.amount == HeldCash(ev, ev.orders, row.driverId)
  {
    hide AmountFor, Filter, FlowOf, ToPublicAll, HeldCash, ShiftAlerts, FromOrders, Completed;
    assert all == FlowsUpTo(ev, Completed(ev.orders));
    AmountIsHeld(ev, ev.orders, row.driverId);
  }

  lemma RowsAreNamed(flows: seq<LiveFlow>, c: Classified)
    requires forall d :: d in Ids(c.drivers) <==>
      (FlowsFor(flows, d) != [] || (d != "" && (Names(c.financialAlerts, d) || Names(c.complianceAlerts, d))))
    ensures forall i :: 0 <= i < |c.drivers| ==> c.drivers[i].driverId != ""
  {
    hide Names;
    forall i | 0 <= i < |c.drivers| ensures c.drivers[i].driverId != "" {
      assert Ids(c.drivers)[i] in Ids(c.drivers);
      NobodysFlows(flows);
    }
  }

  lemma {:induction false} NobodysFlows(flows: seq<LiveFlow>)
    ensures FlowsFor(flows, "") == []
  {
    if flows != [] { NobodysFlows(flows[..|flows| - 1]); }
  }

  /**
   * From the tables to the light: red exactly when an order turns it red, green exactly when no order and no
   * open shift warns, yellow otherwise.
   */
  method TrafficLightOf(ev: Evidence) returns (c: Classified)
    requires WellFormed(ev)
    ensures c.systemStatus == RED <==> exists o :: o in ev.orders && TurnsLightRed(ev, o)
    ensures c.systemStatus == GREEN <==> !SomethingWarns(ev)
    ensures forall i :: 0 <= i < |c.drivers| ==> c.drivers[i].amount == HeldCash(ev, ev.orders, c.drivers[i].driverId)
  {
    hide *;
    var r, all, alerts := RunAnalysis(ev);
    var flows := ToPublicAll(ev, r.flows);
    c := ComposeFromAnalysis(flows, r.anomalies);
    RedByOrders(ev, r, all, alerts, c);
    QuietIffNothingAlarms(flows, r.anomalies);
    AlarmsComeFromTables(ev, r, all, alerts);
    RowsAreNamed(flows, c);
    forall i | 0 <= i < |c.drivers| ensures c.drivers[i].amount == HeldCash(ev, ev.orders, c.drivers[i].driverId) {
      RowsShowHeldCash(ev, r, all, alerts, c.drivers[i], c.financialAlerts, c.complianceAlerts);
    }
  }
}
