/**
 * The classifier that turns the anomalies of the cash analysis into financial and compliance alerts,
 * and the dashboard guard over its result. Ages are in hundredths of an hour, amounts in units of 0.0001 KD.
 */
module CashClassifier {
  import opened Wrappers
  import opened Fixed4
  import opened KeyedSums
  import opened KuwaitCalendar
  import opened CashEvidence
  import opened CashAnalysis
  import opened CashAnomalies

  const GRACE := 2400
  const FLOOR := 50_000

  /** A flow as the analysis publishes it. */
  datatype LiveFlow = LiveFlow(driverId: string, amount: int, ageHours: nat)

  /** Hours with two decimals, rounded half up, never negative. */
  function AgeHours(ms: int): nat {
    var r := (ms + 18_000) / 36_000;
    if r < 0 then 0 else r
  }

  function ToPublic(ev: Evidence, f: Flow): LiveFlow {
    LiveFlow(if f.driverId.Some? then f.driverId.value else "", f.amountMinor, AgeHours(ev.generatedAt - f.originAt))
  }

  function ToPublicAll(ev: Evidence, flows: seq<Flow>): (r: seq<LiveFlow>)
    ensures |r| == |flows| && forall i :: 0 <= i < |flows| ==> r[i] == ToPublic(ev, flows[i])
  {
    seq(|flows|, i requires 0 <= i < |flows| => ToPublic(ev, flows[i]))
  }

  datatype Domain = FINANCIAL | COMPLIANCE
  datatype AlertSeverity = ALERT_INFO | ALERT_WARNING | ALERT_CRITICAL
  datatype AlertType = Same(kind: Kind) | SHIFT_COMPLIANCE_ONLY | SHIFT_OVERDUE_FINANCIAL
  datatype TrafficLight = GREEN | YELLOW | RED
  datatype DriverStatus = AT_RISK | COMPLIANCE_ONLY | NORMAL

  datatype Alert = Alert(
    domain: Domain, kind: AlertType, severity: AlertSeverity, driverId: Option<string>, amount: int, cashAgeHours: nat)

  predicate ChainBreak(k: Kind) {
    k == DEPOSIT_NOT_REGISTERED || k == DEPOSIT_AMOUNT_MISMATCH || k == OVERPAYMENT_ANOMALY || k == DOUBLE_COUNT_RISK
  }

  predicate Aging(k: Kind) {
    k == STUCK_AT_DRIVER || k == HANDOVER_DELAY || k == CUSTODY_DELAY || k == SUBSCRIPTION_LEAKAGE
  }

  // ---- cash per driver

  predicate Counts(f: LiveFlow) {
    f.driverId != "" && f.amount > 0
  }

  function FlowsFor(flows: seq<LiveFlow>, d: string): seq<LiveFlow> {
    if flows == [] then []
    else
      var f := flows[|flows| - 1];
      FlowsFor(flows[..|flows| - 1], d) + if Counts(f) && f.driverId == d then [f] else []
  }

  function GetFlows(m: map<string, seq<LiveFlow>>, d: string): seq<LiveFlow> {
    if d in m then m[d] else []
  }

  /** Each driver with countable cash is a key, once, in order of first appearance. */
  ghost predicate Indexed(m: map<string, seq<LiveFlow>>, keys: seq<string>, flows: seq<LiveFlow>) {
    && Distinct(keys)
    && (forall d :: d in keys <==> d in m)
    && (forall d :: d in m ==> d != "" && m[d] != [])
    && (forall d :: GetFlows(m, d) == FlowsFor(flows, d))
  }

  lemma FlowsForStep(flows: seq<LiveFlow>, n: nat, d: string)
    requires n < |flows|
    ensures
      var f := flows[n];
      FlowsFor(flows[..n + 1], d) == FlowsFor(flows[..n], d) + if Counts(f) && f.driverId == d then [f] else []
  {
    assert flows[..n + 1][..n] == flows[..n];
  }

  method IndexByDriver(flows: seq<LiveFlow>) returns (m: map<string, seq<LiveFlow>>, keys: seq<string>)
    ensures Indexed(m, keys, flows)
  {
    hide FlowsFor;
    m, keys := map[], [];
    NoFlows();
    assert flows[..0] == [];
    var i := 0;
    while i < |flows|
      invariant 0 <= i <= |flows|
      invariant Indexed(m, keys, flows[..i])
    {
      var f := flows[i];
      ghost var before := m;
      if f.driverId != "" && !(f.amount <= 0) {
        var list := if f.driverId in m then m[f.driverId] else [];
        if f.driverId !in m {
          keys := keys + [f.driverId];
        }
        m := m[f.driverId := list + [f]];
      }
      forall d ensures GetFlows(m, d) == FlowsFor(flows[..i + 1], d) {
        FlowsForStep(flows, i, d);
        assert GetFlows(before, d) == FlowsFor(flows[..i], d);
      }
      i := i + 1;
    }
    assert flows[..i] == flows;
  }

  lemma NoFlows()
    ensures forall d :: FlowsFor([], d) == []
  {
  }

  /** The age of the oldest cash: 0 without flows, otherwise attained and a bound. */
  ghost predicate OldestOf(age: nat, flows: seq<LiveFlow>) {
    && (forall i :: 0 <= i < |flows| ==> flows[i].ageHours <= age)
    && (age == 0 || exists i :: 0 <= i < |flows| && flows[i].ageHours == age)
  }

  function Oldest(flows: seq<LiveFlow>): (age: nat)
    ensures OldestOf(age, flows)
  {
    if flows == [] then 0
    else
      var f, age := flows[|flows| - 1], Oldest(flows[..|flows| - 1]);
      OldestStep(flows, age);
      if f.ageHours > age then f.ageHours else age
  }

  lemma OldestStep(flows: seq<LiveFlow>, age: nat)
    requires flows != [] && OldestOf(age, flows[..|flows| - 1])
    ensures
      var f := flows[|flows| - 1];
      OldestOf(if f.ageHours > age then f.ageHours else age, flows)
  {
    var n := |flows| - 1;
    assert forall i :: 0 <= i < n ==> flows[..n][i] == flows[i];
    if age != 0 {
      var i :| 0 <= i < n && flows[..n][i].ageHours == age;
      assert flows[i].ageHours == age;
    }
  }

  method OldestFlowAgeHours(flows: seq<LiveFlow>) returns (max: nat)
    ensures max == Oldest(flows)
  {
    hide OldestOf;
    max := 0;
    var i := 0;
    while i < |flows|
      invariant 0 <= i <= |flows|
      invariant max == Oldest(flows[..i])
    {
      assert flows[..i + 1][..i] == flows[..i];
      if flows[i].ageHours > max {
        max := flows[i].ageHours;
      }
      i := i + 1;
    }
    assert flows[..i] == flows;
  }

  /** The age a driver's cash is judged by. */
  function CashAge(flows: seq<LiveFlow>, a: Anomaly): nat {
    var mine := if Named(a.driverId) then FlowsFor(flows, a.driverId.value) else [];
    if mine != [] then Oldest(mine)
    else if a.kind == SHIFT_LEFT_OPEN then 0
    else a.ageDays * GRACE
  }

  // ---- one anomaly

  function Normalise(s: Severity): AlertSeverity {
    if s == CRITICAL || s == CRITICAL_ESCALATED then ALERT_CRITICAL
    else if s == WARNING then ALERT_WARNING
    else ALERT_INFO
  }

  function CapSeverityByAmount(s: AlertSeverity, amount: int): AlertSeverity {
    if amount < FLOOR && s == ALERT_CRITICAL then ALERT_WARNING else s
  }

  function ProjectAlert(a: Anomaly, cashAge: nat): Alert {
    if ChainBreak(a.kind) then
      Alert(FINANCIAL, Same(a.kind), CapSeverityByAmount(Normalise(a.severity), a.amountMinor),
            a.driverId, a.amountMinor, cashAge)
    else if a.kind == SHIFT_LEFT_OPEN then
      if cashAge < GRACE || a.amountMinor < FLOOR || a.amountMinor == 0 then
        Alert(COMPLIANCE, SHIFT_COMPLIANCE_ONLY, ALERT_INFO, a.driverId, a.amountMinor, cashAge)
      else
        Alert(FINANCIAL, SHIFT_OVERDUE_FINANCIAL, ALERT_WARNING, a.driverId, a.amountMinor, cashAge)
    else if Aging(a.kind) then
      if cashAge < GRACE || a.amountMinor < FLOOR then
        Alert(COMPLIANCE, Same(a.kind), ALERT_INFO, a.driverId, a.amountMinor, cashAge)
      else
        Alert(FINANCIAL, Same(a.kind), CapSeverityByAmount(Normalise(a.severity), a.amountMinor),
              a.driverId, a.amountMinor, cashAge)
    else
      Alert(COMPLIANCE, Same(a.kind), ALERT_INFO, a.driverId, a.amountMinor, cashAge)
  }

  function Projected(flows: seq<LiveFlow>, anomalies: seq<Anomaly>): (r: seq<Alert>)
    ensures |r| == |anomalies|
    ensures forall i :: 0 <= i < |anomalies| ==> r[i] == ProjectAlert(anomalies[i], CashAge(flows, anomalies[i]))
  {
    seq(|anomalies|, i requires 0 <= i < |anomalies| => ProjectAlert(anomalies[i], CashAge(flows, anomalies[i])))
  }

  /** Critical is reserved for material money behind a broken chain or past the grace period. */
  lemma CriticalMeans(a: Anomaly, cashAge: nat)
    ensures
      var r := ProjectAlert(a, cashAge);
      (r.domain == FINANCIAL && r.severity == ALERT_CRITICAL) <==>
        (Rank(a.severity) >= 2 && a.amountMinor >= FLOOR && (ChainBreak(a.kind) || (Aging(a.kind) && cashAge >= GRACE)))
    ensures ProjectAlert(a, cashAge).severity == ALERT_CRITICAL ==> ProjectAlert(a, cashAge).domain == FINANCIAL
  {
  }

  // ---- the two lists

  function InDomain(alerts: seq<Alert>, d: Domain): (r: seq<Alert>)
    ensures forall x :: x in r <==> x in alerts && x.domain == d
  {
    if alerts == [] then []
    else
      var a := alerts[|alerts| - 1];
      assert alerts == alerts[..|alerts| - 1] + [a];
      InDomain(alerts[..|alerts| - 1], d) + if a.domain == d then [a] else []
  }

  lemma InDomainStep(alerts: seq<Alert>, n: nat, d: Domain)
    requires n < |alerts|
    ensures InDomain(alerts[..n + 1], d) == InDomain(alerts[..n], d) + if alerts[n].domain == d then [alerts[n]] else []
  {
    assert alerts[..n + 1][..n] == alerts[..n];
  }

  /** Nothing is lost and nothing listed twice. */
  lemma {:induction false} EachInOneList(alerts: seq<Alert>)
    ensures multiset(InDomain(alerts, FINANCIAL)) + multiset(InDomain(alerts, COMPLIANCE)) == multiset(alerts)
  {
    hide InDomain;
    if alerts == [] {
      EmptyDomains();
    } else {
      var n := |alerts| - 1;
      var a := alerts[n];
      EachInOneList(alerts[..n]);
      assert alerts[..n + 1] == alerts;
      InDomainStep(alerts, n, FINANCIAL);
      InDomainStep(alerts, n, COMPLIANCE);
      assert multiset(alerts) == multiset(alerts[..n]) + multiset{a} by { assert alerts == alerts[..n] + [a]; }
      var f, c := InDomain(alerts[..n], FINANCIAL), InDomain(alerts[..n], COMPLIANCE);
      assert f + [] == f && c + [] == c;
      if a.domain == FINANCIAL {
        assert InDomain(alerts, COMPLIANCE) == c;
        assert multiset(f + [a]) == multiset(f) + multiset{a};
      } else {
        assert InDomain(alerts, FINANCIAL) == f;
        assert multiset(c + [a]) == multiset(c) + multiset{a};
      }
    }
  }

  method ClassifyAll(m: map<string, seq<LiveFlow>>, ghost keys: seq<string>, ghost flows: seq<LiveFlow>, anomalies: seq<Anomaly>)
    returns (financial: seq<Alert>, compliance: seq<Alert>)
    requires Indexed(m, keys, flows)
    ensures financial == InDomain(Projected(flows, anomalies), FINANCIAL)
    ensures compliance == InDomain(Projected(flows, anomalies), COMPLIANCE)
  {
    hide ProjectAlert, InDomain, FlowsFor, Oldest;
    ghost var all := Projected(flows, anomalies);
    financial, compliance := [], [];
    EmptyDomains();
    assert all[..0] == [];
    var i := 0;
    while i < |anomalies|
      invariant 0 <= i <= |anomalies|
      invariant financial == InDomain(all[..i], FINANCIAL) && compliance == InDomain(all[..i], COMPLIANCE)
    {
      var a := anomalies[i];
      var driverFlows := if Named(a.driverId) && a.driverId.value in m then m[a.driverId.value] else [];
      assert driverFlows == if Named(a.driverId) then FlowsFor(flows, a.driverId.value) else [] by {
        if Named(a.driverId) { assert GetFlows(m, a.driverId.value) == FlowsFor(flows, a.driverId.value); }
      }
      var cashAge := if a.kind == SHIFT_LEFT_OPEN then 0 else a.ageDays * GRACE;
      if |driverFlows| > 0 {
        cashAge := OldestFlowAgeHours(driverFlows);
      }
      var projected := ProjectAlert(a, cashAge);
      assert projected == all[i];
      InDomainStep(all, i, FINANCIAL);
      InDomainStep(all, i, COMPLIANCE);
      if projected.domain == FINANCIAL {
        financial := financial + [projected];
      } else {
        compliance := compliance + [projected];
      }
      i := i + 1;
    }
    assert all[..i] == all;
  }

  lemma EmptyDomains()
    ensures forall d :: InDomain([], d) == []
  {
  }

  method DeriveSystemStatus(financialAlerts: seq<Alert>) returns (status: TrafficLight)
    ensures status == RED <==> exists a :: a in financialAlerts && a.severity == ALERT_CRITICAL
    ensures status == GREEN <==> forall a :: a in financialAlerts ==> a.severity == ALERT_INFO
  {
    var hasCritical, hasWarning := false, false;
    var i := 0;
    while i < |financialAlerts|
      invariant 0 <= i <= |financialAlerts|
      invariant hasCritical <==> exists k :: 0 <= k < i && financialAlerts[k].severity == ALERT_CRITICAL
      invariant hasWarning <==> exists k :: 0 <= k < i && financialAlerts[k].severity == ALERT_WARNING
    {
      var a := financialAlerts[i];
      if a.severity == ALERT_CRITICAL {
        hasCritical := true;
      } else if a.severity == ALERT_WARNING {
        hasWarning := true;
      }
      i := i + 1;
    }
    status := if hasCritical then RED else if hasWarning then YELLOW else GREEN;
    if hasCritical {
      var k :| 0 <= k < i && financialAlerts[k].severity == ALERT_CRITICAL;
      assert financialAlerts[k] in financialAlerts;
    }
    if hasWarning {
      var k :| 0 <= k < i && financialAlerts[k].severity == ALERT_WARNING;
      assert financialAlerts[k] in financialAlerts;
    }
    forall a | a in financialAlerts ensures !hasCritical ==> a.severity != ALERT_CRITICAL {
      var k :| 0 <= k < i && financialAlerts[k] == a;
    }
  }

  // ---- the drivers

  datatype DriverRow = DriverRow(driverId: string, status: DriverStatus, cashAgeHours: nat, amount: int)

  predicate Names(alerts: seq<Alert>, d: string) {
    exists a :: a in alerts && a.driverId == Some(d)
  }

  function AmountFor(flows: seq<LiveFlow>, d: string): int {
    SumAmounts(FlowsFor(flows, d))
  }

  function SumAmounts(flows: seq<LiveFlow>): int {
    if flows == [] then 0 else SumAmounts(flows[..|flows| - 1]) + flows[|flows| - 1].amount
  }

  /** All countable cash. */
  function CountedCash(flows: seq<LiveFlow>): int {
    if flows == [] then 0
    else
      var f := flows[|flows| - 1];
      CountedCash(flows[..|flows| - 1]) + if Counts(f) then f.amount else 0
  }

  /** A row says what the alerts and the flows say about its driver. */
  ghost predicate RowOf(row: DriverRow, flows: seq<LiveFlow>, financial: seq<Alert>, compliance: seq<Alert>) {
    && (row.status == AT_RISK <==> Names(financial, row.driverId))
    && (row.status == COMPLIANCE_ONLY <==> !Names(financial, row.driverId) && Names(compliance, row.driverId))
    && row.cashAgeHours == Oldest(FlowsFor(flows, row.driverId))
    && row.amount == AmountFor(flows, row.driverId)
  }

  function Ids(rows: seq<DriverRow>): (ids: seq<string>)
    ensures |ids| == |rows| && forall i :: 0 <= i < |rows| ==> ids[i] == rows[i].driverId
  {
    seq(|rows|, i requires 0 <= i < |rows| => rows[i].driverId)
  }

  function Amounts(rows: seq<DriverRow>): (v: seq<int>)
    ensures |v| == |rows| && forall i :: 0 <= i < |rows| ==> v[i] == rows[i].amount
  {
    seq(|rows|, i requires 0 <= i < |rows| => rows[i].amount)
  }

  method AddNames(ids0: seq<string>, alerts: seq<Alert>) returns (ids: seq<string>)
    requires Distinct(ids0)
    ensures Distinct(ids)
    ensures forall d :: d in ids <==> (d in ids0 || (d != "" && Names(alerts, d)))
  {
    ids := ids0;
    var i := 0;
    while i < |alerts|
      invariant 0 <= i <= |alerts| && Distinct(ids)
      invariant forall d :: d in ids <==> (d in ids0 || (d != "" && exists k :: 0 <= k < i && alerts[k].driverId == Some(d)))
    {
      if Named(alerts[i].driverId) && alerts[i].driverId.value !in ids {
        ids := ids + [alerts[i].driverId.value];
      }
      i := i + 1;
    }
    forall d ensures Names(alerts, d) <==> exists k :: 0 <= k < |alerts| && alerts[k].driverId == Some(d) {
      if Names(alerts, d) {
        var a :| a in alerts && a.driverId == Some(d);
        var k :| 0 <= k < |alerts| && alerts[k] == a;
      }
    }
  }

  method SumFlows(flows: seq<LiveFlow>) returns (s: int)
    ensures s == SumAmounts(flows)
  {
    s := 0;
    var i := 0;
    while i < |flows|
      invariant 0 <= i <= |flows| && s == SumAmounts(flows[..i])
    {
      assert flows[..i + 1][..i] == flows[..i];
      s := s + flows[i].amount;
      i := i + 1;
    }
    assert flows[..i] == flows;
  }

  datatype Classified = Classified(
    systemStatus: TrafficLight, financialAlerts: seq<Alert>, complianceAlerts: seq<Alert>, drivers: seq<DriverRow>, totalCash: int)

  method ComposeFromAnalysis(flows: seq<LiveFlow>, anomalies: seq<Anomaly>) returns (c: Classified)
    ensures c.financialAlerts == InDomain(Projected(flows, anomalies), FINANCIAL)
    ensures c.complianceAlerts == InDomain(Projected(flows, anomalies), COMPLIANCE)
    ensures c.systemStatus == RED <==> exists a :: a in c.financialAlerts && a.severity == ALERT_CRITICAL
    ensures c.systemStatus == GREEN <==> forall a :: a in c.financialAlerts ==> a.severity == ALERT_INFO
    ensures Distinct(Ids(c.drivers))
    ensures forall d :: d in Ids(c.drivers) <==>
      (FlowsFor(flows, d) != [] || (d != "" && (Names(c.financialAlerts, d) || Names(c.complianceAlerts, d))))
    ensures forall i :: 0 <= i < |c.drivers| ==> RowOf(c.drivers[i], flows, c.financialAlerts, c.complianceAlerts)
    ensures c.totalCash == CountedCash(flows)
  {
    hide InDomain, Projected, Names, FlowsFor, Oldest, SumAmounts, CountedCash;
    var m, keys := IndexByDriver(flows);
    var financial, compliance := ClassifyAll(m, keys, flows, anomalies);
    var ids := AddNames(keys, financial);
    ids := AddNames(ids, compliance);
    var rows := BuildRows(m, keys, flows, ids, financial, compliance);
    var total := 0;
    var i := 0;
    while i < |rows|
      invariant 0 <= i <= |rows| && total == SumMinor(Amounts(rows)[..i])
    {
      assert Amounts(rows)[..i + 1][..i] == Amounts(rows)[..i];
      total := total + rows[i].amount;
      i := i + 1;
    }
    assert Amounts(rows)[..i] == Amounts(rows);
    assert Ids(rows) == ids;
    forall d ensures FlowsFor(flows, d) != [] <==> d in keys {
      assert GetFlows(m, d) == FlowsFor(flows, d);
    }
    DriversHoldTheCash(flows, rows, financial, compliance);
    var status := DeriveSystemStatus(financial);
    c := Classified(status, financial, compliance, rows, total);
  }

  method BuildRows(
      m: map<string, seq<LiveFlow>>, ghost keys: seq<string>, ghost flows: seq<LiveFlow>, ids: seq<string>,
      financial: seq<Alert>, compliance: seq<Alert>)
    returns (rows: seq<DriverRow>)
    requires Indexed(m, keys, flows)
    ensures Ids(rows) == ids
    ensures forall i :: 0 <= i < |rows| ==> RowOf(rows[i], flows, financial, compliance)
  {
    hide Names, FlowsFor, Oldest, SumAmounts;
    rows := [];
    var i := 0;
    while i < |ids|
      invariant 0 <= i <= |ids| && Ids(rows) == ids[..i]
      invariant forall k :: 0 <= k < |rows| ==> RowOf(rows[k], flows, financial, compliance)
    {
      var d := ids[i];
      var mine := if d in m then m[d] else [];
      assert mine == GetFlows(m, d) == FlowsFor(flows, d);
      var hasFinancial, hasCompliance := Names(financial, d), Names(compliance, d);
      var status := if hasFinancial then AT_RISK else if hasCompliance then COMPLIANCE_ONLY else NORMAL;
      var age := OldestFlowAgeHours(mine);
      var amount := SumFlows(mine);
      rows := rows + [DriverRow(d, status, age, amount)];
      i := i + 1;
    }
  }

  // ---- no cash is lost between the flows and the driver rows

  function Items(flows: seq<LiveFlow>): seq<Item> {
    if flows == [] then []
    else
      var f := flows[|flows| - 1];
      Items(flows[..|flows| - 1]) + if Counts(f) then [Item(Some(f.driverId), f.amount)] else []
  }

  lemma SumAmountsSnoc(flows: seq<LiveFlow>, f: LiveFlow)
    ensures SumAmounts(flows + [f]) == SumAmounts(flows) + f.amount
  {
    assert (flows + [f])[..|flows|] == flows;
  }

  lemma {:induction false} ItemsAreTheCash(flows: seq<LiveFlow>)
    ensures Total(Items(flows)) == CountedCash(flows) && UnkeyedSum(Items(flows)) == 0
    ensures forall d :: SumFor(Items(flows), d) == AmountFor(flows, d)
    ensures forall x :: x in Items(flows) ==> Named(x.key) && FlowsFor(flows, x.key.value) != []
  {
    hide Total, UnkeyedSum, SumFor, SumAmounts;
    if flows == [] {
      EmptyItems();
    } else {
      var init, f := flows[..|flows| - 1], flows[|flows| - 1];
      ItemsAreTheCash(init);
      if Counts(f) {
        ItemsSnoc(Items(init), Item(Some(f.driverId), f.amount));
        forall d ensures SumFor(Items(flows), d) == AmountFor(flows, d) {
          SumAmountsSnoc(FlowsFor(init, d), f);
          assert SumFor(Items(init), d) == AmountFor(init, d);
          assert FlowsFor(init, d) + [] == FlowsFor(init, d);
        }
      } else {
        assert Items(flows) == Items(init);
        forall d ensures FlowsFor(flows, d) == FlowsFor(init, d) {}
        forall d ensures SumFor(Items(flows), d) == AmountFor(flows, d) {
          assert SumFor(Items(init), d) == AmountFor(init, d);
        }
      }
    }
  }

  lemma EmptyItems()
    ensures Total([]) == UnkeyedSum([]) == SumAmounts([]) == 0
    ensures forall d :: SumFor([], d) == 0
  {
  }

  lemma DriversHoldTheCash(flows: seq<LiveFlow>, rows: seq<DriverRow>, financial: seq<Alert>, compliance: seq<Alert>)
    requires Distinct(Ids(rows))
    requires forall d :: FlowsFor(flows, d) != [] ==> d in Ids(rows)
    requires forall i :: 0 <= i < |rows| ==> RowOf(rows[i], flows, financial, compliance)
    ensures SumMinor(Amounts(rows)) == CountedCash(flows)
  {
    hide FlowsFor, Oldest, Names, CountedCash, Items, SumAmounts;
    ItemsAreTheCash(flows);
    var items := Items(flows);
    forall i | 0 <= i < |items| && Named(items[i].key) ensures items[i].key.value in Ids(rows) {
      assert items[i] in items;
    }
    KeysPartition(items, Ids(rows));
    assert Amounts(rows) == SumsFor(items, Ids(rows));
  }

  // ---- the dashboard guard

  datatype Violation = BelowFloor(a: Alert) | InsideGrace(a: Alert) | RedWithoutCritical

  method AssertScenarioContract(c: Classified) returns (violations: seq<Violation>)
    ensures forall a :: BelowFloor(a) in violations <==> a in c.financialAlerts && a.amount < 50_000
    ensures forall a :: InsideGrace(a) in violations <==> a in c.financialAlerts && a.cashAgeHours < 2400
    ensures RedWithoutCritical in violations <==>
      c.systemStatus == RED && forall a :: a in c.financialAlerts ==> a.severity != ALERT_CRITICAL
    ensures violations == [] <==>
      ((forall a :: a in c.financialAlerts ==> a.amount >= FLOOR && a.cashAgeHours >= GRACE)
       && (c.systemStatus == RED ==> exists a :: a in c.financialAlerts && a.severity == ALERT_CRITICAL))
  {
    violations := [];
    var i := 0;
    while i < |c.financialAlerts|
      invariant 0 <= i <= |c.financialAlerts|
      invariant forall a :: BelowFloor(a) in violations <==> a in c.financialAlerts[..i] && a.amount < FLOOR
      invariant forall a :: InsideGrace(a) in violations <==> a in c.financialAlerts[..i] && a.cashAgeHours < GRACE
      invariant RedWithoutCritical !in violations
    {
      var a := c.financialAlerts[i];
      assert c.financialAlerts[..i + 1] == c.financialAlerts[..i] + [a];
      if a.amount < FLOOR {
        violations := violations + [BelowFloor(a)];
      }
      if a.cashAgeHours < GRACE {
        violations := violations + [InsideGrace(a)];
      }
      i := i + 1;
    }
    assert c.financialAlerts[..i] == c.financialAlerts;
    if c.systemStatus == RED && !(exists a :: a in c.financialAlerts && a.severity == ALERT_CRITICAL) {
      violations := violations + [RedWithoutCritical];
    }
    EachIsOne(violations);
  }

  /** A violation is of one of the three forms. */
  lemma EachIsOne(violations: seq<Violation>)
    ensures violations == [] <==>
      ((forall a :: BelowFloor(a) !in violations) && (forall a :: InsideGrace(a) !in violations) && RedWithoutCritical !in violations)
  {
    if violations != [] {
      var v := violations[0];
      assert v in violations;
      match v
      case BelowFloor(a) => assert BelowFloor(a) in violations;
      case InsideGrace(a) => assert InsideGrace(a) in violations;
      case RedWithoutCritical =>
    }
  }

  ghost predicate RedOnlyWhenCritical(c: Classified) {
    c.systemStatus == RED <==> exists a :: a in c.financialAlerts && a.severity == ALERT_CRITICAL
  }

  /**
   * On the classifier's own output the guard fails exactly when some chain break is below the floor or
   * inside the grace period; every other financial alert has passed both tests.
   */
  lemma ContractFailsExactly(flows: seq<LiveFlow>, anomalies: seq<Anomaly>)
    ensures
      (exists a :: a in InDomain(Projected(flows, anomalies), FINANCIAL) && (a.amount < FLOOR || a.cashAgeHours < GRACE)) <==>
      (exists a :: a in anomalies && ChainBreak(a.kind) && (a.amountMinor < FLOOR || CashAge(flows, a) < GRACE))
  {
    hide InDomain, CashAge, Normalise, CapSeverityByAmount;
    var all := Projected(flows, anomalies);
    if a :| a in InDomain(all, FINANCIAL) && (a.amount < FLOOR || a.cashAgeHours < GRACE) {
      var i :| 0 <= i < |all| && all[i] == a;
      assert anomalies[i] in anomalies && ChainBreak(anomalies[i].kind);
    }
    if a :| a in anomalies && ChainBreak(a.kind) && (a.amountMinor < FLOOR || CashAge(flows, a) < GRACE) {
      var i :| 0 <= i < |anomalies| && anomalies[i] == a;
      assert all[i] in all && all[i].domain == FINANCIAL;
      assert all[i] in InDomain(all, FINANCIAL);
    }
  }

  /** Shift alerts stay at WARNING or below, wherever they land. */
  lemma ShiftAlertsStayBelowCritical(flows: seq<LiveFlow>, anomalies: seq<Anomaly>, i: nat)
    requires i < |anomalies| && anomalies[i].kind == SHIFT_LEFT_OPEN
    ensures Projected(flows, anomalies)[i].severity != ALERT_CRITICAL
    ensures Projected(flows, anomalies)[i].domain == FINANCIAL <==>
      (anomalies[i].amountMinor >= FLOOR && CashAge(flows, anomalies[i]) >= GRACE)
  {
    hide CashAge, Normalise, CapSeverityByAmount;
    assert Projected(flows, anomalies)[i] == ProjectAlert(anomalies[i], CashAge(flows, anomalies[i]));
  }

  // ---- end to end

  /** What makes one anomaly of the analysis turn the light red. */
  predicate TurnsRed(flows: seq<LiveFlow>, a: Anomaly) {
    && Rank(a.severity) >= 2 && a.kind != SHIFT_LEFT_OPEN
    && (ChainBreak(a.kind) || CashAge(flows, a) >= GRACE)
  }

  lemma AnomalySeverity(r: Analysis, ev: Evidence, all: seq<Flow>, alerts: seq<Anomaly>, a: Anomaly)
    requires Analyses(r, ev, all, alerts) && a in r.anomalies
    ensures a.severity == SeverityFor(ClassifyAmountTier(a.amountMinor), a.ageDays)
  {
    hide FlowsOf, OverdueShifts, FromOrder, Exposure, SeverityFor, ClassifyAmountTier;
    if a in FromOrders(ev, Completed(ev.orders)) {
      var o := FromOrdersOrigin(ev, Completed(ev.orders), a);
      AnomalyTakes(ev, o, a);
    } else {
      assert a in alerts;
      var i :| 0 <= i < |alerts| && alerts[i] == a;
    }
  }

  /**
   * On output of the analysis the light is red exactly when a per-flow anomaly of critical severity is a
   * chain break or its driver's oldest cash is past the grace period. The amount cap is never needed there:
   * such an anomaly carries at least 20 KD and is at least a calendar day old.
   */
  lemma RedExactly(r: Analysis, ev: Evidence, all: seq<Flow>, alerts: seq<Anomaly>, c: Classified)
    requires Analyses(r, ev, all, alerts) && RedOnlyWhenCritical(c)
    requires c.financialAlerts == InDomain(Projected(ToPublicAll(ev, r.flows), r.anomalies), FINANCIAL)
    ensures c.systemStatus == RED <==> exists a :: a in r.anomalies && TurnsRed(ToPublicAll(ev, r.flows), a)
    ensures forall a :: a in r.anomalies && TurnsRed(ToPublicAll(ev, r.flows), a) ==>
      a.amountMinor >= 200_000 && a.ageDays >= 1
    ensures forall x :: x in c.financialAlerts && x.severity == ALERT_CRITICAL ==> x.amount >= 200_000
  {
    hide InDomain, CashAge, FlowsOf, ShiftAlerts, FromOrders, SeverityFor, ClassifyAmountTier, ProjectAlert, ToPublicAll, Projected, Analyses;
    var flows := ToPublicAll(ev, r.flows);
    var ps := Projected(flows, r.anomalies);
    forall a | a in r.anomalies && Rank(a.severity) >= 2 ensures a.amountMinor >= 200_000 && a.ageDays >= 1 {
      AnomalySeverity(r, ev, all, alerts, a);
      CriticalNeeds(a.amountMinor, a.ageDays);
    }
    forall i | 0 <= i < |ps| ensures (ps[i].domain == FINANCIAL && ps[i].severity == ALERT_CRITICAL) <==> TurnsRed(flows, r.anomalies[i]) {
      var a := r.anomalies[i];
      assert a in r.anomalies;
      CriticalMeans(a, CashAge(flows, a));
    }
    forall x | x in c.financialAlerts && x.severity == ALERT_CRITICAL ensures x.amount >= 200_000 {
      var i :| 0 <= i < |ps| && ps[i] == x;
      assert r.anomalies[i] in r.anomalies && TurnsRed(flows, r.anomalies[i]);
      ProjectionKeepsAmount(r.anomalies[i], CashAge(flows, r.anomalies[i]));
    }
    if c.systemStatus == RED {
      var x :| x in c.financialAlerts && x.severity == ALERT_CRITICAL;
      var i :| 0 <= i < |ps| && ps[i] == x;
      assert r.anomalies[i] in r.anomalies && TurnsRed(flows, r.anomalies[i]);
    }
    if a :| a in r.anomalies && TurnsRed(flows, a) {
      var i :| 0 <= i < |r.anomalies| && r.anomalies[i] == a;
      assert ps[i] in ps;
      assert ps[i] in c.financialAlerts;
    }
  }

  lemma ProjectionKeepsAmount(a: Anomaly, cashAge: nat)
    ensures ProjectAlert(a, cashAge).amount == a.amountMinor && ProjectAlert(a, cashAge).driverId == a.driverId
  {
  }

  /** Whatever the compliance alerts and the flows, equal financial alerts give the same light. */
  method LightIgnoresCompliance(
      flows: seq<LiveFlow>, anomalies: seq<Anomaly>, otherFlows: seq<LiveFlow>, otherAnomalies: seq<Anomaly>)
    returns (c: Classified, d: Classified)
    ensures c.financialAlerts == InDomain(Projected(flows, anomalies), FINANCIAL)
    ensures d.financialAlerts == InDomain(Projected(otherFlows, otherAnomalies), FINANCIAL)
    ensures multiset(c.financialAlerts) == multiset(d.financialAlerts) ==> c.systemStatus == d.systemStatus
  {
    hide *;
    c := ComposeFromAnalysis(flows, anomalies);
    d := ComposeFromAnalysis(otherFlows, otherAnomalies);
    if multiset(c.financialAlerts) == multiset(d.financialAlerts) {
      forall a ensures a in c.financialAlerts <==> a in d.financialAlerts {
        assert a in multiset(c.financialAlerts) <==> a in multiset(d.financialAlerts);
      }
    }
  }
}
