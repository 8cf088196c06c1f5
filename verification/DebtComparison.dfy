/**
 * The two diagnostics that compare open-debt figures: the collections figure (per customer, all debt
 * minus all payments, floored at zero) and the unpaid-invoice list (the same pool, given first in
 * first out to the customer's invoices), the second also split by who issued the invoice.
 */
module DebtComparison {
  import opened Wrappers
  import opened DebtSources
  import opened Fixed4
  import opened KeyedSums
  import opened Waterfall
  import opened SumsOver

  datatype Role = DRIVER | MANAGER | SUPERVISOR | OTHER_ROLE

  datatype Entry = Entry(
    customerId: string, orderId: Option<string>, source: Source, amount: int, createdAt: int, role: Option<Role>)

  datatype OpenOrder = OpenOrder(
    orderId: string, customerId: string, debt: int, createdAt: int, issuerRole: Option<Role>)

  datatype Issuer = ByDriver | ByBranch | ByOther

  function IssuerOf(o: OpenOrder): Issuer {
    if o.issuerRole == Some(DRIVER) then ByDriver
    else if o.issuerRole == Some(MANAGER) || o.issuerRole == Some(SUPERVISOR) then ByBranch
    else ByOther
  }

  // ---- what the grouped queries return

  function PaidOn(ledger: seq<Entry>, orderId: string): int {
    if ledger == [] then 0
    else
      var e := ledger[|ledger| - 1];
      PaidOn(ledger[..|ledger| - 1], orderId) + if e.source == PAYMENT && e.orderId == Some(orderId) then e.amount else 0
  }

  function DebtOf(ledger: seq<Entry>, customer: string): int {
    if ledger == [] then 0
    else
      var e := ledger[|ledger| - 1];
      DebtOf(ledger[..|ledger| - 1], customer) + if e.customerId == customer && e.source != PAYMENT then e.amount else 0
  }

  function PaymentsOf(ledger: seq<Entry>, customer: string): int {
    if ledger == [] then 0
    else
      var e := ledger[|ledger| - 1];
      PaymentsOf(ledger[..|ledger| - 1], customer) + if e.customerId == customer && e.source == PAYMENT then e.amount else 0
  }

  /** The pool of a customer. */
  function OpenOf(ledger: seq<Entry>, customer: string): (r: int)
    ensures r >= 0
  {
    Max(DebtOf(ledger, customer) - PaymentsOf(ledger, customer), 0)
  }

  /** Shortfall rows; the unpaid list keeps only those a driver or a manager issued. */
  function Shortfalls(ledger: seq<Entry>, fieldStaffOnly: bool): seq<Entry> {
    if ledger == [] then []
    else
      var e := ledger[|ledger| - 1];
      Shortfalls(ledger[..|ledger| - 1], fieldStaffOnly) +
      if e.source == INVOICE_SHORTFALL && e.orderId.Some?
         && (fieldStaffOnly ==> e.role == Some(DRIVER) || e.role == Some(MANAGER))
      then [e] else []
  }

  /** The shortfall of one order over the first n rows. */
  function ShortfallOn(rows: seq<Entry>, n: nat, orderId: string): int
    requires n <= |rows|
  {
    if n == 0 then 0
    else ShortfallOn(rows, n - 1, orderId) + if rows[n - 1].orderId == Some(orderId) then rows[n - 1].amount else 0
  }

  // ---- one order per order id

  ghost predicate DistinctOrders(orders: seq<OpenOrder>) {
    forall i, j :: 0 <= i < j < |orders| ==> orders[i].orderId != orders[j].orderId
  }

  /** Customer, time and issuer are those of the row. */
  ghost predicate Describes(o: OpenOrder, e: Entry) {
    && e.orderId == Some(o.orderId) && Named(e.orderId)
    && o.customerId == e.customerId && o.createdAt == e.createdAt && o.issuerRole == e.role
  }

  /** Row x is the first row of the order. */
  ghost predicate FirstRow(o: OpenOrder, rows: seq<Entry>, x: nat)
    requires x < |rows|
  {
    Describes(o, rows[x]) && forall y :: 0 <= y < x ==> rows[y].orderId != Some(o.orderId)
  }

  /** Customer, time and issuer come from the first row of the order. */
  ghost predicate Described(o: OpenOrder, rows: seq<Entry>, n: nat)
    requires n <= |rows|
  {
    exists x :: 0 <= x < n && FirstRow(o, rows, x)
  }

  ghost predicate HasOrder(orders: seq<OpenOrder>, id: string) {
    exists i :: 0 <= i < |orders| && orders[i].orderId == id
  }

  /** The orders group the first n rows: each id once, carrying all of its shortfall. */
  ghost predicate GroupsFirst(orders: seq<OpenOrder>, rows: seq<Entry>, n: nat)
    requires n <= |rows|
  {
    && DistinctOrders(orders)
    && (forall i :: 0 <= i < |orders| ==> orders[i].debt == ShortfallOn(rows, n, orders[i].orderId))
    && (forall i :: 0 <= i < |orders| ==> Described(orders[i], rows, n))
    && (forall x :: 0 <= x < n && Named(rows[x].orderId) ==> HasOrder(orders, rows[x].orderId.value))
    && InFirstOrder(orders, rows)
  }

  ghost predicate MentionedBefore(rows: seq<Entry>, y: nat, id: string)
    requires y <= |rows|
  {
    exists x :: 0 <= x < y && rows[x].orderId == Some(id)
  }

  /** The orders come in the order of their first rows: an earlier one is mentioned before any row of a later one. */
  ghost predicate InFirstOrder(orders: seq<OpenOrder>, rows: seq<Entry>) {
    forall i, j, y :: 0 <= i < j < |orders| && 0 <= y < |rows| && rows[y].orderId == Some(orders[j].orderId) ==>
      MentionedBefore(rows, y, orders[i].orderId)
  }

  ghost predicate Groups(orders: seq<OpenOrder>, rows: seq<Entry>) {
    GroupsFirst(orders, rows, |rows|)
  }

  method GroupByOrder(rows: seq<Entry>) returns (orders: seq<OpenOrder>)
    ensures Groups(orders, rows)
  {
    hide GroupsFirst;
    orders := [];
    var byOrder: map<string, nat> := map[];
    var i := 0;
    assert GroupsFirst([], rows, 0) by { NoRowsYet(rows); }
    while i < |rows|
      invariant 0 <= i <= |rows|
      invariant GroupsFirst(orders, rows, i)
      invariant forall k :: 0 <= k < |orders| ==> orders[k].orderId in byOrder
      invariant forall id :: id in byOrder ==> byOrder[id] < |orders| && orders[byOrder[id]].orderId == id
    {
      var e := rows[i];
      if Named(e.orderId) {
        var id := e.orderId.value;
        if id in byOrder {
          var k := byOrder[id];
          GroupExisting(orders, rows, i, k);
          orders := orders[k := orders[k].(debt := orders[k].debt + e.amount)];
        } else {
          GroupNew(orders, rows, i);
          byOrder := byOrder[id := |orders|];
          orders := orders + [OpenOrder(id, e.customerId, e.amount, e.createdAt, e.role)];
        }
      } else {
        GroupSkip(orders, rows, i);
      }
      i := i + 1;
    }
  }

  lemma NoRowsYet(rows: seq<Entry>)
    ensures GroupsFirst([], rows, 0)
  {
  }

  lemma {:induction false} NoShortfall(rows: seq<Entry>, n: nat, orderId: string)
    requires n <= |rows| && forall k :: 0 <= k < n ==> rows[k].orderId != Some(orderId)
    ensures ShortfallOn(rows, n, orderId) == 0
  {
    if n > 0 { NoShortfall(rows, n - 1, orderId); }
  }

  lemma StillDescribed(o: OpenOrder, rows: seq<Entry>, n: nat)
    requires n < |rows| && Described(o, rows, n)
    ensures Described(o, rows, n + 1)
  {
    var x :| 0 <= x < n && FirstRow(o, rows, x);
    assert FirstRow(o, rows, x);
  }

  lemma GroupSkip(orders: seq<OpenOrder>, rows: seq<Entry>, n: nat)
    requires n < |rows| && GroupsFirst(orders, rows, n) && !Named(rows[n].orderId)
    ensures GroupsFirst(orders, rows, n + 1)
  {
    hide HasOrder;
    forall i | 0 <= i < |orders|
      ensures orders[i].debt == ShortfallOn(rows, n + 1, orders[i].orderId) && Described(orders[i], rows, n + 1)
    {
      StillDescribed(orders[i], rows, n);
    }
  }

  lemma GroupExisting(orders: seq<OpenOrder>, rows: seq<Entry>, n: nat, k: nat)
    requires n < |rows| && k < |orders| && GroupsFirst(orders, rows, n) && rows[n].orderId == Some(orders[k].orderId)
    ensures GroupsFirst(orders[k := orders[k].(debt := orders[k].debt + rows[n].amount)], rows, n + 1)
  {
    hide HasOrder, Described;
    var next := orders[k := orders[k].(debt := orders[k].debt + rows[n].amount)];
    forall i | 0 <= i < |orders|
      ensures next[i].debt == ShortfallOn(rows, n + 1, next[i].orderId) && Described(next[i], rows, n + 1)
    {
      StillDescribed(orders[i], rows, n);
      SameDescription(orders[i], next[i], rows, n + 1);
    }
    forall x | 0 <= x < n + 1 && Named(rows[x].orderId) ensures HasOrder(next, rows[x].orderId.value) {
      SameIds(orders, next, rows[x].orderId.value, k);
    }
  }

  lemma SameDescription(o: OpenOrder, p: OpenOrder, rows: seq<Entry>, n: nat)
    requires n <= |rows| && Described(o, rows, n) && p == o.(debt := p.debt)
    ensures Described(p, rows, n)
  {
    var x :| 0 <= x < n && FirstRow(o, rows, x);
    assert FirstRow(p, rows, x);
  }

  lemma SameIds(orders: seq<OpenOrder>, next: seq<OpenOrder>, id: string, k: nat)
    requires |orders| == |next| && k < |orders|
    requires forall i :: 0 <= i < |orders| ==> next[i].orderId == orders[i].orderId
    requires HasOrder(orders, id) || orders[k].orderId == id
    ensures HasOrder(next, id)
  {
    if orders[k].orderId == id {
      assert next[k].orderId == id;
    } else {
      var i :| 0 <= i < |orders| && orders[i].orderId == id;
      assert next[i].orderId == id;
    }
  }

  lemma GroupNew(orders: seq<OpenOrder>, rows: seq<Entry>, n: nat)
    requires n < |rows| && GroupsFirst(orders, rows, n) && Named(rows[n].orderId)
    requires !HasOrder(orders, rows[n].orderId.value)
    ensures
      var e := rows[n];
      GroupsFirst(orders + [OpenOrder(e.orderId.value, e.customerId, e.amount, e.createdAt, e.role)], rows, n + 1)
  {
    hide Described;
    var e := rows[n];
    var o := OpenOrder(e.orderId.value, e.customerId, e.amount, e.createdAt, e.role);
    var next := orders + [o];
    assert forall y :: 0 <= y < n && Named(rows[y].orderId) ==> HasOrder(orders, rows[y].orderId.value);
    NoShortfall(rows, n, o.orderId);
    NewDescription(o, rows, n);
    LaterMentioned(orders, rows, n, o);
    forall i | 0 <= i < |orders|
      ensures orders[i].debt == ShortfallOn(rows, n + 1, orders[i].orderId) && Described(orders[i], rows, n + 1)
    {
      StillDescribed(orders[i], rows, n);
    }
    forall x | 0 <= x < n + 1 && Named(rows[x].orderId) ensures HasOrder(next, rows[x].orderId.value) {
      if x < n {
        var i :| 0 <= i < |orders| && orders[i].orderId == rows[x].orderId.value;
        assert next[i].orderId == rows[x].orderId.value;
      } else {
        assert next[|orders|].orderId == rows[x].orderId.value;
      }
    }
  }

  lemma LaterMentioned(orders: seq<OpenOrder>, rows: seq<Entry>, n: nat, o: OpenOrder)
    requires n < |rows| && InFirstOrder(orders, rows) && forall i :: 0 <= i < |orders| ==> Described(orders[i], rows, n)
    requires forall y :: 0 <= y < n ==> rows[y].orderId != Some(o.orderId)
    ensures InFirstOrder(orders + [o], rows)
  {
    var next := orders + [o];
    forall i, j, y | 0 <= i < j < |next| && 0 <= y < |rows| && rows[y].orderId == Some(next[j].orderId)
      ensures MentionedBefore(rows, y, next[i].orderId)
    {
      if j < |orders| {
        assert next[i] == orders[i] && next[j] == orders[j];
      } else {
        var x :| 0 <= x < n && FirstRow(orders[i], rows, x);
        assert rows[x].orderId == Some(next[i].orderId);
      }
    }
  }

  lemma NewDescription(o: OpenOrder, rows: seq<Entry>, n: nat)
    requires n < |rows| && Describes(o, rows[n]) && forall y :: 0 <= y < n ==> rows[y].orderId != Some(o.orderId)
    ensures Described(o, rows, n + 1)
  {
    assert FirstRow(o, rows, n);
  }

  // ---- by customer, oldest first

  function OrdersOf(orders: seq<OpenOrder>, customer: string): seq<OpenOrder> {
    if orders == [] then []
    else
      var o := orders[|orders| - 1];
      OrdersOf(orders[..|orders| - 1], customer) + if o.customerId == customer then [o] else []
  }

  function InsertByTime(s: seq<OpenOrder>, o: OpenOrder): seq<OpenOrder> {
    if s == [] || s[|s| - 1].createdAt <= o.createdAt then s + [o]
    else InsertByTime(s[..|s| - 1], o) + [s[|s| - 1]]
  }

  function SortByTime(orders: seq<OpenOrder>): seq<OpenOrder> {
    if orders == [] then [] else InsertByTime(SortByTime(orders[..|orders| - 1]), orders[|orders| - 1])
  }

  ghost predicate OldestFirst(s: seq<OpenOrder>) {
    forall i, j :: 0 <= i < j < |s| ==> s[i].createdAt <= s[j].createdAt
  }

  lemma {:induction false} InsertByTimeMembers(s: seq<OpenOrder>, o: OpenOrder)
    ensures multiset(InsertByTime(s, o)) == multiset(s) + multiset{o}
  {
    if s != [] && s[|s| - 1].createdAt > o.createdAt {
      var n := |s| - 1;
      assert s == s[..n] + [s[n]];
      InsertByTimeMembers(s[..n], o);
    }
  }

  lemma {:induction false} InsertByTimeOrder(s: seq<OpenOrder>, o: OpenOrder)
    requires OldestFirst(s)
    ensures OldestFirst(InsertByTime(s, o))
    ensures forall x :: x in InsertByTime(s, o) ==> x in s || x == o
  {
    if s != [] && s[|s| - 1].createdAt > o.createdAt {
      var n := |s| - 1;
      InsertByTimeOrder(s[..n], o);
      var t := InsertByTime(s[..n], o);
      forall i | 0 <= i < |t| ensures t[i].createdAt <= s[n].createdAt {
        assert t[i] in t;
      }
    }
  }

  lemma {:induction false} SortByTimeFacts(orders: seq<OpenOrder>)
    ensures OldestFirst(SortByTime(orders)) && multiset(SortByTime(orders)) == multiset(orders)
  {
    if orders != [] {
      var n := |orders| - 1;
      assert orders == orders[..n] + [orders[n]];
      SortByTimeFacts(orders[..n]);
      InsertByTimeMembers(SortByTime(orders[..n]), orders[n]);
      InsertByTimeOrder(SortByTime(orders[..n]), orders[n]);
    }
  }

  /** What is left to pay on each order. */
  function Nets(ledger: seq<Entry>, orders: seq<OpenOrder>): (v: seq<int>)
    ensures |v| == |orders| && NonNegative(v)
    ensures forall i :: 0 <= i < |orders| ==> v[i] == Max(orders[i].debt - PaidOn(ledger, orders[i].orderId), 0)
  {
    seq(|orders|, i requires 0 <= i < |orders| => Max(orders[i].debt - PaidOn(ledger, orders[i].orderId), 0))
  }

  /** The invoices of a customer, oldest first, as the allocation sees them. */
  function Queue(orders: seq<OpenOrder>, customer: string): seq<OpenOrder> {
    SortByTime(OrdersOf(orders, customer))
  }

  function SharesOf(ledger: seq<Entry>, orders: seq<OpenOrder>, customer: string): (s: seq<int>)
    ensures |s| == |Queue(orders, customer)|
  {
    Shares(Nets(ledger, Queue(orders, customer)), OpenOf(ledger, customer))
  }

  function Issuers(orders: seq<OpenOrder>): (v: seq<Issuer>)
    ensures |v| == |orders| && forall i :: 0 <= i < |orders| ==> v[i] == IssuerOf(orders[i])
  {
    seq(|orders|, i requires 0 <= i < |orders| => IssuerOf(orders[i]))
  }

  /** The part of a customer's shares on invoices of one kind of issuer. */
  function IssuerPart(ledger: seq<Entry>, orders: seq<OpenOrder>, customer: string, x: Issuer): int {
    PartOf(Issuers(Queue(orders, customer)), SharesOf(ledger, orders, customer), x)
  }

  /** The inner loop for one customer: the pool goes down, the three totals go up. */
  method AllocateCustomer(ledger: seq<Entry>, arr: seq<OpenOrder>, open: int)
    returns (driver: int, branch: int, other: int)
    requires open >= 0
    ensures
      var shares := Shares(Nets(ledger, arr), open);
      && driver == PartOf(Issuers(arr), shares, ByDriver)
      && branch == PartOf(Issuers(arr), shares, ByBranch)
      && other == PartOf(Issuers(arr), shares, ByOther)
      && driver + branch + other == Min(open, SumMinor(Nets(ledger, arr)))
  {
    hide SumMinor, Share, PartOf, PaidOn;
    ghost var nets := Nets(ledger, arr);
    ghost var shares := Shares(nets, open);
    ghost var issuers := Issuers(arr);
    driver, branch, other := 0, 0, 0;
    var pool := open;
    StartOfLoop(nets, shares, issuers);
    var i := 0;
    while i < |arr|
      invariant 0 <= i <= |arr|
      invariant pool == Max(open - SumMinor(nets[..i]), 0)
      invariant driver == PartOf(issuers[..i], shares[..i], ByDriver)
      invariant branch == PartOf(issuers[..i], shares[..i], ByBranch)
      invariant other == PartOf(issuers[..i], shares[..i], ByOther)
      invariant driver + branch + other == SumMinor(shares[..i])
    {
      var o := arr[i];
      var paid := PaidOn(ledger, o.orderId);
      var perOrderNet := Max(o.debt - paid, 0);
      var share := Min(perOrderNet, pool);
      ShareIs(nets, open, i);
      SumPrefix(nets, i);
      SumPrefix(shares, i);
      PartSnoc(issuers, shares, i, ByDriver);
      PartSnoc(issuers, shares, i, ByBranch);
      PartSnoc(issuers, shares, i, ByOther);
      pool := pool - share;
      if o.issuerRole == Some(DRIVER) {
        driver := driver + share;
      } else if o.issuerRole == Some(MANAGER) || o.issuerRole == Some(SUPERVISOR) {
        branch := branch + share;
      } else {
        other := other + share;
      }
      i := i + 1;
    }
    assert nets[..i] == nets && shares[..i] == shares && issuers[..i] == issuers;
    SharesTotal(nets, open);
  }

  lemma StartOfLoop(nets: seq<int>, shares: seq<int>, issuers: seq<Issuer>)
    requires |nets| == |shares| == |issuers|
    ensures SumMinor(nets[..0]) == 0 && SumMinor(shares[..0]) == 0
    ensures forall x :: PartOf(issuers[..0], shares[..0], x) == 0
  {
  }

  lemma ShareIs(nets: seq<int>, pool: int, i: nat)
    requires i < |nets|
    ensures Share(nets, pool, i) == Min(nets[i], Max(pool - SumMinor(nets[..i]), 0))
  {
  }

  // ---- all customers

  /** `ids` are the customers that have an order, each once. */
  ghost predicate AreCustomers(orders: seq<OpenOrder>, ids: seq<string>) {
    && Distinct(ids)
    && forall id :: id in ids <==> exists k :: 0 <= k < |orders| && orders[k].customerId == id
  }

  method CustomersOf(orders: seq<OpenOrder>) returns (ids: seq<string>)
    ensures AreCustomers(orders, ids)
  {
    ids := [];
    var i := 0;
    while i < |orders|
      invariant 0 <= i <= |orders| && Distinct(ids)
      invariant forall id :: id in ids ==> exists k :: 0 <= k < i && orders[k].customerId == id
      invariant forall k :: 0 <= k < i ==> orders[k].customerId in ids
    {
      if orders[i].customerId !in ids { ids := ids + [orders[i].customerId]; }
      i := i + 1;
    }
  }

  /** The least a customer's list can show: the pool, or all there is to pay. */
  function Listed(ledger: seq<Entry>, orders: seq<OpenOrder>, customer: string): int {
    Min(OpenOf(ledger, customer), SumMinor(Nets(ledger, Queue(orders, customer))))
  }

  function ListedAll(ledger: seq<Entry>, orders: seq<OpenOrder>, ids: seq<string>): int {
    if ids == [] then 0
    else ListedAll(ledger, orders, ids[..|ids| - 1]) + Listed(ledger, orders, ids[|ids| - 1])
  }

  function IssuerAll(ledger: seq<Entry>, orders: seq<OpenOrder>, ids: seq<string>, x: Issuer): int {
    if ids == [] then 0
    else IssuerAll(ledger, orders, ids[..|ids| - 1], x) + IssuerPart(ledger, orders, ids[|ids| - 1], x)
  }

  /**
   * The dashboard figures: open debt by issuer. The three parts are the first-in first-out shares of
   * the invoices of that kind, and together they are what the customers' lists show.
   */
  method DashboardDebt(ledger: seq<Entry>)
    returns (netDriver: int, netBranch: int, netOther: int, orders: seq<OpenOrder>, ids: seq<string>)
    ensures Groups(orders, Shortfalls(ledger, false)) && AreCustomers(orders, ids)
    ensures netDriver == IssuerAll(ledger, orders, ids, ByDriver)
    ensures netBranch == IssuerAll(ledger, orders, ids, ByBranch)
    ensures netOther == IssuerAll(ledger, orders, ids, ByOther)
    ensures netDriver + netBranch + netOther == ListedAll(ledger, orders, ids)
  {
    hide *;
    var grouped := GroupByOrder(Shortfalls(ledger, false));
    var customers := CustomersOf(grouped);
    orders, ids := grouped, customers;
    netDriver, netBranch, netOther := AllocateAll(ledger, grouped, customers);
  }

  method AllocateAll(ledger: seq<Entry>, orders: seq<OpenOrder>, ids: seq<string>)
    returns (netDriver: int, netBranch: int, netOther: int)
    ensures netDriver == IssuerAll(ledger, orders, ids, ByDriver)
    ensures netBranch == IssuerAll(ledger, orders, ids, ByBranch)
    ensures netOther == IssuerAll(ledger, orders, ids, ByOther)
    ensures netDriver + netBranch + netOther == ListedAll(ledger, orders, ids)
  {
    hide PartOf, SumMinor, DebtOf, PaymentsOf, PaidOn, SortByTime, OrdersOf;
    netDriver, netBranch, netOther := 0, 0, 0;
    assert ids[..0] == [];
    var i := 0;
    while i < |ids|
      invariant 0 <= i <= |ids|
      invariant netDriver == IssuerAll(ledger, orders, ids[..i], ByDriver)
      invariant netBranch == IssuerAll(ledger, orders, ids[..i], ByBranch)
      invariant netOther == IssuerAll(ledger, orders, ids[..i], ByOther)
      invariant netDriver + netBranch + netOther == ListedAll(ledger, orders, ids[..i])
    {
      var arr := Queue(orders, ids[i]);
      var d, b, o := AllocateCustomer(ledger, arr, OpenOf(ledger, ids[i]));
      assert ids[..i + 1][..i] == ids[..i] && ids[..i + 1][i] == ids[i];
      netDriver, netBranch, netOther := netDriver + d, netBranch + b, netOther + o;
      i := i + 1;
    }
    assert ids[..i] == ids;
  }

  // ---- collections against the unpaid list

  function OpenAll(ledger: seq<Entry>, ids: seq<string>): int {
    if ids == [] then 0 else OpenAll(ledger, ids[..|ids| - 1]) + OpenOf(ledger, ids[|ids| - 1])
  }

  ghost predicate AreLedgerCustomers(ledger: seq<Entry>, ids: seq<string>) {
    && Distinct(ids)
    && forall id :: id in ids <==> exists k :: 0 <= k < |ledger| && ledger[k].customerId == id
  }

  method LedgerCustomers(ledger: seq<Entry>) returns (ids: seq<string>)
    ensures AreLedgerCustomers(ledger, ids)
  {
    ids := [];
    var i := 0;
    while i < |ledger|
      invariant 0 <= i <= |ledger| && Distinct(ids)
      invariant forall id :: id in ids ==> exists k :: 0 <= k < i && ledger[k].customerId == id
      invariant forall k :: 0 <= k < i ==> ledger[k].customerId in ids
    {
      if ledger[i].customerId !in ids { ids := ids + [ledger[i].customerId]; }
      i := i + 1;
    }
  }

  /** Both figures of the second script, with the facts that tie them to the ledger. */
  method CompareTotals(ledger: seq<Entry>)
    returns (collectionsOpen: int, unpaidListOpen: int,
             orders: seq<OpenOrder>, ids: seq<string>, everyone: seq<string>)
    ensures Groups(orders, Shortfalls(ledger, true)) && AreCustomers(orders, ids) && AreLedgerCustomers(ledger, everyone)
    ensures collectionsOpen == OpenAll(ledger, everyone)
    ensures unpaidListOpen == ListedAll(ledger, orders, ids)
    ensures unpaidListOpen <= collectionsOpen
    ensures unpaidListOpen == collectionsOpen <==>
      forall id :: id in everyone ==> OpenOf(ledger, id) <= SumMinor(Nets(ledger, Queue(orders, id)))
  {
    var customers := LedgerCustomers(ledger);
    collectionsOpen := 0;
    assert customers[..0] == [];
    var i := 0;
    while i < |customers|
      invariant 0 <= i <= |customers| && collectionsOpen == OpenAll(ledger, customers[..i])
    {
      assert customers[..i + 1][..i] == customers[..i] && customers[..i + 1][i] == customers[i];
      collectionsOpen := collectionsOpen + OpenOf(ledger, customers[i]);
      i := i + 1;
    }
    assert customers[..i] == customers;
    var grouped := GroupByOrder(Shortfalls(ledger, true));
    var withOrders := CustomersOf(grouped);
    var d, b, o := AllocateAll(ledger, grouped, withOrders);
    unpaidListOpen := d + b + o;
    orders, ids, everyone := grouped, withOrders, customers;
    ListNeverExceeds(ledger, orders, ids, everyone);
  }

  lemma {:induction false} ShortfallsFrom(ledger: seq<Entry>, fieldStaffOnly: bool)
    ensures forall e :: e in Shortfalls(ledger, fieldStaffOnly) ==> e in ledger
  {
    if ledger != [] { ShortfallsFrom(ledger[..|ledger| - 1], fieldStaffOnly); }
  }

  lemma {:induction false} NoOrdersOf(orders: seq<OpenOrder>, customer: string)
    requires forall k :: 0 <= k < |orders| ==> orders[k].customerId != customer
    ensures OrdersOf(orders, customer) == []
  {
    if orders != [] { NoOrdersOf(orders[..|orders| - 1], customer); }
  }

  lemma NetsTotal(ledger: seq<Entry>, orders: seq<OpenOrder>)
    ensures SumMinor(Nets(ledger, orders)) >= 0
  {
    PrefixGrows(Nets(ledger, orders), 0, |orders|);
    assert Nets(ledger, orders)[..|orders|] == Nets(ledger, orders);
  }

  lemma ListedIsPositive(ledger: seq<Entry>, orders: seq<OpenOrder>, customer: string)
    ensures Listed(ledger, orders, customer) >= 0
  {
    hide OpenOf;
    NetsTotal(ledger, Queue(orders, customer));
  }

  lemma {:induction false} ListedAllIsSum(ledger: seq<Entry>, orders: seq<OpenOrder>, ids: seq<string>, f: string -> int)
    requires forall id :: f(id) == Listed(ledger, orders, id)
    ensures ListedAll(ledger, orders, ids) == SumOver(ids, f)
  {
    hide Listed;
    if ids != [] { ListedAllIsSum(ledger, orders, ids[..|ids| - 1], f); }
  }

  /** Listed figures over all customers do not need the customers without orders. */
  lemma ListedOnlyWithOrders(ledger: seq<Entry>, orders: seq<OpenOrder>, ids: seq<string>, more: seq<string>)
    requires Distinct(ids) && Distinct(more) && forall id :: id in ids ==> id in more
    requires forall id :: id in more && id !in ids ==> Listed(ledger, orders, id) == 0
    ensures ListedAll(ledger, orders, ids) == ListedAll(ledger, orders, more)
  {
    hide Listed;
    var f := (id: string) => Listed(ledger, orders, id);
    forall id ensures f(id) >= 0 { ListedIsPositive(ledger, orders, id); }
    ListedAllIsSum(ledger, orders, ids, f);
    ListedAllIsSum(ledger, orders, more, f);
    PartSumsToLess(ids, more, f, f);
  }

  lemma {:induction false} ListedBelowOpen(ledger: seq<Entry>, orders: seq<OpenOrder>, ids: seq<string>)
    ensures ListedAll(ledger, orders, ids) <= OpenAll(ledger, ids)
    ensures ListedAll(ledger, orders, ids) == OpenAll(ledger, ids) <==>
      forall id :: id in ids ==> OpenOf(ledger, id) <= SumMinor(Nets(ledger, Queue(orders, id)))
  {
    hide OpenOf, SumMinor, Queue, Nets;
    if ids != [] {
      var n := |ids| - 1;
      ListedBelowOpen(ledger, orders, ids[..n]);
      assert forall id :: id in ids <==> id in ids[..n] || id == ids[n];
    }
  }

  /** The list never exceeds the collections figure; it reaches it when the nets cover every pool. */
  lemma ListNeverExceeds(ledger: seq<Entry>, orders: seq<OpenOrder>, ids: seq<string>, everyone: seq<string>)
    requires Groups(orders, Shortfalls(ledger, true)) && AreCustomers(orders, ids) && AreLedgerCustomers(ledger, everyone)
    ensures ListedAll(ledger, orders, ids) <= OpenAll(ledger, everyone)
    ensures ListedAll(ledger, orders, ids) == OpenAll(ledger, everyone) <==>
      forall id :: id in everyone ==> OpenOf(ledger, id) <= SumMinor(Nets(ledger, Queue(orders, id)))
  {
    hide *;
    ListedAreKnown(ledger, orders, ids, everyone);
    ListedOnlyWithOrders(ledger, orders, ids, everyone);
    ListedBelowOpen(ledger, orders, everyone);
  }

  lemma ListedAreKnown(ledger: seq<Entry>, orders: seq<OpenOrder>, ids: seq<string>, everyone: seq<string>)
    requires Groups(orders, Shortfalls(ledger, true)) && AreCustomers(orders, ids) && AreLedgerCustomers(ledger, everyone)
    ensures Distinct(ids) && Distinct(everyone)
    ensures forall id :: id in ids ==> id in everyone
    ensures forall id :: id in everyone && id !in ids ==> Listed(ledger, orders, id) == 0
  {
    hide Listed, Shortfalls, ShortfallOn, DistinctOrders, HasOrder;
    var rows := Shortfalls(ledger, true);
    ShortfallsFrom(ledger, true);
    forall id | id in ids ensures id in everyone {
      var k :| 0 <= k < |orders| && orders[k].customerId == id;
      assert Described(orders[k], rows, |rows|);
      var x :| 0 <= x < |rows| && FirstRow(orders[k], rows, x);
      assert rows[x] in ledger;
    }
    forall id | id in everyone && id !in ids ensures Listed(ledger, orders, id) == 0 {
      NoOrdersOf(orders, id);
      NothingListed(ledger, orders, id);
    }
  }

  lemma NothingListed(ledger: seq<Entry>, orders: seq<OpenOrder>, customer: string)
    requires OrdersOf(orders, customer) == []
    ensures Listed(ledger, orders, customer) == 0
  {
    assert Queue(orders, customer) == [];
    assert Nets(ledger, []) == [];
  }
}
