/**
 * The two debt scripts side by side: whether the dashboard figure is the unpaid-list figure it is printed
 * as, and in which order a customer's invoices are served.
 */
module UnpaidList {
  import opened Wrappers
  import opened DebtSources
  import opened Fixed4
  import opened KeyedSums
  import opened SumsOver
  import opened Waterfall
  import opened DebtComparison

  // ---- the figures on the fields of the ledger

  /** The rows of an order from one source, issued in one role. */
  function OrderAmount(ledger: seq<Entry>, orderId: string, source: Source, roles: set<Option<Role>>): int {
    if ledger == [] then 0
    else
      var e := ledger[|ledger| - 1];
      OrderAmount(ledger[..|ledger| - 1], orderId, source, roles) +
      if e.orderId == Some(orderId) && e.source == source && e.role in roles then e.amount else 0
  }

  /** The rows of a customer from one source. */
  function CustomerAmount(ledger: seq<Entry>, customer: string, source: Source): int {
    if ledger == [] then 0
    else
      var e := ledger[|ledger| - 1];
      CustomerAmount(ledger[..|ledger| - 1], customer, source) +
      if e.customerId == customer && e.source == source then e.amount else 0
  }

  const ANYBODY: set<Option<Role>> := {None, Some(DRIVER), Some(MANAGER), Some(SUPERVISOR), Some(OTHER_ROLE)}
  const FIELD_STAFF: set<Option<Role>> := {Some(DRIVER), Some(MANAGER)}

  lemma EveryRole(role: Option<Role>)
    ensures role in ANYBODY
    ensures role == None || role == Some(DRIVER) || role == Some(MANAGER) || role == Some(SUPERVISOR) || role == Some(OTHER_ROLE)
  {
    if role.Some? {
      match role.value
      case DRIVER =>
      case MANAGER =>
      case SUPERVISOR =>
      case OTHER_ROLE =>
    }
  }

  /** The pool of a customer is what shortfalls, overuse and other rows add up to beyond the payments. */
  lemma {:induction false} PoolOnFields(ledger: seq<Entry>, customer: string)
    ensures DebtOf(ledger, customer) == CustomerAmount(ledger, customer, INVOICE_SHORTFALL)
      + CustomerAmount(ledger, customer, SUBSCRIPTION_OVERUSE) + CustomerAmount(ledger, customer, OTHER_SOURCE)
    ensures PaymentsOf(ledger, customer) == CustomerAmount(ledger, customer, PAYMENT)
  {
    if ledger != [] { PoolOnFields(ledger[..|ledger| - 1], customer); }
  }

  lemma {:induction false} PaidOnFields(ledger: seq<Entry>, orderId: string)
    ensures PaidOn(ledger, orderId) == OrderAmount(ledger, orderId, PAYMENT, ANYBODY)
  {
    hide ANYBODY;
    if ledger != [] {
      PaidOnFields(ledger[..|ledger| - 1], orderId);
      EveryRole(ledger[|ledger| - 1].role);
    }
  }

  lemma {:induction false} ShortfallOnFields(ledger: seq<Entry>, fieldStaffOnly: bool, orderId: string)
    ensures
      var rows := Shortfalls(ledger, fieldStaffOnly);
      ShortfallOn(rows, |rows|, orderId) ==
        OrderAmount(ledger, orderId, INVOICE_SHORTFALL, if fieldStaffOnly then FIELD_STAFF else ANYBODY)
  {
    hide ShortfallOn, ANYBODY;
    if ledger == [] {
      NoRows(orderId);
    } else {
      var init, e := ledger[..|ledger| - 1], ledger[|ledger| - 1];
      ShortfallOnFields(init, fieldStaffOnly, orderId);
      EveryRole(e.role);
      var rows := Shortfalls(init, fieldStaffOnly);
      assert rows + [] == rows;
      ShortfallOnSnoc(rows, e, orderId);
    }
  }

  lemma NoRows(orderId: string)
    ensures ShortfallOn([], 0, orderId) == 0
  {
  }

  /** What is left to pay on an order: its shortfall beyond the payments made on it, never less than nothing. */
  lemma NetOnFields(ledger: seq<Entry>, fieldStaffOnly: bool, orderId: string)
    ensures NetOn(ledger, fieldStaffOnly, orderId) ==
      Max(OrderAmount(ledger, orderId, INVOICE_SHORTFALL, if fieldStaffOnly then FIELD_STAFF else ANYBODY)
          - OrderAmount(ledger, orderId, PAYMENT, ANYBODY), 0)
  {
    hide ShortfallOn, Shortfalls, PaidOn, OrderAmount;
    PaidOnFields(ledger, orderId);
    ShortfallOnFields(ledger, fieldStaffOnly, orderId);
  }

  /** The shares on orders issued in some roles. */
  function SharesBy(arr: seq<OpenOrder>, shares: seq<int>, roles: set<Option<Role>>): int
    requires |arr| == |shares|
  {
    if arr == [] then 0
    else
      var n := |arr| - 1;
      SharesBy(arr[..n], shares[..n], roles) + if arr[n].issuerRole in roles then shares[n] else 0
  }

  /** A driver's invoices, a branch's (managers and supervisors), and all others. */
  lemma {:induction false} PartsByRole(arr: seq<OpenOrder>, shares: seq<int>)
    requires |arr| == |shares|
    ensures PartOf(Issuers(arr), shares, ByDriver) == SharesBy(arr, shares, {Some(DRIVER)})
    ensures PartOf(Issuers(arr), shares, ByBranch) == SharesBy(arr, shares, {Some(MANAGER), Some(SUPERVISOR)})
    ensures PartOf(Issuers(arr), shares, ByOther) == SharesBy(arr, shares, {None, Some(OTHER_ROLE)})
  {
    if arr != [] {
      var n := |arr| - 1;
      PartsByRole(arr[..n], shares[..n]);
      EveryRole(arr[n].issuerRole);
      assert Issuers(arr)[..n] == Issuers(arr[..n]);
    }
  }

  // ---- oldest first

  lemma {:induction false} OrdersOfAre(orders: seq<OpenOrder>, customer: string)
    ensures forall o :: o in OrdersOf(orders, customer) <==> o in orders && o.customerId == customer
  {
    if orders != [] {
      assert orders == orders[..|orders| - 1] + [orders[|orders| - 1]];
      OrdersOfAre(orders[..|orders| - 1], customer);
    }
  }

  /** The queue of a customer is exactly that customer's orders, oldest first. */
  lemma QueueIsByAge(orders: seq<OpenOrder>, customer: string)
    ensures OldestFirst(Queue(orders, customer))
    ensures multiset(Queue(orders, customer)) == multiset(OrdersOf(orders, customer))
    ensures forall o :: o in Queue(orders, customer) <==> o in orders && o.customerId == customer
  {
    hide SortByTime, OrdersOf;
    var own := OrdersOf(orders, customer);
    SortByTimeFacts(own);
    OrdersOfAre(orders, customer);
    forall o ensures o in Queue(orders, customer) <==> o in own {
      assert o in Queue(orders, customer) <==> o in multiset(Queue(orders, customer));
      assert o in own <==> o in multiset(own);
    }
  }

  /** The orders of a customer created at one instant, in the order given. */
  function CreatedAt(orders: seq<OpenOrder>, customer: string, at: int): seq<OpenOrder> {
    if orders == [] then []
    else
      var o := orders[|orders| - 1];
      CreatedAt(orders[..|orders| - 1], customer, at) + if o.customerId == customer && o.createdAt == at then [o] else []
  }

  lemma CreatedSnoc(orders: seq<OpenOrder>, o: OpenOrder, customer: string, at: int)
    ensures CreatedAt(orders + [o], customer, at) ==
      CreatedAt(orders, customer, at) + if o.customerId == customer && o.createdAt == at then [o] else []
  {
    assert (orders + [o])[..|orders|] == orders;
  }

  /** Inserting by time puts an order behind those of the same instant. */
  lemma {:induction false} InsertIsStable(s: seq<OpenOrder>, o: OpenOrder, customer: string, at: int)
    ensures CreatedAt(InsertByTime(s, o), customer, at) ==
      CreatedAt(s, customer, at) + if o.customerId == customer && o.createdAt == at then [o] else []
  {
    hide CreatedAt;
    if s == [] || s[|s| - 1].createdAt <= o.createdAt {
      CreatedSnoc(s, o, customer, at);
    } else {
      var init, last := s[..|s| - 1], s[|s| - 1];
      assert s == init + [last];
      InsertIsStable(init, o, customer, at);
      CreatedSnoc(init, last, customer, at);
      CreatedSnoc(InsertByTime(init, o), last, customer, at);
    }
  }

  lemma {:induction false} SortIsStable(orders: seq<OpenOrder>, customer: string, at: int)
    ensures CreatedAt(SortByTime(orders), customer, at) == CreatedAt(orders, customer, at)
  {
    hide InsertByTime, CreatedAt;
    if orders == [] {
      assert SortByTime(orders) == orders;
    } else {
      var n := |orders| - 1;
      SortIsStable(orders[..n], customer, at);
      InsertIsStable(SortByTime(orders[..n]), orders[n], customer, at);
      CreatedSnoc(orders[..n], orders[n], customer, at);
      assert orders == orders[..n] + [orders[n]];
    }
  }

  lemma {:induction false} OwnCreated(orders: seq<OpenOrder>, customer: string, at: int)
    ensures CreatedAt(OrdersOf(orders, customer), customer, at) == CreatedAt(orders, customer, at)
  {
    hide CreatedAt;
    if orders == [] {
      assert OrdersOf(orders, customer) == orders;
    } else {
      var n := |orders| - 1;
      OwnCreated(orders[..n], customer, at);
      CreatedSnoc(orders[..n], orders[n], customer, at);
      assert orders == orders[..n] + [orders[n]];
      if orders[n].customerId == customer {
        CreatedSnoc(OrdersOf(orders[..n], customer), orders[n], customer, at);
      } else {
        assert OrdersOf(orders, customer) == OrdersOf(orders[..n], customer);
      }
    }
  }

  /** Invoices of the same instant keep the order in which the ledger first mentions them. */
  lemma TiesKeepOrder(orders: seq<OpenOrder>, customer: string, at: int)
    ensures CreatedAt(Queue(orders, customer), customer, at) == CreatedAt(orders, customer, at)
  {
    hide CreatedAt, SortByTime, OrdersOf;
    SortIsStable(OrdersOf(orders, customer), customer, at);
    OwnCreated(orders, customer, at);
  }

  lemma OlderComesEarlier(queue: seq<OpenOrder>, i: nat, j: nat)
    requires OldestFirst(queue) && i < |queue| && j < |queue| && queue[j].createdAt < queue[i].createdAt
    ensures j < i
  {
  }

  /** When an invoice gets a share, every strictly older invoice of the customer is paid in full. */
  lemma OlderInvoicesFirst(ledger: seq<Entry>, orders: seq<OpenOrder>, customer: string, i: nat, j: nat)
    requires i < |Queue(orders, customer)| && j < |Queue(orders, customer)|
    requires Queue(orders, customer)[j].createdAt < Queue(orders, customer)[i].createdAt
    requires SharesOf(ledger, orders, customer)[i] > 0
    ensures SharesOf(ledger, orders, customer)[j] == Nets(ledger, Queue(orders, customer))[j]
  {
    hide Queue, Nets, Shares;
    QueueIsByAge(orders, customer);
    var q := Queue(orders, customer);
    OlderComesEarlier(q, i, j);
    SharesAreFifo(Nets(ledger, q), OpenOf(ledger, customer), i);
  }

  // ---- nets by order id

  /** What is left to pay on an order, over all shortfall rows or over those of field staff. */
  function NetOn(ledger: seq<Entry>, fieldStaffOnly: bool, orderId: string): int {
    var rows := Shortfalls(ledger, fieldStaffOnly);
    Max(ShortfallOn(rows, |rows|, orderId) - PaidOn(ledger, orderId), 0)
  }

  function IdsOfOrders(orders: seq<OpenOrder>): (ids: seq<string>)
    ensures |ids| == |orders| && forall i :: 0 <= i < |orders| ==> ids[i] == orders[i].orderId
  {
    seq(|orders|, i requires 0 <= i < |orders| => orders[i].orderId)
  }

  lemma NetsSnoc(ledger: seq<Entry>, orders: seq<OpenOrder>, o: OpenOrder)
    ensures SumMinor(Nets(ledger, orders + [o])) == SumMinor(Nets(ledger, orders)) + Max(o.debt - PaidOn(ledger, o.orderId), 0)
  {
    hide PaidOn;
    assert Nets(ledger, orders + [o]) == Nets(ledger, orders) + [Max(o.debt - PaidOn(ledger, o.orderId), 0)];
    SumMinorSnoc(Nets(ledger, orders), Max(o.debt - PaidOn(ledger, o.orderId), 0));
  }

  lemma {:induction false} NetsOfInsert(ledger: seq<Entry>, s: seq<OpenOrder>, o: OpenOrder)
    ensures SumMinor(Nets(ledger, InsertByTime(s, o))) == SumMinor(Nets(ledger, s)) + Max(o.debt - PaidOn(ledger, o.orderId), 0)
  {
    hide PaidOn, SumMinor, Nets, Max;
    if s == [] || s[|s| - 1].createdAt <= o.createdAt {
      NetsSnoc(ledger, s, o);
    } else {
      var n := |s| - 1;
      NetsOfInsert(ledger, s[..n], o);
      assert s == s[..n] + [s[n]];
      NetsSnoc(ledger, s[..n], s[n]);
      NetsSnoc(ledger, InsertByTime(s[..n], o), s[n]);
    }
  }

  /** Sorting does not change what there is to pay. */
  lemma {:induction false} NetsOfSorted(ledger: seq<Entry>, orders: seq<OpenOrder>)
    ensures SumMinor(Nets(ledger, SortByTime(orders))) == SumMinor(Nets(ledger, orders))
  {
    hide PaidOn, SumMinor, Nets, Max, InsertByTime;
    if orders != [] {
      var n := |orders| - 1;
      NetsOfSorted(ledger, orders[..n]);
      NetsOfInsert(ledger, SortByTime(orders[..n]), orders[n]);
      assert orders == orders[..n] + [orders[n]];
      NetsSnoc(ledger, orders[..n], orders[n]);
    }
  }

  lemma {:induction false} NetsBySum(ledger: seq<Entry>, fieldStaffOnly: bool, orders: seq<OpenOrder>, f: string -> int)
    requires forall id :: f(id) == NetOn(ledger, fieldStaffOnly, id)
    requires
      var rows := Shortfalls(ledger, fieldStaffOnly);
      forall i :: 0 <= i < |orders| ==> orders[i].debt == ShortfallOn(rows, |rows|, orders[i].orderId)
    ensures SumMinor(Nets(ledger, orders)) == SumOver(IdsOfOrders(orders), f)
  {
    hide PaidOn, SumMinor, Nets, Max, Shortfalls, ShortfallOn;
    if orders == [] {
      NoNets(ledger);
    } else {
      var n := |orders| - 1;
      var o := orders[n];
      NetsBySum(ledger, fieldStaffOnly, orders[..n], f);
      assert orders == orders[..n] + [o];
      NetsSnoc(ledger, orders[..n], o);
      assert IdsOfOrders(orders)[..n] == IdsOfOrders(orders[..n]);
      assert f(o.orderId) == NetOn(ledger, fieldStaffOnly, o.orderId);
    }
  }

  lemma NoNets(ledger: seq<Entry>)
    ensures SumMinor(Nets(ledger, [])) == 0
  {
  }

  // ---- the tables

  /** Shortfall amounts are never negative. */
  ghost predicate NonNegativeShortfalls(ledger: seq<Entry>) {
    forall i :: 0 <= i < |ledger| && ledger[i].source == INVOICE_SHORTFALL ==> ledger[i].amount >= 0
  }

  /** An order belongs to one customer. */
  ghost predicate OneCustomerPerOrder(ledger: seq<Entry>) {
    forall d, e :: d in ledger && e in ledger && d.orderId == e.orderId && d.orderId.Some? ==> d.customerId == e.customerId
  }

  lemma {:induction false} ShortfallsAre(ledger: seq<Entry>, fieldStaffOnly: bool)
    ensures forall e :: e in Shortfalls(ledger, fieldStaffOnly) <==>
      (e in ledger && e.source == INVOICE_SHORTFALL && e.orderId.Some?
       && (fieldStaffOnly ==> e.role == Some(DRIVER) || e.role == Some(MANAGER)))
  {
    if ledger != [] {
      assert ledger == ledger[..|ledger| - 1] + [ledger[|ledger| - 1]];
      ShortfallsAre(ledger[..|ledger| - 1], fieldStaffOnly);
    }
  }

  lemma {:induction false} ShortfallOnPrefix(rows: seq<Entry>, more: seq<Entry>, n: nat, orderId: string)
    requires n <= |rows|
    ensures ShortfallOn(rows + more, n, orderId) == ShortfallOn(rows, n, orderId)
  {
    if n > 0 { ShortfallOnPrefix(rows, more, n - 1, orderId); }
  }

  lemma ShortfallOnSnoc(rows: seq<Entry>, e: Entry, orderId: string)
    ensures ShortfallOn(rows + [e], |rows| + 1, orderId) ==
      ShortfallOn(rows, |rows|, orderId) + if e.orderId == Some(orderId) then e.amount else 0
  {
    ShortfallOnPrefix(rows, [e], |rows|, orderId);
  }

  /** Field staff never issued more of an order than everybody. */
  lemma {:induction false} FieldShortfallIsLess(ledger: seq<Entry>, orderId: string)
    requires NonNegativeShortfalls(ledger)
    ensures
      var field, all := Shortfalls(ledger, true), Shortfalls(ledger, false);
      ShortfallOn(field, |field|, orderId) <= ShortfallOn(all, |all|, orderId)
  {
    hide ShortfallOn;
    if ledger != [] {
      var init, e := ledger[..|ledger| - 1], ledger[|ledger| - 1];
      assert forall i :: 0 <= i < |init| ==> init[i] == ledger[i];
      FieldShortfallIsLess(init, orderId);
      var field, all := Shortfalls(init, true), Shortfalls(init, false);
      assert field + [] == field && all + [] == all;
      ShortfallOnSnoc(field, e, orderId);
      ShortfallOnSnoc(all, e, orderId);
    }
  }

  // ---- the two figures of one customer

  lemma {:induction false} DistinctIdsOf(orders: seq<OpenOrder>, customer: string)
    requires DistinctOrders(orders)
    ensures DistinctOrders(OrdersOf(orders, customer))
  {
    if orders != [] {
      var n := |orders| - 1;
      DistinctIdsOf(orders[..n], customer);
      OrdersOfAre(orders[..n], customer);
      var own := OrdersOf(orders[..n], customer);
      forall i | 0 <= i < |own| ensures own[i].orderId != orders[n].orderId {
        assert own[i] in own;
        var k :| 0 <= k < n && orders[k] == own[i];
      }
    }
  }

  lemma IdsOfAre(orders: seq<OpenOrder>, customer: string, id: string)
    ensures id in IdsOfOrders(OrdersOf(orders, customer)) <==> exists o :: o in orders && o.customerId == customer && o.orderId == id
  {
    hide OrdersOf;
    OrdersOfAre(orders, customer);
    var own := OrdersOf(orders, customer);
    if id in IdsOfOrders(own) {
      var i :| 0 <= i < |own| && IdsOfOrders(own)[i] == id;
      assert own[i] in own;
    }
    if o :| o in orders && o.customerId == customer && o.orderId == id {
      var i :| 0 <= i < |own| && own[i] == o;
      assert IdsOfOrders(own)[i] == id;
    }
  }

  /** What a customer's queue has to pay, summed by order id. */
  lemma QueueNets(ledger: seq<Entry>, fieldStaffOnly: bool, orders: seq<OpenOrder>, customer: string, f: string -> int)
    requires Groups(orders, Shortfalls(ledger, fieldStaffOnly)) && forall id :: f(id) == NetOn(ledger, fieldStaffOnly, id)
    ensures SumMinor(Nets(ledger, Queue(orders, customer))) == SumOver(IdsOfOrders(OrdersOf(orders, customer)), f)
    ensures Distinct(IdsOfOrders(OrdersOf(orders, customer)))
  {
    hide SumMinor, Nets, SortByTime, OrdersOf, NetOn, Shortfalls, Described, HasOrder, ShortfallOn;
    var own := OrdersOf(orders, customer);
    NetsOfSorted(ledger, own);
    OrdersOfAre(orders, customer);
    DistinctIdsOf(orders, customer);
    var rows := Shortfalls(ledger, fieldStaffOnly);
    forall i | 0 <= i < |own| ensures own[i].debt == ShortfallOn(rows, |rows|, own[i].orderId) {
      assert own[i] in own;
      var k :| 0 <= k < |orders| && orders[k] == own[i];
    }
    NetsBySum(ledger, fieldStaffOnly, own, f);
  }

  /** An order of the field-staff list is an order of the full list, of the same customer. */
  lemma FieldOrderIsListed(ledger: seq<Entry>, field: seq<OpenOrder>, all: seq<OpenOrder>, o: OpenOrder) returns (p: OpenOrder)
    requires Groups(field, Shortfalls(ledger, true)) && Groups(all, Shortfalls(ledger, false)) && OneCustomerPerOrder(ledger)
    requires o in field
    ensures p in all && p.orderId == o.orderId && p.customerId == o.customerId
  {
    hide Shortfalls, ShortfallOn, DistinctOrders;
    var rows, every := Shortfalls(ledger, true), Shortfalls(ledger, false);
    ShortfallsAre(ledger, true);
    ShortfallsAre(ledger, false);
    var k :| 0 <= k < |field| && field[k] == o;
    assert Described(field[k], rows, |rows|);
    var x :| 0 <= x < |rows| && FirstRow(o, rows, x);
    assert rows[x] in rows && rows[x] in every;
    var y :| 0 <= y < |every| && every[y] == rows[x];
    assert HasOrder(all, every[y].orderId.value);
    var i :| 0 <= i < |all| && all[i].orderId == o.orderId;
    p := all[i];
    assert Described(all[i], every, |every|);
    var z :| 0 <= z < |every| && FirstRow(p, every, z);
    assert every[z] in every;
  }

  /** Every order of the customer has the same net in both lists, none where the field-staff list lacks it. */
  ghost predicate SameNets(ledger: seq<Entry>, field: seq<OpenOrder>, all: seq<OpenOrder>, customer: string) {
    forall o :: o in all && o.customerId == customer ==>
      NetOn(ledger, false, o.orderId) == if HasOrder(field, o.orderId) then NetOn(ledger, true, o.orderId) else 0
  }

  lemma FieldNetsAreLess(ledger: seq<Entry>, field: seq<OpenOrder>, all: seq<OpenOrder>, customer: string)
    requires Groups(field, Shortfalls(ledger, true)) && Groups(all, Shortfalls(ledger, false))
    requires OneCustomerPerOrder(ledger) && NonNegativeShortfalls(ledger)
    ensures SumMinor(Nets(ledger, Queue(field, customer))) <= SumMinor(Nets(ledger, Queue(all, customer)))
    ensures SumMinor(Nets(ledger, Queue(field, customer))) == SumMinor(Nets(ledger, Queue(all, customer))) <==>
      SameNets(ledger, field, all, customer)
  {
    hide SumMinor, Nets, Queue, OrdersOf, Shortfalls, ShortfallOn, PaidOn, Groups, HasOrder, NonNegativeShortfalls, OneCustomerPerOrder;
    var g, f := (id: string) => NetOn(ledger, true, id), (id: string) => NetOn(ledger, false, id);
    var part, ids := IdsOfOrders(OrdersOf(field, customer)), IdsOfOrders(OrdersOf(all, customer));
    QueueNets(ledger, true, field, customer, g);
    QueueNets(ledger, false, all, customer, f);
    forall id | id in part ensures id in ids && g(id) <= f(id) {
      IdsOfAre(field, customer, id);
      var o :| o in field && o.customerId == customer && o.orderId == id;
      var p := FieldOrderIsListed(ledger, field, all, o);
      IdsOfAre(all, customer, id);
      FieldShortfallIsLess(ledger, id);
    }
    PartSumsToLess(part, ids, g, f);
    SameNetsByIds(ledger, field, all, customer, part, ids, g, f);
  }

  lemma SameNetsByIds(
      ledger: seq<Entry>, field: seq<OpenOrder>, all: seq<OpenOrder>, customer: string,
      part: seq<string>, ids: seq<string>, g: string -> int, f: string -> int)
    requires Groups(field, Shortfalls(ledger, true)) && Groups(all, Shortfalls(ledger, false)) && OneCustomerPerOrder(ledger)
    requires part == IdsOfOrders(OrdersOf(field, customer)) && ids == IdsOfOrders(OrdersOf(all, customer))
    requires (forall id :: g(id) == NetOn(ledger, true, id)) && forall id :: f(id) == NetOn(ledger, false, id)
    ensures (forall id :: id in ids ==> f(id) == Within(part, g, id)) <==> SameNets(ledger, field, all, customer)
  {
    hide OrdersOf, Shortfalls, NetOn, Groups, OneCustomerPerOrder, HasOrder;
    forall o | o in all && o.customerId == customer
      ensures o.orderId in ids && (o.orderId in part <==> HasOrder(field, o.orderId))
    {
      IdsOfAre(all, customer, o.orderId);
      InPartIffInField(ledger, field, all, customer, o);
    }
    forall id | id in ids ensures exists o :: o in all && o.customerId == customer && o.orderId == id {
      IdsOfAre(all, customer, id);
    }
  }

  lemma InPartIffInField(ledger: seq<Entry>, field: seq<OpenOrder>, all: seq<OpenOrder>, customer: string, o: OpenOrder)
    requires Groups(field, Shortfalls(ledger, true)) && Groups(all, Shortfalls(ledger, false)) && OneCustomerPerOrder(ledger)
    requires o in all && o.customerId == customer
    ensures o.orderId in IdsOfOrders(OrdersOf(field, customer)) <==> HasOrder(field, o.orderId)
  {
    hide OrdersOf, Shortfalls, OneCustomerPerOrder, ShortfallOn, Described;
    IdsOfAre(field, customer, o.orderId);
    if HasOrder(field, o.orderId) {
      var i :| 0 <= i < |field| && field[i].orderId == o.orderId;
      assert field[i] in field;
      var p := FieldOrderIsListed(ledger, field, all, field[i]);
      OnlyOne(all, o, p);
    }
    if x :| x in field && x.customerId == customer && x.orderId == o.orderId {
      var i :| 0 <= i < |field| && field[i] == x;
      assert field[i].orderId == o.orderId;
    }
  }

  lemma OnlyOne(all: seq<OpenOrder>, o: OpenOrder, p: OpenOrder)
    requires DistinctOrders(all) && o in all && p in all && o.orderId == p.orderId
    ensures o == p
  {
    var i :| 0 <= i < |all| && all[i] == o;
    var j :| 0 <= j < |all| && all[j] == p;
    assert i == j;
  }

  // ---- the two figures

  /** The field-staff nets cover the customer's pool, or nothing is left to pay outside them. */
  ghost predicate FieldListSuffices(ledger: seq<Entry>, field: seq<OpenOrder>, all: seq<OpenOrder>, customer: string) {
    OpenOf(ledger, customer) <= SumMinor(Nets(ledger, Queue(field, customer))) || SameNets(ledger, field, all, customer)
  }

  lemma ListedIsLess(ledger: seq<Entry>, field: seq<OpenOrder>, all: seq<OpenOrder>, customer: string)
    requires Groups(field, Shortfalls(ledger, true)) && Groups(all, Shortfalls(ledger, false))
    requires OneCustomerPerOrder(ledger) && NonNegativeShortfalls(ledger)
    ensures Listed(ledger, field, customer) <= Listed(ledger, all, customer)
    ensures Listed(ledger, field, customer) == Listed(ledger, all, customer) <==> FieldListSuffices(ledger, field, all, customer)
  {
    hide SumMinor, Nets, Queue, Groups, SameNets, OpenOf, NonNegativeShortfalls, OneCustomerPerOrder;
    FieldNetsAreLess(ledger, field, all, customer);
  }

  /** Customers of the field-staff list are customers of the full list; the others have nothing on it. */
  lemma FieldCustomers(ledger: seq<Entry>, field: seq<OpenOrder>, fieldIds: seq<string>, all: seq<OpenOrder>, ids: seq<string>)
    requires Groups(field, Shortfalls(ledger, true)) && Groups(all, Shortfalls(ledger, false)) && OneCustomerPerOrder(ledger)
    requires AreCustomers(field, fieldIds) && AreCustomers(all, ids)
    ensures forall c :: c in fieldIds ==> c in ids
    ensures forall c :: c !in fieldIds ==> Listed(ledger, field, c) == 0
  {
    hide Groups, Listed, OneCustomerPerOrder;
    forall c | c in fieldIds ensures c in ids {
      var k :| 0 <= k < |field| && field[k].customerId == c;
      assert field[k] in field;
      var p := FieldOrderIsListed(ledger, field, all, field[k]);
      var i :| 0 <= i < |all| && all[i] == p;
      assert all[i].customerId == c;
    }
    forall c | c !in fieldIds ensures Listed(ledger, field, c) == 0 {
      NoOrdersOf(field, c);
      NothingListed(ledger, field, c);
    }
  }

  /**
   * The dashboard script prints its sum as the one of the unpaid list. The list never exceeds it, and the
   * two agree exactly when, for every customer, the orders of field staff cover the pool or nothing is
   * left to pay on the others.
   */
  lemma UnpaidListAgainstDashboard(
      ledger: seq<Entry>, field: seq<OpenOrder>, fieldIds: seq<string>, all: seq<OpenOrder>, ids: seq<string>)
    requires Groups(field, Shortfalls(ledger, true)) && AreCustomers(field, fieldIds)
    requires Groups(all, Shortfalls(ledger, false)) && AreCustomers(all, ids)
    requires OneCustomerPerOrder(ledger) && NonNegativeShortfalls(ledger)
    ensures ListedAll(ledger, field, fieldIds) <= ListedAll(ledger, all, ids)
    ensures ListedAll(ledger, field, fieldIds) == ListedAll(ledger, all, ids) <==>
      forall c :: c in ids ==> FieldListSuffices(ledger, field, all, c)
  {
    hide Groups, Listed, FieldListSuffices, NonNegativeShortfalls, OneCustomerPerOrder, ListedAll;
    var g, f := (c: string) => Listed(ledger, field, c), (c: string) => Listed(ledger, all, c);
    FieldCustomers(ledger, field, fieldIds, all, ids);
    forall c ensures g(c) <= f(c) && f(c) >= 0 && (g(c) == f(c) <==> FieldListSuffices(ledger, field, all, c)) {
      ListedIsLess(ledger, field, all, c);
      ListedIsPositive(ledger, all, c);
    }
    ListedAllIsSum(ledger, field, fieldIds, g);
    ListedAllIsSum(ledger, all, ids, f);
    PartSumsToLess(fieldIds, ids, g, f);
    forall c ensures Within(fieldIds, g, c) == g(c) {}
  }

  /** Both scripts on one ledger. */
  method RunBothScripts(ledger: seq<Entry>)
    returns (dashboard: int, collections: int, unpaidList: int, field: seq<OpenOrder>, all: seq<OpenOrder>, ids: seq<string>)
    requires OneCustomerPerOrder(ledger) && NonNegativeShortfalls(ledger)
    ensures Groups(field, Shortfalls(ledger, true)) && Groups(all, Shortfalls(ledger, false)) && AreCustomers(all, ids)
    ensures unpaidList <= dashboard && unpaidList <= collections
    ensures unpaidList == dashboard <==> forall c :: c in ids ==> FieldListSuffices(ledger, field, all, c)
  {
    hide *;
    var d, b, o, fieldIds, everyone;
    d, b, o, all, ids := DashboardDebt(ledger);
    collections, unpaidList, field, fieldIds, everyone := CompareTotals(ledger);
    dashboard := d + b + o;
    UnpaidListAgainstDashboard(ledger, field, fieldIds, all, ids);
  }

  // ---- the figures disagree on a supervisor's invoice

  const SUPERVISED := [Entry("c", Some("o"), INVOICE_SHORTFALL, 10_000, 0, Some(SUPERVISOR))]

  lemma SupervisedRows()
    ensures Shortfalls(SUPERVISED, true) == [] && Shortfalls(SUPERVISED, false) == SUPERVISED
    ensures OpenOf(SUPERVISED, "c") == 10_000 && PaidOn(SUPERVISED, "o") == 0
    ensures OneCustomerPerOrder(SUPERVISED) && NonNegativeShortfalls(SUPERVISED)
  {
    assert SUPERVISED[..0] == [];
  }

  /** One dinar a supervisor left unpaid: a dinar on the dashboard, nothing on the unpaid list. */
  lemma SupervisedDebtIsUnlisted(field: seq<OpenOrder>, fieldIds: seq<string>, all: seq<OpenOrder>, ids: seq<string>)
    requires Groups(field, Shortfalls(SUPERVISED, true)) && AreCustomers(field, fieldIds)
    requires Groups(all, Shortfalls(SUPERVISED, false)) && AreCustomers(all, ids)
    ensures ListedAll(SUPERVISED, all, ids) == 10_000 && ListedAll(SUPERVISED, field, fieldIds) == 0
  {
    hide Shortfalls, Listed, OpenOf, PaidOn, Nets;
    SupervisedRows();
    NothingGrouped(field);
    assert |fieldIds| == 0 by { NobodyOwes(fieldIds); }
    OneSupervisedOrder(all);
    assert all[0].customerId == "c" && "c" in ids;
    assert forall c :: c in ids ==> c == "c";
    assert |ids| == 1 && ids == ["c"] by { OneName(ids, "c"); }
    assert ids[..0] == [];
    SupervisedListed(all);
  }

  lemma OneName(ids: seq<string>, x: string)
    requires Distinct(ids) && x in ids && forall id :: id in ids ==> id == x
    ensures ids == [x]
  {
    forall i | 0 <= i < |ids| ensures ids[i] == x { assert ids[i] in ids; }
    if |ids| >= 2 {
      TwoNames(ids);
      assert false;
    }
  }

  lemma TwoNames(ids: seq<string>)
    requires |ids| >= 2
    ensures ids[0] != ids[1] || !Distinct(ids)
  {
  }

  /** No rows, no orders. */
  lemma NothingGrouped(orders: seq<OpenOrder>)
    requires Groups(orders, [])
    ensures orders == []
  {
    hide ShortfallOn;
    if |orders| > 0 {
      NoneDescribed(orders[0]);
      assert false;
    }
  }

  lemma NoneDescribed(o: OpenOrder)
    ensures !Described(o, [], 0)
  {
  }

  /** No orders, no customers. */
  lemma NobodyOwes(ids: seq<string>)
    requires AreCustomers([], ids)
    ensures ids == []
  {
    if |ids| > 0 {
      FirstIsMember(ids);
      assert false;
    }
  }

  lemma FirstIsMember(ids: seq<string>)
    requires |ids| > 0
    ensures exists id :: id in ids
  {
    assert ids[0] in ids;
  }

  lemma OneSupervisedOrder(all: seq<OpenOrder>)
    requires Groups(all, SUPERVISED)
    ensures all == [OpenOrder("o", "c", 10_000, 0, Some(SUPERVISOR))]
  {
    hide ShortfallOn;
    assert HasOrder(all, SUPERVISED[0].orderId.value);
    forall i | 0 <= i < |all| ensures Describes(all[i], SUPERVISED[0]) {
      assert Described(all[i], SUPERVISED, 1);
    }
    assert |all| < 2 by { OneIdOneOrder(all, "o"); }
    assert ShortfallOn(SUPERVISED, 1, "o") == 10_000 by { SupervisedShortfall(); }
  }

  lemma OneIdOneOrder(orders: seq<OpenOrder>, id: string)
    requires DistinctOrders(orders) && forall i :: 0 <= i < |orders| ==> orders[i].orderId == id
    ensures |orders| < 2
  {
    if |orders| >= 2 {
      FirstTwo(orders);
      assert false;
    }
  }

  lemma FirstTwo(orders: seq<OpenOrder>)
    requires |orders| >= 2
    ensures (orders[0].orderId != orders[1].orderId) || !DistinctOrders(orders)
  {
  }

  lemma SupervisedShortfall()
    ensures ShortfallOn(SUPERVISED, 1, "o") == 10_000
  {
    assert ShortfallOn(SUPERVISED, 0, "o") == 0;
  }

  lemma SupervisedListed(all: seq<OpenOrder>)
    requires all == [OpenOrder("o", "c", 10_000, 0, Some(SUPERVISOR))]
    ensures Listed(SUPERVISED, all, "c") == 10_000
  {
    hide OpenOf, PaidOn, Queue, Nets, SumMinor;
    SupervisedRows();
    SupervisedQueue(all);
    assert Nets(SUPERVISED, all) == [10_000] by { SupervisedNets(all); }
    OneAmount(10_000);
  }

  lemma OneAmount(x: int)
    ensures SumMinor([x]) == x
  {
    assert [x][..0] == [];
  }

  lemma SupervisedQueue(all: seq<OpenOrder>)
    requires all == [OpenOrder("o", "c", 10_000, 0, Some(SUPERVISOR))]
    ensures Queue(all, "c") == all
  {
    assert all[..0] == [];
    assert OrdersOf(all[..0], "c") == [] && SortByTime(all[..0]) == [];
    assert OrdersOf(all, "c") == [] + [all[0]];
    assert InsertByTime([], all[0]) == [] + [all[0]];
    assert SortByTime(all) == InsertByTime(SortByTime(all[..0]), all[0]);
  }

  lemma SupervisedNets(all: seq<OpenOrder>)
    requires all == [OpenOrder("o", "c", 10_000, 0, Some(SUPERVISOR))]
    ensures Nets(SUPERVISED, all) == [10_000]
  {
    hide PaidOn;
    SupervisedRows();
  }
}
