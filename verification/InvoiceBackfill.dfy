/**
 * The issuance backfill: a cursor-paged walk over the orders that writes one balanced journal entry
 * per eligible order, under a unique reference other writers may take first.
 */
module InvoiceBackfill {
  import opened Wrappers
  import opened KeyedSums
  import opened UniqueRefs

  datatype OrderStatus = CANCELED | LIVE(stage: string)

  /** Totals are in units of 0.0001 KD. */
  datatype Order = Order(id: string, customerId: Option<string>, totalPrice: int, status: OrderStatus)

  datatype Account = Account(id: string, code: string, isActive: bool)

  datatype Line = Line(accountId: string, debit: int, credit: int)

  datatype Posting = Posting(source: string, customerId: Option<string>, orderId: Option<string>, lines: seq<Line>)

  type Entry = Keyed<Posting>

  const PREFIX := "JOURNAL:INVOICE_ISSUED:"

  function SourceRef(orderId: string): string {
    PREFIX + orderId
  }

  lemma SourceRefInjective(a: string, b: string)
    requires SourceRef(a) == SourceRef(b)
    ensures a == b
  {
    assert SourceRef(a)[|PREFIX|..] == a;
    assert SourceRef(b)[|PREFIX|..] == b;
  }

  // ---- the order query

  /** The row filter of the query. */
  predicate Selected(o: Order, customer: Option<string>) {
    o.status != CANCELED && (!Named(customer) || o.customerId == customer)
  }

  function Matching(orders: seq<Order>, customer: Option<string>): seq<Order> {
    if orders == [] then []
    else
      var o := orders[|orders| - 1];
      Matching(orders[..|orders| - 1], customer) + if Selected(o, customer) then [o] else []
  }

  /** Ids ascend in the collation of the database and are never empty. */
  ghost predicate Ascending(orders: seq<Order>, rank: string -> int) {
    && (forall i, j :: 0 <= i < j < |orders| ==> rank(orders[i].id) < rank(orders[j].id))
    && (forall i :: 0 <= i < |orders| ==> orders[i].id != "")
  }

  /** The matching rows are the selected ones, still in id order, each once. */
  lemma {:induction false} MatchingIsTheSelection(orders: seq<Order>, rank: string -> int, customer: Option<string>)
    requires Ascending(orders, rank)
    ensures Ascending(Matching(orders, customer), rank)
    ensures forall o :: o in Matching(orders, customer) <==> o in orders && Selected(o, customer)
  {
    if orders != [] {
      var n := |orders| - 1;
      assert orders == orders[..n] + [orders[n]];
      MatchingIsTheSelection(orders[..n], rank, customer);
      var m := Matching(orders[..n], customer);
      forall i | 0 <= i < |m| ensures rank(m[i].id) < rank(orders[n].id) {
        assert m[i] in orders[..n];
      }
    }
  }

  /** Rows whose id is not before the key. */
  function NotBefore(rows: seq<Order>, rank: string -> int, key: int): seq<Order> {
    if rows == [] then []
    else
      var o := rows[|rows| - 1];
      NotBefore(rows[..|rows| - 1], rank, key) + if rank(o.id) >= key then [o] else []
  }

  function Take(rows: seq<Order>, n: nat): seq<Order> {
    if |rows| <= n then rows else rows[..n]
  }

  /** One page: start at the cursor row when there is one, step over it, take at most pageSize rows. */
  function FindMany(orders: seq<Order>, rank: string -> int, customer: Option<string>, cursor: Option<string>, pageSize: nat)
    : seq<Order>
  {
    var rows := Matching(orders, customer);
    if Named(cursor) then
      var from := NotBefore(rows, rank, rank(cursor.value));
      Take(if from == [] then [] else from[1..], pageSize)
    else
      Take(rows, pageSize)
  }

  lemma {:induction false} NotBeforeIsSuffix(rows: seq<Order>, rank: string -> int, k: nat)
    requires Ascending(rows, rank) && k < |rows|
    ensures NotBefore(rows, rank, rank(rows[k].id)) == rows[k..]
  {
    var n := |rows| - 1;
    if k < n {
      NotBeforeIsSuffix(rows[..n], rank, k);
      assert rows[k..] == rows[..n][k..] + [rows[n]];
    } else {
      NothingNotBefore(rows[..n], rank, rank(rows[n].id));
    }
  }

  lemma {:induction false} NothingNotBefore(rows: seq<Order>, rank: string -> int, key: int)
    requires forall i :: 0 <= i < |rows| ==> rank(rows[i].id) < key
    ensures NotBefore(rows, rank, key) == []
  {
    if rows != [] { NothingNotBefore(rows[..|rows| - 1], rank, key); }
  }

  /** Where the walk stands after the first k rows. */
  function CursorAt(rows: seq<Order>, k: nat): Option<string>
    requires k <= |rows|
  {
    if k == 0 then None else Some(rows[k - 1].id)
  }

  /** The page after the first k rows continues exactly there. */
  lemma PageContinues(orders: seq<Order>, rank: string -> int, customer: Option<string>, k: nat, pageSize: nat)
    requires Ascending(orders, rank) && k <= |Matching(orders, customer)|
    ensures
      var rows := Matching(orders, customer);
      FindMany(orders, rank, customer, CursorAt(rows, k), pageSize) == Take(rows[k..], pageSize)
  {
    var rows := Matching(orders, customer);
    MatchingIsTheSelection(orders, rank, customer);
    if k > 0 {
      NotBeforeIsSuffix(rows, rank, k - 1);
      assert rows[k - 1..][1..] == rows[k..];
    } else {
      assert rows[0..] == rows;
    }
  }

  // ---- the journal

  /** The id a code maps to once all active accounts are in the map. */
  function AccountByCode(accounts: seq<Account>, code: string): Option<string> {
    if accounts == [] then None
    else
      var a := accounts[|accounts| - 1];
      if a.isActive && a.code == code then Some(a.id) else AccountByCode(accounts[..|accounts| - 1], code)
  }

  /** The world around the i-th order: what others insert, the accounts found, and failing writes. */
  datatype Env = Env(
    beforeCheck: nat -> seq<Entry>, beforeInsert: nat -> seq<Entry>, accounts: nat -> seq<Account>, fails: nat -> bool)

  predicate Seeded(accounts: seq<Account>) {
    Named(AccountByCode(accounts, "1300")) && Named(AccountByCode(accounts, "4100"))
  }

  ghost predicate Quiet(env: Env) {
    forall i :: env.beforeCheck(i) == [] && env.beforeInsert(i) == [] && Seeded(env.accounts(i)) && !env.fails(i)
  }

  datatype Counts = Counts(created: nat, duplicates: nat, skipped: nat, failed: nat)

  /** The journal, the entries this run created, and the counters. */
  datatype Run = Run(journal: seq<Entry>, made: seq<Entry>, counts: Counts)

  predicate Eligible(o: Order) {
    Named(o.customerId) && o.totalPrice > 0
  }

  function Issuance(o: Order, arId: string, revenueId: string): Entry {
    Keyed(SourceRef(o.id), Posting(
      "INVOICE_ISSUED", o.customerId, Some(o.id), [Line(arId, o.totalPrice, 0), Line(revenueId, 0, o.totalPrice)]))
  }

  /** Insert unless an account is missing, the reference was taken meanwhile, or the write fails. */
  function Create(r: Run, o: Order, env: Env, i: nat): Run {
    var ar, revenue := AccountByCode(env.accounts(i), "1300"), AccountByCode(env.accounts(i), "4100");
    if !Named(ar) || !Named(revenue) then r.(counts := r.counts.(failed := r.counts.failed + 1))
    else
      var raced := Others(r.journal, env.beforeInsert(i));
      if HasRef(raced, SourceRef(o.id)) then
        r.(journal := raced, counts := r.counts.(duplicates := r.counts.duplicates + 1))
      else if env.fails(i) then
        r.(journal := raced, counts := r.counts.(failed := r.counts.failed + 1))
      else
        var e := Issuance(o, ar.value, revenue.value);
        Run(raced + [e], r.made + [e], r.counts.(created := r.counts.created + 1))
  }

  function Step(r: Run, o: Order, apply: bool, env: Env, i: nat): Run {
    var journal := Others(r.journal, env.beforeCheck(i));
    var s := r.(journal := journal);
    if !Eligible(o) then s.(counts := s.counts.(skipped := s.counts.skipped + 1))
    else if HasRef(journal, SourceRef(o.id)) then s.(counts := s.counts.(duplicates := s.counts.duplicates + 1))
    else if !apply then s.(counts := s.counts.(created := s.counts.created + 1))
    else Create(s, o, env, i)
  }

  /** The plain scan: one step per row. */
  function Scan(journal: seq<Entry>, rows: seq<Order>, apply: bool, env: Env): Run {
    if rows == [] then Run(journal, [], Counts(0, 0, 0, 0))
    else
      var n := |rows| - 1;
      Step(Scan(journal, rows[..n], apply, env), rows[n], apply, env, n)
  }

  lemma ScanSnoc(journal: seq<Entry>, rows: seq<Order>, k: nat, apply: bool, env: Env)
    requires k < |rows|
    ensures Scan(journal, rows[..k + 1], apply, env) == Step(Scan(journal, rows[..k], apply, env), rows[k], apply, env, k)
  {
    assert rows[..k + 1][..k] == rows[..k];
  }

  /**
   * The walk, page by page. Whatever the page size, it ends and does what a plain scan over the
   * matching rows does.
   */
  method Backfill(
      orders: seq<Order>, rank: string -> int, pageSize: nat, customer: Option<string>, apply: bool,
      journal0: seq<Entry>, env: Env)
    returns (journal: seq<Entry>, made: seq<Entry>, counts: Counts, visited: seq<string>)
    requires pageSize > 0 && Ascending(orders, rank)
    ensures Run(journal, made, counts) == Scan(journal0, Matching(orders, customer), apply, env)
    ensures |visited| == |Matching(orders, customer)|
    ensures forall k :: 0 <= k < |visited| ==> visited[k] == Matching(orders, customer)[k].id
  {
    hide Matching, FindMany, Others, HasRef, AccountByCode, Scan, SourceRef, Ascending;
    ghost var rows := Matching(orders, customer);
    var created, duplicates, skipped, failed := 0, 0, 0, 0;
    journal, made, visited := journal0, [], [];
    var cursor := None;
    EmptyScan(journal0, rows, apply, env);
    while true
      invariant |visited| <= |rows| && cursor == CursorAt(rows, |visited|)
      invariant forall k :: 0 <= k < |visited| ==> visited[k] == rows[k].id
      invariant Run(journal, made, Counts(created, duplicates, skipped, failed)) ==
        Scan(journal0, rows[..|visited|], apply, env)
      decreases |rows| - |visited|
    {
      ghost var done := |visited|;
      PageContinues(orders, rank, customer, done, pageSize);
      var page := FindMany(orders, rank, customer, cursor, pageSize);
      if |page| == 0 {
        break;
      }
      cursor := Some(page[|page| - 1].id);
      var j := 0;
      while j < |page|
        invariant 0 <= j <= |page| && |visited| == done + j
        invariant forall k :: 0 <= k < |visited| ==> visited[k] == rows[k].id
        invariant Run(journal, made, Counts(created, duplicates, skipped, failed)) ==
          Scan(journal0, rows[..|visited|], apply, env)
      {
        var o, i := page[j], |visited|;
        assert o == rows[i];
        ScanSnoc(journal0, rows, i, apply, env);
        journal := Others(journal, env.beforeCheck(i));
        if !Named(o.customerId) {
          skipped := skipped + 1;
        } else if o.totalPrice <= 0 {
          skipped := skipped + 1;
        } else if HasRef(journal, SourceRef(o.id)) {
          duplicates := duplicates + 1;
        } else if !apply {
          created := created + 1;
        } else {
          var ar, revenue := AccountByCode(env.accounts(i), "1300"), AccountByCode(env.accounts(i), "4100");
          if !Named(ar) || !Named(revenue) {
            failed := failed + 1;
          } else {
            journal := Others(journal, env.beforeInsert(i));
            if HasRef(journal, SourceRef(o.id)) {
              duplicates := duplicates + 1;
            } else if env.fails(i) {
              failed := failed + 1;
            } else {
              var entry := Issuance(o, ar.value, revenue.value);
              journal, made := journal + [entry], made + [entry];
              created := created + 1;
            }
          }
        }
        visited := visited + [o.id];
        j := j + 1;
      }
    }
    assert rows[..|visited|] == rows;
    counts := Counts(created, duplicates, skipped, failed);
  }

  lemma EmptyScan(journal: seq<Entry>, rows: seq<Order>, apply: bool, env: Env)
    ensures Scan(journal, rows[..0], apply, env) == Run(journal, [], Counts(0, 0, 0, 0))
  {
  }

  // ---- what a run guarantees

  lemma StepKeeps(r: Run, o: Order, apply: bool, env: Env, i: nat)
    requires Unique(r.journal)
    ensures
      var s := Step(r, o, apply, env, i);
      && Unique(s.journal) && r.journal <= s.journal
      && (apply && Eligible(o) && s.counts.failed == r.counts.failed ==> HasRef(s.journal, SourceRef(o.id)))
      && s.counts.created + s.counts.duplicates + s.counts.skipped + s.counts.failed
         == r.counts.created + r.counts.duplicates + r.counts.skipped + r.counts.failed + 1
      && s.counts.failed >= r.counts.failed
      && s.counts.skipped == r.counts.skipped + (if Eligible(o) then 0 else 1)
      && (apply ==> s.counts.failed == r.counts.failed + if Eligible(o) && !HasRef(s.journal, SourceRef(o.id)) then 1 else 0)
      && (!apply ==> s.counts.failed == r.counts.failed
                     && (s.counts.created == r.counts.created + if Eligible(o) && !HasRef(s.journal, SourceRef(o.id)) then 1 else 0))
  {
    hide SourceRef, Others, AccountByCode;
    var seen := Others(r.journal, env.beforeCheck(i));
    OthersKeep(r.journal, env.beforeCheck(i));
    OthersKeep(seen, env.beforeInsert(i));
    var s := Step(r, o, apply, env, i);
    if s.made != r.made {
      assert s.journal[|s.journal| - 1].sourceRef == SourceRef(o.id);
    }
  }

  /** Entries are only added, references stay unique, and every visited order is counted once. */
  lemma {:induction false} ScanKeeps(journal: seq<Entry>, rows: seq<Order>, apply: bool, env: Env)
    requires Unique(journal)
    ensures
      var r := Scan(journal, rows, apply, env);
      && Unique(r.journal) && journal <= r.journal
      && r.counts.created + r.counts.duplicates + r.counts.skipped + r.counts.failed == |rows|
  {
    hide Step;
    if rows != [] {
      var n := |rows| - 1;
      ScanKeeps(journal, rows[..n], apply, env);
      StepKeeps(Scan(journal, rows[..n], apply, env), rows[n], apply, env, n);
    }
  }

  /** After an apply without failures every eligible order has its entry, and by the unique index only one. */
  lemma {:induction false} EveryOrderIsIssued(journal: seq<Entry>, rows: seq<Order>, env: Env, k: nat)
    requires Unique(journal) && Scan(journal, rows, true, env).counts.failed == 0
    requires k < |rows| && Eligible(rows[k])
    ensures HasRef(Scan(journal, rows, true, env).journal, SourceRef(rows[k].id))
    ensures Unique(Scan(journal, rows, true, env).journal)
  {
    hide Step, SourceRef;
    var n := |rows| - 1;
    var r := Scan(journal, rows[..n], true, env);
    ScanKeeps(journal, rows[..n], true, env);
    StepKeeps(r, rows[n], true, env, n);
    if k < n {
      EveryOrderIsIssued(journal, rows[..n], env, k);
      RefStays(r.journal, Scan(journal, rows, true, env).journal, SourceRef(rows[k].id));
    }
  }

  function Debits(lines: seq<Line>): int {
    if lines == [] then 0 else Debits(lines[..|lines| - 1]) + lines[|lines| - 1].debit
  }

  function Credits(lines: seq<Line>): int {
    if lines == [] then 0 else Credits(lines[..|lines| - 1]) + lines[|lines| - 1].credit
  }

  /** A positive amount, debited to the one side and credited to the other. */
  ghost predicate IssuesInBalance(e: Entry, o: Order) {
    && e.sourceRef == SourceRef(o.id) && e.row.customerId == o.customerId && e.row.orderId == Some(o.id)
    && Debits(e.row.lines) == Credits(e.row.lines) == o.totalPrice > 0
  }

  lemma IssuanceBalances(o: Order, arId: string, revenueId: string)
    requires Eligible(o)
    ensures IssuesInBalance(Issuance(o, arId, revenueId), o)
  {
    var ls := Issuance(o, arId, revenueId).row.lines;
    var one := [ls[0]];
    assert one[..0] == [] && ls[..1] == one;
    assert Debits(one) == ls[0].debit && Credits(one) == ls[0].credit;
    assert ls[1] == Line(revenueId, 0, o.totalPrice);
  }

  /** Every entry the run creates balances and belongs to one of the visited eligible orders. */
  lemma {:induction false} MadeEntriesBalance(journal: seq<Entry>, rows: seq<Order>, apply: bool, env: Env)
    ensures
      var r := Scan(journal, rows, apply, env);
      && |r.made| == (if apply then r.counts.created else 0)
      && forall e :: e in r.made ==> exists k :: 0 <= k < |rows| && Eligible(rows[k]) && IssuesInBalance(e, rows[k])
  {
    hide IssuesInBalance, Others, HasRef, SourceRef, AccountByCode, Issuance;
    if rows != [] {
      var n := |rows| - 1;
      MadeEntriesBalance(journal, rows[..n], apply, env);
      var p, r := Scan(journal, rows[..n], apply, env), Scan(journal, rows, apply, env);
      forall e | e in r.made ensures exists k :: 0 <= k < |rows| && Eligible(rows[k]) && IssuesInBalance(e, rows[k]) {
        if e in p.made {
          var k :| 0 <= k < n && Eligible(rows[..n][k]) && IssuesInBalance(e, rows[..n][k]);
          assert IssuesInBalance(e, rows[k]);
        } else {
          var a, b := AccountByCode(env.accounts(n), "1300"), AccountByCode(env.accounts(n), "4100");
          assert e == Issuance(rows[n], a.value, b.value);
          IssuanceBalances(rows[n], a.value, b.value);
        }
      }
    }
  }

  /** With nobody else writing, the journal grows by exactly the entries the run made. */
  lemma {:induction false} QuietGrowth(journal: seq<Entry>, rows: seq<Order>, apply: bool, env: Env)
    requires Quiet(env)
    ensures Scan(journal, rows, apply, env).journal == journal + Scan(journal, rows, apply, env).made
  {
    hide HasRef, SourceRef, AccountByCode, Issuance;
    if rows != [] {
      var n := |rows| - 1;
      QuietGrowth(journal, rows[..n], apply, env);
      assert env.beforeCheck(n) == [] && env.beforeInsert(n) == [];
    }
  }

  /** A run over a journal that holds every eligible order creates nothing and fails nowhere. */
  lemma {:induction false} RerunCreatesNothing(journal: seq<Entry>, rows: seq<Order>, apply: bool, env: Env)
    requires Unique(journal)
    requires forall k :: 0 <= k < |rows| && Eligible(rows[k]) ==> HasRef(journal, SourceRef(rows[k].id))
    ensures
      var r := Scan(journal, rows, apply, env);
      r.made == [] && r.counts.created == 0 && r.counts.failed == 0
  {
    hide SourceRef, HasRef, Others, AccountByCode, Create;
    if rows != [] {
      var n := |rows| - 1;
      forall k | 0 <= k < n && Eligible(rows[..n][k]) ensures HasRef(journal, SourceRef(rows[..n][k].id)) {
        assert rows[..n][k] == rows[k];
      }
      RerunCreatesNothing(journal, rows[..n], apply, env);
      ScanKeeps(journal, rows[..n], apply, env);
      var r := Scan(journal, rows[..n], apply, env);
      OthersKeep(r.journal, env.beforeCheck(n));
      if Eligible(rows[n]) {
        RefStays(journal, Others(r.journal, env.beforeCheck(n)), SourceRef(rows[n].id));
      }
    }
  }

  ghost predicate DistinctIds(rows: seq<Order>) {
    forall i, j :: 0 <= i < j < |rows| ==> rows[i].id != rows[j].id
  }

  /**
   * The dry run predicts the apply: with nobody else writing and the accounts in place, both count
   * the same orders as created, duplicate, skipped and failed.
   */
  lemma {:induction false} DryRunPredicts(journal: seq<Entry>, rows: seq<Order>, dry: Env, wet: Env)
    requires Quiet(dry) && Quiet(wet) && DistinctIds(rows)
    ensures Scan(journal, rows, false, dry).counts == Scan(journal, rows, true, wet).counts
    ensures forall ref :: HasRef(Scan(journal, rows, true, wet).journal, ref) ==> HasRef(journal, ref) || RefAmong(rows, ref)
    ensures forall ref :: HasRef(journal, ref) ==> HasRef(Scan(journal, rows, true, wet).journal, ref)
  {
    hide SourceRef, AccountByCode, HasRef, Others, RefAmong, Scan, Step;
    if rows == [] {
      EmptyScans(journal, dry, wet);
    } else {
      var n := |rows| - 1;
      DryRunPredicts(journal, rows[..n], dry, wet);
      DryScanKeeps(journal, rows[..n], dry);
      assert rows[..|rows|] == rows;
      ScanSnoc(journal, rows, n, false, dry);
      ScanSnoc(journal, rows, n, true, wet);
      NotAmongEarlier(rows);
      RefsGrow(rows);
      QuietSteps(Scan(journal, rows[..n], false, dry), Scan(journal, rows[..n], true, wet), rows[n], dry, wet, n);
    }
  }

  lemma EmptyScans(journal: seq<Entry>, dry: Env, wet: Env)
    ensures Scan(journal, [], false, dry) == Scan(journal, [], true, wet) == Run(journal, [], Counts(0, 0, 0, 0))
  {
  }

  ghost predicate RefAmong(rows: seq<Order>, ref: string) {
    exists k :: 0 <= k < |rows| && SourceRef(rows[k].id) == ref
  }

  lemma NotAmongEarlier(rows: seq<Order>)
    requires rows != [] && DistinctIds(rows)
    ensures !RefAmong(rows[..|rows| - 1], SourceRef(rows[|rows| - 1].id))
  {
    hide SourceRef;
    var n := |rows| - 1;
    if RefAmong(rows[..n], SourceRef(rows[n].id)) {
      var k :| 0 <= k < n && SourceRef(rows[..n][k].id) == SourceRef(rows[n].id);
      SourceRefInjective(rows[k].id, rows[n].id);
    }
  }

  lemma RefsGrow(rows: seq<Order>)
    requires rows != []
    ensures forall ref :: RefAmong(rows[..|rows| - 1], ref) ==> RefAmong(rows, ref)
    ensures RefAmong(rows, SourceRef(rows[|rows| - 1].id))
  {
    hide SourceRef;
    var n := |rows| - 1;
    forall ref | RefAmong(rows[..n], ref) ensures RefAmong(rows, ref) {
      var k :| 0 <= k < n && SourceRef(rows[..n][k].id) == ref;
      assert SourceRef(rows[k].id) == ref;
    }
    assert SourceRef(rows[n].id) == SourceRef(rows[n].id);
  }

  lemma {:induction false} DryScanKeeps(journal: seq<Entry>, rows: seq<Order>, env: Env)
    requires Quiet(env)
    ensures Scan(journal, rows, false, env).journal == journal
  {
    hide HasRef, SourceRef;
    if rows != [] {
      DryScanKeeps(journal, rows[..|rows| - 1], env);
      assert env.beforeCheck(|rows| - 1) == [];
    }
  }

  /** One quiet step, dry and wet, from states that agree on the counters and on this order's reference. */
  lemma QuietSteps(d: Run, w: Run, o: Order, dry: Env, wet: Env, i: nat)
    requires Quiet(dry) && Quiet(wet) && d.counts == w.counts
    requires HasRef(d.journal, SourceRef(o.id)) <==> HasRef(w.journal, SourceRef(o.id))
    ensures Step(d, o, false, dry, i).counts == Step(w, o, true, wet, i).counts
    ensures forall ref :: HasRef(w.journal, ref) ==> HasRef(Step(w, o, true, wet, i).journal, ref)
    ensures forall ref :: HasRef(Step(w, o, true, wet, i).journal, ref) ==> HasRef(w.journal, ref) || ref == SourceRef(o.id)
  {
    hide SourceRef, AccountByCode, HasRef;
    assert dry.beforeCheck(i) == [] && !dry.fails(i);
    assert wet.beforeCheck(i) == [] && wet.beforeInsert(i) == [] && Seeded(wet.accounts(i)) && !wet.fails(i);
    var s := Step(w, o, true, wet, i);
    if s.made != w.made {
      assert s.journal == w.journal + [s.journal[|w.journal|]];
      RefAfterAppend(w.journal, s.journal[|w.journal|]);
    }
  }

  /** Apply twice, with any page sizes: if the first run fails nowhere, the second creates nothing. */
  method BackfillTwice(
      orders: seq<Order>, rank: string -> int, pageSize: nat, again: nat, customer: Option<string>,
      journal0: seq<Entry>, first: Env, second: Env)
    returns (a: Counts, b: Counts, journal: seq<Entry>)
    requires pageSize > 0 && again > 0 && Ascending(orders, rank) && Unique(journal0)
    ensures a.failed == 0 ==> b.created == 0 && b.failed == 0
    ensures a.failed == 0 ==>
      forall o :: o in orders && Selected(o, customer) && Eligible(o) ==> HasRef(journal, SourceRef(o.id))
    ensures a.failed == 0 && Quiet(second) ==> journal == Scan(journal0, Matching(orders, customer), true, first).journal
    ensures Unique(journal) && journal0 <= journal
  {
    hide *;
    var rows := Matching(orders, customer);
    var mid, made, visited;
    mid, made, a, visited := Backfill(orders, rank, pageSize, customer, true, journal0, first);
    journal, made, b, visited := Backfill(orders, rank, again, customer, true, mid, second);
    ScanKeeps(journal0, rows, true, first);
    ScanKeeps(mid, rows, true, second);
    if a.failed == 0 {
      forall k | 0 <= k < |rows| && Eligible(rows[k]) ensures HasRef(mid, SourceRef(rows[k].id)) {
        EveryOrderIsIssued(journal0, rows, first, k);
      }
      RerunCreatesNothing(mid, rows, true, second);
      MatchingIsTheSelection(orders, rank, customer);
      forall o | o in orders && Selected(o, customer) && Eligible(o) ensures HasRef(journal, SourceRef(o.id)) {
        assert o in rows;
        var k :| 0 <= k < |rows| && rows[k] == o;
        assert HasRef(mid, SourceRef(rows[k].id));
        RefStays(mid, journal, SourceRef(o.id));
      }
      if Quiet(second) {
        QuietGrowth(mid, rows, true, second);
        assert mid + [] == mid;
      }
    }
  }
}
