/**
 * What the issuance backfill posts: the receivable of each customer grows by the orders issued, revenue
 * takes the other side, and no third account moves.
 */
module IssuancePosting {
  import opened Wrappers
  import opened KeyedSums
  import opened UniqueRefs
  import opened InvoiceBackfill

  // ---- the accounts

  /** The id is that of an active account of the code, the last one of several. */
  ghost predicate IsAccount(accounts: seq<Account>, code: string, id: string) {
    exists k :: 0 <= k < |accounts| && accounts[k] == Account(id, code, true)
      && forall j :: k < j < |accounts| ==> !(accounts[j].isActive && accounts[j].code == code)
  }

  ghost predicate NoAccount(accounts: seq<Account>, code: string) {
    forall a :: a in accounts ==> !(a.isActive && a.code == code)
  }

  /** The look-up finds an active account of the code, and nothing exactly when there is none. */
  lemma {:induction false} AccountFound(accounts: seq<Account>, code: string)
    ensures match AccountByCode(accounts, code)
      case Some(id) => IsAccount(accounts, code, id)
      case None => NoAccount(accounts, code)
  {
    if accounts != [] {
      var n := |accounts| - 1;
      var init, a := accounts[..n], accounts[n];
      assert accounts == init + [a];
      if a.isActive && a.code == code {
        assert accounts[n] == Account(a.id, code, true);
      } else {
        AccountFound(init, code);
        if AccountByCode(init, code).Some? {
          var id := AccountByCode(init, code).value;
          var k :| 0 <= k < n && init[k] == Account(id, code, true) &&
            forall j :: k < j < n ==> !(init[j].isActive && init[j].code == code);
          assert accounts[k] == Account(id, code, true);
          assert forall j :: k < j < n ==> accounts[j] == init[j];
        }
      }
    }
  }

  lemma OneAccountOfCode(accounts: seq<Account>, code: string, x: string, y: string)
    requires IsAccount(accounts, code, x) && IsAccount(accounts, code, y)
    ensures x == y && !NoAccount(accounts, code)
  {
    var k :| 0 <= k < |accounts| && accounts[k] == Account(x, code, true) &&
      forall j :: k < j < |accounts| ==> !(accounts[j].isActive && accounts[j].code == code);
    var l :| 0 <= l < |accounts| && accounts[l] == Account(y, code, true) &&
      forall j :: l < j < |accounts| ==> !(accounts[j].isActive && accounts[j].code == code);
    assert k == l;
    assert accounts[k] in accounts;
  }

  // ---- one entry

  /** What the lines add to an account: debits minus credits. */
  function Moved(lines: seq<Line>, account: string): int {
    if lines == [] then 0
    else
      var l := lines[|lines| - 1];
      Moved(lines[..|lines| - 1], account) + if l.accountId == account then l.debit - l.credit else 0
  }

  /** The entry is the issuance of the order: its total to the receivable, its total from revenue, nothing else. */
  ghost predicate Posts(e: Entry, o: Order, receivable: string, revenue: string) {
    && e.sourceRef == "JOURNAL:INVOICE_ISSUED:" + o.id && e.row.source == "INVOICE_ISSUED"
    && e.row.customerId == o.customerId && e.row.orderId == Some(o.id)
    && forall account :: Moved(e.row.lines, account) ==
         (if account == receivable then o.totalPrice else 0) - (if account == revenue then o.totalPrice else 0)
  }

  lemma IssuancePosts(o: Order, receivable: string, revenue: string)
    ensures Posts(Issuance(o, receivable, revenue), o, receivable, revenue)
  {
    var lines := Issuance(o, receivable, revenue).row.lines;
    assert lines[..1] == [lines[0]] && lines[..1][..0] == [];
    forall account ensures Moved(lines, account) ==
      (if account == receivable then o.totalPrice else 0) - (if account == revenue then o.totalPrice else 0)
    {
      assert Moved(lines[..1], account) == if account == receivable then o.totalPrice else 0;
    }
  }

  /** A customer is named, the total is positive, and the accounts found at that order take the entry. */
  ghost predicate PostsOrder(e: Entry, o: Order, accounts: seq<Account>) {
    && o.customerId != None && o.customerId != Some("") && o.totalPrice > 0
    && exists receivable, revenue :: IsAccount(accounts, "1300", receivable) && IsAccount(accounts, "4100", revenue)
         && Posts(e, o, receivable, revenue)
  }

  /** Every entry the run creates is the issuance of one visited order. */
  lemma {:induction false} MadeEntriesPost(journal: seq<Entry>, rows: seq<Order>, apply: bool, env: Env)
    ensures forall e :: e in Scan(journal, rows, apply, env).made ==>
      exists k :: 0 <= k < |rows| && PostsOrder(e, rows[k], env.accounts(k))
  {
    hide PostsOrder, Others, HasRef, SourceRef, AccountByCode, Issuance;
    if rows != [] {
      var n := |rows| - 1;
      MadeEntriesPost(journal, rows[..n], apply, env);
      var p, r := Scan(journal, rows[..n], apply, env), Scan(journal, rows, apply, env);
      forall e | e in r.made ensures exists k :: 0 <= k < |rows| && PostsOrder(e, rows[k], env.accounts(k)) {
        if e in p.made {
          var k :| 0 <= k < n && PostsOrder(e, rows[..n][k], env.accounts(k));
          assert PostsOrder(e, rows[k], env.accounts(k));
        } else {
          var a, b := AccountByCode(env.accounts(n), "1300"), AccountByCode(env.accounts(n), "4100");
          assert e == Issuance(rows[n], a.value, b.value);
          CreatedPosts(rows[n], env.accounts(n));
          assert PostsOrder(e, rows[n], env.accounts(n));
        }
      }
    }
  }

  lemma CreatedPosts(o: Order, accounts: seq<Account>)
    requires Eligible(o) && Seeded(accounts)
    ensures PostsOrder(Issuance(o, AccountByCode(accounts, "1300").value, AccountByCode(accounts, "4100").value), o, accounts)
  {
    hide AccountByCode, Issuance, Posts, IsAccount;
    AccountFound(accounts, "1300");
    AccountFound(accounts, "4100");
    IssuancePosts(o, AccountByCode(accounts, "1300").value, AccountByCode(accounts, "4100").value);
  }

  // ---- a whole run

  /** The balance of an account over the entries of one customer. */
  function BalanceOf(journal: seq<Entry>, customer: string, account: string): int {
    if journal == [] then 0
    else
      var e := journal[|journal| - 1];
      BalanceOf(journal[..|journal| - 1], customer, account) +
      if e.row.customerId == Some(customer) then Moved(e.row.lines, account) else 0
  }

  lemma BalanceSnoc(journal: seq<Entry>, e: Entry, customer: string, account: string)
    ensures BalanceOf(journal + [e], customer, account) ==
      BalanceOf(journal, customer, account) + if e.row.customerId == Some(customer) then Moved(e.row.lines, account) else 0
  {
    assert (journal + [e])[..|journal|] == journal;
  }

  /** The order is to be issued: not canceled, of the filtered customer, of this one, positive, and not in the journal. */
  predicate ToIssue(journal: seq<Entry>, o: Order, filter: Option<string>, customer: string) {
    && o.status != CANCELED && (filter == None || filter == Some("") || filter == o.customerId)
    && o.customerId == Some(customer) && customer != "" && o.totalPrice > 0
    && forall e :: e in journal ==> e.sourceRef != "JOURNAL:INVOICE_ISSUED:" + o.id
  }

  /** What the orders to be issued come to. */
  function IssuedTo(journal: seq<Entry>, orders: seq<Order>, filter: Option<string>, customer: string): int {
    if orders == [] then 0
    else
      var o := orders[|orders| - 1];
      IssuedTo(journal, orders[..|orders| - 1], filter, customer) +
      if ToIssue(journal, o, filter, customer) then o.totalPrice else 0
  }

  /** The seeded accounts are found for every order. */
  ghost predicate Accounts(env: Env, receivable: string, revenue: string) {
    && receivable != "" && revenue != "" && receivable != revenue
    && forall i :: IsAccount(env.accounts(i), "1300", receivable) && IsAccount(env.accounts(i), "4100", revenue)
  }

  /** Nobody else writes and no write fails. */
  ghost predicate Alone(env: Env) {
    forall i :: env.beforeCheck(i) == [] && env.beforeInsert(i) == [] && !env.fails(i)
  }

  lemma AccountsAreFound(env: Env, receivable: string, revenue: string, i: nat)
    requires Accounts(env, receivable, revenue)
    ensures AccountByCode(env.accounts(i), "1300") == Some(receivable)
    ensures AccountByCode(env.accounts(i), "4100") == Some(revenue)
  {
    hide IsAccount, NoAccount, AccountByCode;
    var accounts := env.accounts(i);
    AccountFound(accounts, "1300");
    AccountFound(accounts, "4100");
    OneAccountOfCode(accounts, "1300", receivable, receivable);
    OneAccountOfCode(accounts, "4100", revenue, revenue);
    if AccountByCode(accounts, "1300").Some? { OneAccountOfCode(accounts, "1300", receivable, AccountByCode(accounts, "1300").value); }
    if AccountByCode(accounts, "4100").Some? { OneAccountOfCode(accounts, "4100", revenue, AccountByCode(accounts, "4100").value); }
  }

  lemma AloneIsQuiet(env: Env, receivable: string, revenue: string)
    requires Alone(env) && Accounts(env, receivable, revenue)
    ensures Quiet(env)
  {
    hide AccountByCode, IsAccount;
    forall i: nat ensures Seeded(env.accounts(i)) { AccountsAreFound(env, receivable, revenue, i); }
  }

  lemma RefIsTaken(journal: seq<Entry>, o: Order)
    ensures HasRef(journal, SourceRef(o.id)) <==> exists e :: e in journal && e.sourceRef == "JOURNAL:INVOICE_ISSUED:" + o.id
  {
    if HasRef(journal, SourceRef(o.id)) {
      var i :| 0 <= i < |journal| && journal[i].sourceRef == SourceRef(o.id);
      assert journal[i] in journal;
    }
    if e :| e in journal && e.sourceRef == "JOURNAL:INVOICE_ISSUED:" + o.id {
      var i :| 0 <= i < |journal| && journal[i] == e;
      assert journal[i].sourceRef == SourceRef(o.id);
    }
  }

  /** One step alone: an order not yet in the journal is issued, any other one changes nothing. */
  lemma StepPosts(r: Run, o: Order, env: Env, i: nat, receivable: string, revenue: string)
    requires Alone(env) && Accounts(env, receivable, revenue)
    ensures
      var s := Step(r, o, true, env, i);
      if o.customerId != None && o.customerId != Some("") && o.totalPrice > 0 && !HasRef(r.journal, SourceRef(o.id))
      then s.journal == r.journal + [Issuance(o, receivable, revenue)]
      else s.journal == r.journal
  {
    hide HasRef, SourceRef, AccountByCode, Issuance, Accounts;
    AccountsAreFound(env, receivable, revenue, i);
    AccountsAreNamed(env, receivable, revenue);
    assert env.beforeCheck(i) == [] && env.beforeInsert(i) == [] && !env.fails(i);
  }

  lemma AccountsAreNamed(env: Env, receivable: string, revenue: string)
    requires Accounts(env, receivable, revenue)
    ensures receivable != "" && revenue != "" && receivable != revenue
  {
  }

  /** What an account of a customer gains. */
  function Gain(receivable: string, revenue: string, account: string, amount: int): int {
    if account == receivable then amount else if account == revenue then -amount else 0
  }

  lemma IssuanceMoves(o: Order, receivable: string, revenue: string, account: string)
    requires receivable != revenue
    ensures Moved(Issuance(o, receivable, revenue).row.lines, account) == Gain(receivable, revenue, account, o.totalPrice)
    ensures Issuance(o, receivable, revenue).row.customerId == o.customerId
  {
    hide Issuance, Moved;
    IssuancePosts(o, receivable, revenue);
  }

  /**
   * With nobody else writing, the receivable of a customer grows by exactly the orders issued to that
   * customer, revenue falls by as much, and every other account stays as it was.
   */
  lemma {:induction false} RunPosts(
      journal: seq<Entry>, rows: seq<Order>, env: Env, receivable: string, revenue: string,
      filter: Option<string>, customer: string, account: string)
    requires Alone(env) && Accounts(env, receivable, revenue) && DistinctIds(rows)
    requires forall o :: o in rows ==> Selected(o, filter)
    ensures BalanceOf(Scan(journal, rows, true, env).journal, customer, account) ==
      BalanceOf(journal, customer, account) + Gain(receivable, revenue, account, IssuedTo(journal, rows, filter, customer))
  {
    hide Alone, Accounts, Step, HasRef, SourceRef, Issuance, BalanceOf, Moved;
    if rows != [] {
      var n := |rows| - 1;
      var init, o := rows[..n], rows[n];
      assert rows == init + [o];
      RunPosts(journal, init, env, receivable, revenue, filter, customer, account);
      var r := Scan(journal, init, true, env);
      SameRefs(journal, rows, env, receivable, revenue);
      StepPosts(r, o, env, n, receivable, revenue);
      RefIsTaken(journal, o);
      AccountsAreNamed(env, receivable, revenue);
      IssuanceMoves(o, receivable, revenue, account);
      BalanceSnoc(r.journal, Issuance(o, receivable, revenue), customer, account);
      IsToIssue(journal, o, filter, customer);
    }
  }

  lemma IsToIssue(journal: seq<Entry>, o: Order, filter: Option<string>, customer: string)
    requires Selected(o, filter)
    ensures ToIssue(journal, o, filter, customer) <==>
      (o.customerId == Some(customer) && customer != "" && o.totalPrice > 0 &&
       !exists e :: e in journal && e.sourceRef == "JOURNAL:INVOICE_ISSUED:" + o.id)
  {
  }

  /** Before its own turn an order is in the journal only if it was there before the run. */
  lemma SameRefs(journal: seq<Entry>, rows: seq<Order>, env: Env, receivable: string, revenue: string)
    requires Alone(env) && Accounts(env, receivable, revenue) && DistinctIds(rows) && rows != []
    ensures
      var n := |rows| - 1;
      HasRef(Scan(journal, rows[..n], true, env).journal, SourceRef(rows[n].id)) <==> HasRef(journal, SourceRef(rows[n].id))
  {
    hide Alone, Accounts, Scan, HasRef, SourceRef, RefAmong;
    AloneIsQuiet(env, receivable, revenue);
    DryRunPredicts(journal, rows[..|rows| - 1], env, env);
    NotAmongEarlier(rows);
  }

  // ---- over the order table

  lemma {:induction false} IssuedOfMatching(journal: seq<Entry>, orders: seq<Order>, filter: Option<string>, customer: string)
    ensures IssuedTo(journal, Matching(orders, filter), filter, customer) == IssuedTo(journal, orders, filter, customer)
  {
    hide ToIssue;
    if orders != [] {
      var n := |orders| - 1;
      IssuedOfMatching(journal, orders[..n], filter, customer);
      var m, o := Matching(orders[..n], filter), orders[n];
      if Selected(o, filter) {
        assert (m + [o])[..|m|] == m;
      } else {
        assert Matching(orders, filter) == m;
        UnselectedIsNotIssued(journal, o, filter, customer);
      }
    }
  }

  lemma UnselectedIsNotIssued(journal: seq<Entry>, o: Order, filter: Option<string>, customer: string)
    requires !Selected(o, filter)
    ensures !ToIssue(journal, o, filter, customer)
  {
  }

  lemma AscendingAreDistinct(rows: seq<Order>, rank: string -> int)
    requires Ascending(rows, rank)
    ensures DistinctIds(rows)
  {
  }

  /** The script applied to a journal nobody else writes to. */
  method BackfillPosts(
      orders: seq<Order>, rank: string -> int, pageSize: nat, filter: Option<string>, journal0: seq<Entry>, env: Env,
      receivable: string, revenue: string)
    returns (journal: seq<Entry>)
    requires pageSize > 0 && Ascending(orders, rank) && Alone(env) && Accounts(env, receivable, revenue)
    ensures forall customer ::
      BalanceOf(journal, customer, receivable) ==
        BalanceOf(journal0, customer, receivable) + IssuedTo(journal0, orders, filter, customer)
      && BalanceOf(journal, customer, revenue) ==
        BalanceOf(journal0, customer, revenue) - IssuedTo(journal0, orders, filter, customer)
    ensures forall customer, account :: account != receivable && account != revenue ==>
      BalanceOf(journal, customer, account) == BalanceOf(journal0, customer, account)
  {
    hide *;
    var made, counts, visited;
    journal, made, counts, visited := Backfill(orders, rank, pageSize, filter, true, journal0, env);
    AccountsAreNamed(env, receivable, revenue);
    forall customer, account ensures BalanceOf(journal, customer, account) ==
      BalanceOf(journal0, customer, account) + Gain(receivable, revenue, account, IssuedTo(journal0, orders, filter, customer))
    {
      PostedByRun(orders, rank, filter, journal0, env, receivable, revenue, customer, account);
    }
    GainMeans(receivable, revenue);
  }

  lemma GainMeans(receivable: string, revenue: string)
    requires receivable != revenue
    ensures forall x :: Gain(receivable, revenue, receivable, x) == x && Gain(receivable, revenue, revenue, x) == -x
    ensures forall account, x :: account != receivable && account != revenue ==> Gain(receivable, revenue, account, x) == 0
  {
  }

  lemma PostedByRun(
      orders: seq<Order>, rank: string -> int, filter: Option<string>, journal: seq<Entry>, env: Env,
      receivable: string, revenue: string, customer: string, account: string)
    requires Ascending(orders, rank) && Alone(env) && Accounts(env, receivable, revenue)
    ensures BalanceOf(Scan(journal, Matching(orders, filter), true, env).journal, customer, account) ==
      BalanceOf(journal, customer, account) + Gain(receivable, revenue, account, IssuedTo(journal, orders, filter, customer))
  {
    hide *;
    var rows := Matching(orders, filter);
    MatchingIsTheSelection(orders, rank, filter);
    AscendingAreDistinct(rows, rank);
    RunPosts(journal, rows, env, receivable, revenue, filter, customer, account);
    IssuedOfMatching(journal, orders, filter, customer);
  }
}
