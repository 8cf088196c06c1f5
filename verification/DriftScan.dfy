/**
 * The drift scanner: a customer's open debt from the debt ledger against the receivable account of
 * the journal, and the compensating entry its report asks for. Amounts are in minor units.
 */
module DriftScan {
  import opened Wrappers
  import opened DebtSources
  import opened Fixed4

  const TOLERANCE := 10  // 0.001 KD
  const RECEIVABLE := "1300"
  const CASH_ACCOUNT := "1100"

  /** `realPayment` is false for wallet absorption rows. */
  datatype DebtEntry = DebtEntry(customerId: string, source: Source, amount: int, realPayment: bool)

  datatype Line = Line(account: string, debit: int, credit: int)

  datatype JournalEntry = JournalEntry(customerId: string, sourceRef: string, lines: seq<Line>)

  datatype Direction = OverpaymentInJournal | UnderpaymentInJournal

  datatype LedgerNet = LedgerNet(net: int, inv: int, sub: int, pay: int)

  datatype DriftRow = DriftRow(
    customerId: string, ledgerNet: int, journalAr: int, delta: int, direction: Direction,
    drCount: nat, crCount: nat)

  // ---- what is added up

  predicate Counts(e: DebtEntry, customer: string, source: Source) {
    e.customerId == customer && e.source == source && (source == PAYMENT ==> e.realPayment)
  }

  function SumOf(ledger: seq<DebtEntry>, customer: string, source: Source): int {
    if ledger == [] then 0
    else
      var e := ledger[|ledger| - 1];
      SumOf(ledger[..|ledger| - 1], customer, source) + if Counts(e, customer, source) then e.amount else 0
  }

  function LinesBalance(lines: seq<Line>): int {
    if lines == [] then 0
    else
      var l := lines[|lines| - 1];
      LinesBalance(lines[..|lines| - 1]) + if l.account == RECEIVABLE then l.debit - l.credit else 0
  }

  /** Debits minus credits on the receivable account. */
  function JournalBalance(journal: seq<JournalEntry>, customer: string): int {
    if journal == [] then 0
    else
      var e := journal[|journal| - 1];
      JournalBalance(journal[..|journal| - 1], customer) + if e.customerId == customer then LinesBalance(e.lines) else 0
  }

  /** Payments settle invoices first, then overuse; each stage is clamped. */
  function Net(inv: int, sub: int, pay: int): int {
    var invPaid := if inv <= pay then inv else pay;
    var payAfterInv := pay - invPaid;
    var subPaid := if sub <= payAfterInv then sub else payAfterInv;
    inv - invPaid + (sub - subPaid)
  }

  /**
   * The two clamped stages are one clamp over the sum exactly when the overuse is not negative or
   * the invoices are paid in full.
   */
  lemma NetIsOneClamp(inv: int, sub: int, pay: int)
    ensures Net(inv, sub, pay) == Max(inv + sub - pay, 0) <==> sub >= 0 || inv <= pay
  {
  }

  /** Order does not matter: any rearrangement of the ledger nets to the same amount. */
  lemma {:induction false} SumOfPermutation(a: seq<DebtEntry>, b: seq<DebtEntry>, customer: string, source: Source)
    requires multiset(a) == multiset(b)
    ensures SumOf(a, customer, source) == SumOf(b, customer, source)
    decreases |a|
  {
    hide SumOf;
    if a == [] {
      assert |multiset(b)| == 0;
      assert b == [];
    } else {
      var n := |a| - 1;
      assert a[n] in multiset(b);
      var j :| 0 <= j < |b| && b[j] == a[n];
      var y := b[..j] + b[j + 1..];
      assert a == a[..n] + [a[n]];
      assert b == b[..j] + [b[j]] + b[j + 1..];
      assert multiset(b) == multiset(y) + multiset{a[n]};
      assert multiset(a) == multiset(a[..n]) + multiset{a[n]};
      CancelOne(multiset(a[..n]), multiset(y), a[n]);
      SumOfPermutation(a[..n], y, customer, source);
      SumOfConcat(a[..n], [a[n]], customer, source);
      SumOfConcat(b[..j] + [b[j]], b[j + 1..], customer, source);
      SumOfConcat(b[..j], [b[j]], customer, source);
      SumOfConcat(b[..j], b[j + 1..], customer, source);
    }
  }

  lemma {:induction false} SumOfConcat(a: seq<DebtEntry>, b: seq<DebtEntry>, customer: string, source: Source)
    ensures SumOf(a + b, customer, source) == SumOf(a, customer, source) + SumOf(b, customer, source)
  {
    if b == [] {
      assert a + b == a;
    } else {
      SumOfConcat(a, b[..|b| - 1], customer, source);
      assert (a + b)[..|a + b| - 1] == a + b[..|b| - 1];
    }
  }

  /** The open debt of a customer, whatever order the rows come in. */
  lemma NetOfPermutation(a: seq<DebtEntry>, b: seq<DebtEntry>, customer: string)
    requires multiset(a) == multiset(b)
    ensures Expected(a, customer) == Expected(b, customer)
  {
    SumOfPermutation(a, b, customer, INVOICE_SHORTFALL);
    SumOfPermutation(a, b, customer, SUBSCRIPTION_OVERUSE);
    SumOfPermutation(a, b, customer, PAYMENT);
  }

  // ---- the loops

  method ComputeLedgerNet(ledger: seq<DebtEntry>, customer: string) returns (r: LedgerNet)
    ensures r.inv == SumOf(ledger, customer, INVOICE_SHORTFALL)
    ensures r.sub == SumOf(ledger, customer, SUBSCRIPTION_OVERUSE)
    ensures r.pay == SumOf(ledger, customer, PAYMENT)
    ensures r.net == Net(r.inv, r.sub, r.pay)
  {
    var inv, sub, pay := 0, 0, 0;
    var i := 0;
    while i < |ledger|
      invariant 0 <= i <= |ledger|
      invariant inv == SumOf(ledger[..i], customer, INVOICE_SHORTFALL)
      invariant sub == SumOf(ledger[..i], customer, SUBSCRIPTION_OVERUSE)
      invariant pay == SumOf(ledger[..i], customer, PAYMENT)
    {
      var e := ledger[i];
      assert ledger[..i + 1][..i] == ledger[..i];
      if e.customerId == customer {
        if e.source == INVOICE_SHORTFALL {
          inv := inv + e.amount;
        } else if e.source == SUBSCRIPTION_OVERUSE {
          sub := sub + e.amount;
        } else if e.source == PAYMENT {
          if e.realPayment { pay := pay + e.amount; }
        }
      }
      i := i + 1;
    }
    assert ledger[..i] == ledger;
    var invPaid := if inv <= pay then inv else pay;
    var payAfterInv := pay - invPaid;
    var subPaid := if sub <= payAfterInv then sub else payAfterInv;
    var net := inv - invPaid + (sub - subPaid);
    return LedgerNet(net, inv, sub, pay);
  }

  /** The receivable lines of one customer, in journal order. */
  function ReceivableLines(journal: seq<JournalEntry>, customer: string): seq<Line> {
    if journal == [] then []
    else
      var e := journal[|journal| - 1];
      ReceivableLines(journal[..|journal| - 1], customer) + if e.customerId == customer then OnReceivable(e.lines) else []
  }

  function OnReceivable(lines: seq<Line>): seq<Line> {
    if lines == [] then []
    else
      var l := lines[|lines| - 1];
      OnReceivable(lines[..|lines| - 1]) + if l.account == RECEIVABLE then [l] else []
  }

  method ComputeJournalAr(journal: seq<JournalEntry>, customer: string) returns (ar: int, drCount: nat, crCount: nat)
    ensures ar == JournalBalance(journal, customer)
    ensures drCount == DebitCount(ReceivableLines(journal, customer))
    ensures crCount == CreditCount(ReceivableLines(journal, customer))
  {
    var lines := ReceivableLines(journal, customer);
    ar, drCount, crCount := 0, 0, 0;
    assert lines[..0] == [];
    var i := 0;
    while i < |lines|
      invariant 0 <= i <= |lines| && ar == SideSum(lines[..i])
      invariant drCount == DebitCount(lines[..i]) && crCount == CreditCount(lines[..i])
    {
      assert lines[..i + 1][..i] == lines[..i];
      var dr, cr := lines[i].debit, lines[i].credit;
      ar := ar + dr - cr;
      if dr > 0 { drCount := drCount + 1; }
      if cr > 0 { crCount := crCount + 1; }
      i := i + 1;
    }
    assert lines[..i] == lines;
    SideSumIsBalance(journal, customer);
  }

  function DebitCount(lines: seq<Line>): nat {
    if lines == [] then 0 else DebitCount(lines[..|lines| - 1]) + if lines[|lines| - 1].debit > 0 then 1 else 0
  }

  function CreditCount(lines: seq<Line>): nat {
    if lines == [] then 0 else CreditCount(lines[..|lines| - 1]) + if lines[|lines| - 1].credit > 0 then 1 else 0
  }

  function SideSum(lines: seq<Line>): int {
    if lines == [] then 0
    else SideSum(lines[..|lines| - 1]) + lines[|lines| - 1].debit - lines[|lines| - 1].credit
  }

  lemma {:induction false} SideSumConcat(a: seq<Line>, b: seq<Line>)
    ensures SideSum(a + b) == SideSum(a) + SideSum(b)
  {
    if b == [] {
      assert a + b == a;
    } else {
      SideSumConcat(a, b[..|b| - 1]);
      assert (a + b)[..|a + b| - 1] == a + b[..|b| - 1];
    }
  }

  lemma {:induction false} LinesSideSum(lines: seq<Line>)
    ensures SideSum(OnReceivable(lines)) == LinesBalance(lines)
  {
    if lines != [] {
      var n := |lines| - 1;
      LinesSideSum(lines[..n]);
      var a := OnReceivable(lines[..n]);
      if lines[n].account == RECEIVABLE {
        assert OnReceivable(lines) == a + [lines[n]];
        assert (a + [lines[n]])[..|a|] == a;
      } else {
        assert OnReceivable(lines) == a;
      }
    }
  }

  lemma {:induction false} SideSumIsBalance(journal: seq<JournalEntry>, customer: string)
    ensures SideSum(ReceivableLines(journal, customer)) == JournalBalance(journal, customer)
  {
    if journal != [] {
      var n := |journal| - 1;
      SideSumIsBalance(journal[..n], customer);
      LinesSideSum(journal[n].lines);
      var a := ReceivableLines(journal[..n], customer);
      SideSumConcat(a, OnReceivable(journal[n].lines));
      assert a + [] == a;
    }
  }

  /** The open debt the scanner expects in the journal. */
  function Expected(ledger: seq<DebtEntry>, customer: string): int {
    Net(SumOf(ledger, customer, INVOICE_SHORTFALL), SumOf(ledger, customer, SUBSCRIPTION_OVERUSE),
        SumOf(ledger, customer, PAYMENT))
  }

  /** How far the journal is below the ledger. */
  function Gap(ledger: seq<DebtEntry>, journal: seq<JournalEntry>, customer: string): int {
    Expected(ledger, customer) - JournalBalance(journal, customer)
  }

  /** Reports a drift beyond the tolerance, its size, and the side that is too low. */
  method ScanCustomer(ledger: seq<DebtEntry>, journal: seq<JournalEntry>, customer: string)
    returns (r: Option<DriftRow>)
    ensures r.None? <==> -10 <= Gap(ledger, journal, customer) <= 10
    ensures r.Some? ==>
      && r.value.customerId == customer
      && r.value.ledgerNet == Expected(ledger, customer) && r.value.journalAr == JournalBalance(journal, customer)
      && r.value.delta == Abs(Gap(ledger, journal, customer)) > TOLERANCE
      && (r.value.direction == OverpaymentInJournal <==> Gap(ledger, journal, customer) > 0)
      && r.value.drCount == DebitCount(ReceivableLines(journal, customer))
      && r.value.crCount == CreditCount(ReceivableLines(journal, customer))
  {
    var l := ComputeLedgerNet(ledger, customer);
    var ar, drCount, crCount := ComputeJournalAr(journal, customer);
    var delta := Abs(l.net - ar);
    if delta <= TOLERANCE {
      return None;
    }
    var direction := if ar < l.net then OverpaymentInJournal else UnderpaymentInJournal;
    return Some(DriftRow(customer, l.net, ar, delta, direction, drCount, crCount));
  }

  // ---- the sums on the fields of the rows

  /** The ledger rows of a customer from one source, real payments or not. */
  function AmountOf(ledger: seq<DebtEntry>, customer: string, source: Source, real_: bool): int {
    if ledger == [] then 0
    else
      var e := ledger[|ledger| - 1];
      AmountOf(ledger[..|ledger| - 1], customer, source, real_) +
      if e.customerId == customer && e.source == source && e.realPayment == real_ then e.amount else 0
  }

  /** What the lines of a customer's entries put on the account of a code: debits minus credits. */
  function OnAccount(lines: seq<Line>, code: string): int {
    if lines == [] then 0
    else
      var l := lines[|lines| - 1];
      OnAccount(lines[..|lines| - 1], code) + if l.account == code then l.debit - l.credit else 0
  }

  function AccountOf(journal: seq<JournalEntry>, customer: string, code: string): int {
    if journal == [] then 0
    else
      var e := journal[|journal| - 1];
      AccountOf(journal[..|journal| - 1], customer, code) + if e.customerId == customer then OnAccount(e.lines, code) else 0
  }

  lemma {:induction false} SumsOnFields(ledger: seq<DebtEntry>, customer: string)
    ensures SumOf(ledger, customer, INVOICE_SHORTFALL) ==
      AmountOf(ledger, customer, INVOICE_SHORTFALL, true) + AmountOf(ledger, customer, INVOICE_SHORTFALL, false)
    ensures SumOf(ledger, customer, SUBSCRIPTION_OVERUSE) ==
      AmountOf(ledger, customer, SUBSCRIPTION_OVERUSE, true) + AmountOf(ledger, customer, SUBSCRIPTION_OVERUSE, false)
    ensures SumOf(ledger, customer, PAYMENT) == AmountOf(ledger, customer, PAYMENT, true)
  {
    if ledger != [] { SumsOnFields(ledger[..|ledger| - 1], customer); }
  }

  lemma {:induction false} LinesOnFields(lines: seq<Line>)
    ensures LinesBalance(lines) == OnAccount(lines, "1300")
  {
    if lines != [] { LinesOnFields(lines[..|lines| - 1]); }
  }

  lemma {:induction false} JournalOnFields(journal: seq<JournalEntry>, customer: string)
    ensures JournalBalance(journal, customer) == AccountOf(journal, customer, "1300")
  {
    hide LinesBalance, OnAccount;
    if journal != [] {
      JournalOnFields(journal[..|journal| - 1], customer);
      LinesOnFields(journal[|journal| - 1].lines);
    }
  }

  /** Payments beyond the invoices go to the overuse; payments short of them leave the overuse whole, and forgive a negative one. */
  lemma NetMeans(inv: int, sub: int, pay: int)
    ensures inv <= pay ==> Net(inv, sub, pay) == Max(sub - (pay - inv), 0)
    ensures inv > pay ==> Net(inv, sub, pay) == inv - pay + Max(sub, 0)
  {
  }

  /** The scan on the fields: invoices, overuse and real payments of the ledger against account 1300. */
  lemma GapOnFields(ledger: seq<DebtEntry>, journal: seq<JournalEntry>, customer: string)
    ensures
      var inv := AmountOf(ledger, customer, INVOICE_SHORTFALL, true) + AmountOf(ledger, customer, INVOICE_SHORTFALL, false);
      var sub := AmountOf(ledger, customer, SUBSCRIPTION_OVERUSE, true) + AmountOf(ledger, customer, SUBSCRIPTION_OVERUSE, false);
      var pay := AmountOf(ledger, customer, PAYMENT, true);
      Gap(ledger, journal, customer) ==
        (if inv <= pay then Max(sub - (pay - inv), 0) else inv - pay + Max(sub, 0)) - AccountOf(journal, customer, "1300")
  {
    hide SumOf, AmountOf, JournalBalance, AccountOf, Net;
    SumsOnFields(ledger, customer);
    JournalOnFields(journal, customer);
    NetMeans(SumOf(ledger, customer, INVOICE_SHORTFALL), SumOf(ledger, customer, SUBSCRIPTION_OVERUSE), SumOf(ledger, customer, PAYMENT));
  }

  /** The repair moves the drift between accounts 1300 and 1100 and touches no other. */
  lemma RepairMoves(row: DriftRow, code: string)
    ensures
      var moved := if row.direction == OverpaymentInJournal then row.delta else -row.delta;
      OnAccount(RepairEntry(row).lines, code) == if code == "1300" then moved else if code == "1100" then -moved else 0
    ensures RepairEntry(row).customerId == row.customerId
    ensures RepairEntry(row).sourceRef == "V20_8_1_1:DRIFT_REPAIR:" + row.customerId
  {
    var lines := RepairEntry(row).lines;
    assert lines[..1] == [lines[0]] && lines[..1][..0] == [];
    assert OnAccount(lines[..1], code) == if lines[0].account == code then lines[0].debit - lines[0].credit else 0;
  }

  // ---- the documented repair

  /** Debit the receivable and credit cash by the drift, or the mirror image. */
  function RepairEntry(row: DriftRow): JournalEntry {
    JournalEntry(row.customerId, "V20_8_1_1:DRIFT_REPAIR:" + row.customerId,
      match row.direction
      case OverpaymentInJournal => [Line(RECEIVABLE, row.delta, 0), Line(CASH_ACCOUNT, 0, row.delta)]
      case UnderpaymentInJournal => [Line(CASH_ACCOUNT, row.delta, 0), Line(RECEIVABLE, 0, row.delta)])
  }

  function Debits(lines: seq<Line>): int {
    if lines == [] then 0 else Debits(lines[..|lines| - 1]) + lines[|lines| - 1].debit
  }

  function Credits(lines: seq<Line>): int {
    if lines == [] then 0 else Credits(lines[..|lines| - 1]) + lines[|lines| - 1].credit
  }

  lemma TwoLines(a: Line, b: Line)
    ensures LinesBalance([a, b]) ==
      (if a.account == RECEIVABLE then a.debit - a.credit else 0) + if b.account == RECEIVABLE then b.debit - b.credit else 0
    ensures Debits([a, b]) == a.debit + b.debit && Credits([a, b]) == a.credit + b.credit
  {
    var two, one := [a, b], [a];
    assert two[..1] == one && one[..0] == [];
    assert LinesBalance(one) == if a.account == RECEIVABLE then a.debit - a.credit else 0;
    assert Debits(one) == a.debit && Credits(one) == a.credit;
    assert two[1] == b;
  }

  /** The repair balances, closes the gap exactly and leaves every other customer alone. */
  lemma RepairClosesTheGap(ledger: seq<DebtEntry>, journal: seq<JournalEntry>, row: DriftRow)
    requires row.delta == Abs(Gap(ledger, journal, row.customerId)) > TOLERANCE
    requires row.direction == OverpaymentInJournal <==> Gap(ledger, journal, row.customerId) > 0
    ensures Debits(RepairEntry(row).lines) == Credits(RepairEntry(row).lines) == row.delta
    ensures Gap(ledger, journal + [RepairEntry(row)], row.customerId) == 0
    ensures forall other :: other != row.customerId ==>
      Gap(ledger, journal + [RepairEntry(row)], other) == Gap(ledger, journal, other)
  {
    hide Expected, LinesBalance, Debits, Credits;
    var e := RepairEntry(row);
    TwoLines(e.lines[0], e.lines[1]);
    assert e.lines == [e.lines[0], e.lines[1]];
    assert (journal + [e])[..|journal|] == journal;
    forall other ensures JournalBalance(journal + [e], other)
      == JournalBalance(journal, other) + if other == row.customerId then LinesBalance(e.lines) else 0 {}
  }

  /** Scan, repair, scan again: the second scan finds nothing. */
  method ScanRepairScan(ledger: seq<DebtEntry>, journal: seq<JournalEntry>, customer: string)
    returns (first: Option<DriftRow>, repaired: seq<JournalEntry>, second: Option<DriftRow>)
    ensures second == None
    ensures first.None? ==> repaired == journal
    ensures first.Some? ==> repaired == journal + [RepairEntry(first.value)]
  {
    hide Expected, JournalBalance;
    first := ScanCustomer(ledger, journal, customer);
    repaired := journal;
    if first.Some? {
      RepairClosesTheGap(ledger, journal, first.value);
      repaired := journal + [RepairEntry(first.value)];
    }
    second := ScanCustomer(ledger, repaired, customer);
  }
}
