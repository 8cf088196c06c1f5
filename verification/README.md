# Verified models of the Safari laundry ERP

This project models the algorithms and protocols of the ERP that carry money, identity or evidence, and
proves what they promise over all inputs and all runs. Amounts are integers in units of 0.0001 KD unless a
module says otherwise, instants are milliseconds of the UTC epoch.

| modules | what they model |
|---|---|
| AuditTable, AuditChain, AuditWriters | the tamper-evident audit log: hash chain, integrity walk, and any number of interleaved writers under the advisory lock |
| Division, Words, Base32, Base32Numbers, Totp | division with remainder, wrapping 32-bit words, Base32 (section 6 of RFC 4648), one-time codes (section 5.3 of RFC 4226, sections 4 and 5.2 of RFC 6238) |
| KuwaitCalendar, GregorianDays, DebtRecovery, RecoveryWindow, RecoveryAmounts | the civil calendar of Date.UTC (section 21.4.1 of ECMA-262) shifted to UTC+3, the recovery report driven by it, the ranges that lose rows, and its amounts on the rows |
| DecimalText, Whitespace, Fixed4, KeyedSums | numerals as text, money as text, sums by key |
| BranchLedger, Reconciliation | the branch cash ledger with its dashboard guard, and the daily reconciliation with its breakdown |
| DebtSources, Waterfall, SumsOver, DebtComparison, UnpaidList, DriftScan | first-in first-out allocation of payments, the two debt comparisons and how their figures relate, the drift scanner with its repair entry |
| UniqueRefs, WalletBackfill, InvoiceBackfill, IssuancePosting | the idempotent backfills under racing writers and failing writes, and what they post |
| CashEvidence, CashAnalysis, CashAnomalies, CashClassifier, CashMeanings, CashVerdicts, CashLight | the cash-intelligence pipeline from table rows to the dashboard light |
| BcryptPool, RefreshTokens | the hashing worker pool and the rotation of refresh tokens, over all runs |
| RosterMatch, RosterTurns | eight greedy passes that match a bank roster with the users, and the account numbers written from it |

Code that changes state step by step is a class or a method with loops, proved against a function over plain
values; what the source promises is then proved about that function, as invariants over whole runs, closed
forms, round trips, or exact conditions, down to the fields of the rows and the events of the runs. Hash functions, HMAC, the database collation and the work done by a
hashing worker are parameters; injectivity of the hash is stated wherever it is used.

## Where the code and its comments disagree

The models follow the code.

- Audit chain: a comment says a deterministic ordering by (createdAt, id) keeps the chain sound. It needs more:
  the keys must increase in commit order (`AuditChain.VerifiesIffKeysIncrease`,
  `AuditChain.TieWithInvertedIdsIsReported`).
- Recovery report: the day loop fails when the last day is 9999-12-31, and per-day rounding lets printed days
  and totals drift apart (`DebtRecovery.SeedDays`, `DebtRecovery.ReportDriftIsBounded`, `DebtRecovery.DriftHappens`).
  The request checks only the shape of a date, and some ranges it lets through lose rows
  (`RecoveryWindow.NothingDroppedIff`, `RecoveryWindow.LateEndDropsRows`).
- Kuwait day bounds: for the years 0 to 99 the bounds do not contain their instant
  (`KuwaitCalendar.BoundsHoldTheInstant`).
- Shift alerts: a comment says one per overdue driver, the code emits one per overdue open shift
  (`CashAnomalies.OneAlertPerDriverIff`, `CashVerdicts.TwoAlertsForOneDriver`).
- Classifier: the header says cash under 24 hours can never be CRITICAL. The age used is that of the driver's
  oldest cash, and chain breaks are exempt (`CashVerdicts.FreshCashTurnsRedIff`,
  `CashVerdicts.FreshCashCanTurnRed`).
- Dashboard: the scenario contract treats every financial alert below 5 KD or 24 hours as a violation, while the
  classifier exempts chain breaks from both (`CashClassifier.ContractFailsExactly`,
  `CashVerdicts.OrderBreaksContractIff`, `CashVerdicts.SmallChainBreakBreaksContract`).
- Bcrypt pool: the comment on the size (half the processors, at most 8) differs from the code
  (`BcryptPool.CommentedSizeIff`), and a job dispatched after the shutdown never settles
  (`BcryptPool.JobsAfterShutdownHang`).
- Branch ledger: the documentation of `incomingKd` counts rejected bags, the code excludes them
  (`BranchLedger.IncomingIsAsDocumentedIff`, `BranchLedger.RejectedBagIsLeftOut`).
- Debt comparison: the dashboard script calls its net figure the one of the unpaid list, but the two scripts filter
  issuers differently (`UnpaidList.UnpaidListAgainstDashboard`, `UnpaidList.SupervisedDebtIsUnlisted`).

## Model

| member | source | states |
|---|---|---|
| AuditTable.SortByKeyFacts | src/audit-logs/audit-logs.service.ts:313-316 | The (createdAt, id) ordering of a table with distinct ids is strictly increasing in the key and a permutation of the table |
| AuditTable.VerifyingMeans | src/audit-logs/audit-logs.service.ts:312-326 | A table verifies exactly when its first row links to GENESIS, each other one to the hash of the row before, and every row hashes right |
| AuditTable.LatestExists | src/audit-logs/audit-logs.service.ts:300-304 | The hash a new row links to is that of the one row whose key exceeds all others (or the start word when that row has no hash) |
| AuditTable.SameEndSameSuffix | src/audit-logs/audit-logs.service.ts:312-326 | With an injective hash, two verifying chains that end in the same hash agree on payload, previous hash and hash, position by position from the end |
| AuditTable.SameEndSameChain | src/audit-logs/audit-logs.service.ts:312-326 | Two verifying chains of equal length and equal last hash are equal row by row; equal length need not be given when no digest is the start word |
| AuditTable.TamperingIsReported | src/audit-logs/audit-logs.service.ts:312-326 | Against a known length and last hash, a table verifies if and only if every row the verifier reads is the original one: any change, removal, insertion or reordering is reported |
| AuditChain.IncreasingVerifies | src/audit-logs/audit-logs.service.ts:294-326 | Keys that increase in commit order, and no row beside the writer, make the check pass |
| AuditChain.EqualHashEqualRank | src/audit-logs/audit-logs.service.ts:294-310 | In any table the writer can produce, rows with equal hashes are equally many links away from the start |
| AuditChain.RankIsPosition | src/audit-logs/audit-logs.service.ts:312-326 | In a verifying table the k-th row in key order is k links from the first row |
| AuditChain.VerifyingIsIncreasing | src/audit-logs/audit-logs.service.ts:312-326 | If the check passes on a produced table, the keys increased in commit order |
| AuditChain.VerifyingHasNoDirect | src/audit-logs/audit-logs.service.ts:312-326 | If the check passes, no row bypassed the chained writer |
| AuditChain.VerifiesIffKeysIncrease | src/audit-logs/audit-logs.service.ts:294-326 | Exact condition: the check passes if and only if no row bypassed the writer and every committed (createdAt, id) exceeded all earlier ones |
| AuditChain.TieWithInvertedIdsIsReported | src/audit-logs/audit-logs.service.ts:282-293 | Counterexample to the comment that a deterministic ordering suffices: equal createdAt with inverted ids is reported as corruption |
| AuditWriters.AuditLog.AppendChained | src/audit-logs/audit-logs.service.ts:294-310 | Appends exactly one row linked to the latest hash, or fails on an unknown user and leaves the table alone |
| AuditWriters.AuditLog.Write | src/audit-logs/audit-logs.service.ts:253-280 | Exactly one row is appended: the payload as given, or with the unknown user moved to missingUserId and the hash taken over the payload as stored |
| AuditWriters.AuditLog.VerifyAuditIntegrity | src/audit-logs/audit-logs.service.ts:312-326 | Valid exactly when every row in key order links to its predecessor and hashes right; otherwise brokenAt is the first row that does not, and checked is always the table size |
| AuditWriters.AuditLog.InsertDirect | src/auth/auth.service.ts:423-441 | An audit row created outside the service joins the table without payload and links |
| AuditWriters.StepKeepsInv | src/audit-logs/audit-logs.service.ts:253-310 | Every step of any writer (start, lock, read head, insert, commit, foreign-key retry, abort) or direct insert keeps distinct ids, linked rows, the lock owner and the payload counts |
| AuditWriters.EveryRunVerifiesIffKeysIncrease | src/audit-logs/audit-logs.service.ts:253-326 | Over all interleavings of writers, retries, aborts and direct inserts, with keys picked freely: the check passes if and only if keys increased in commit order and nothing was inserted directly |
| AuditWriters.EveryRunKeepsPayloads | src/audit-logs/audit-logs.service.ts:253-280 | In every run the chain holds each payload exactly as often as writers committed it, and a committed writer holds the payload of its own start, with the user moved after a foreign-key error |
| AuditWriters.EveryRunStoresWhatWasAsked | src/audit-logs/audit-logs.service.ts:253-280 | From the events of a run alone: one row for each commit and each direct insert, in that order; a committed row holds the payload its writer started with, unchanged without a foreign-key error, and with the user as missingUserId after one |
| AuditWriters.FirstForeignKeyErrorRetries | src/audit-logs/audit-logs.service.ts:253-262 | The first foreign-key error of a writer with a user sends it back to the lock; a second one, or one without a user, ends it |
| AuditWriters.EveryRunFreesTheLock | src/audit-logs/audit-logs.service.ts:298-309 | In every run the lock is held exactly while some writer is between its lock and its commit or failure |
| AuditWriters.EveryRunExcludes | src/audit-logs/audit-logs.service.ts:298-309 | At most one writer is ever between taking the advisory lock and its commit |
| Base32.Base32Encode | src/account-security/totp.util.ts:13-29 | The accumulator loop over wrapping 32-bit words equals the unbounded five-bit grouping of the byte stream |
| Base32.AlphabetTable | src/account-security/totp.util.ts:10 | The two arithmetic functions are the look-up in the alphabet string and its inverse, none for every other character |
| Base32.Base32Decode | src/account-security/totp.util.ts:32-50 | The decoder loop over wrapping 32-bit words equals the unbounded eight-bit grouping of the cleaned text, or fails on the first foreign character |
| Base32.EncodeTake | src/account-security/totp.util.ts:17-19 | Shifting a byte into the wrapping accumulator keeps the bits still to be written, whatever overflowed before |
| Base32.DecodeTake | src/account-security/totp.util.ts:37-43 | Shifting five bits into the wrapping accumulator keeps the bits still to be read |
| Base32.DecodeEncode | src/account-security/totp.util.ts:13-50 | decode(encode(b)) = b for every byte sequence |
| Base32.EncodeDecode | src/account-security/totp.util.ts:13-50 | encode(decode(s)) = s if and only if s is upper-case alphabet text of a legal length whose leftover bits are zero |
| Base32.DecodeIgnoresCaseAndPadding | src/account-security/totp.util.ts:31-33 | Lower case and any number of trailing equal signs do not change what an encoded text decodes to |
| Base32Numbers.EncodeIsPositional | src/account-security/totp.util.ts:13-29 | Independent of the bit loops: the text, read to base 32 by alphabet position, is the number of the bytes to base 256 times the power of two of fewer than five filled bits, and the lengths agree |
| Base32Numbers.DecodeIsPositional | src/account-security/totp.util.ts:32-50 | The bytes, read to base 256, are the number of the text to base 32 divided by the power of two of the bits that fill no byte |
| Base32Numbers.DecodeIgnoresSpaces | src/account-security/totp.util.ts:33 | White space anywhere in an unpadded text does not change what it decodes to |
| Totp.CounterBufferIsBigEndian | src/account-security/totp.util.ts:58-61 | The buffer holds the counter as an 8-byte big-endian number, for every counter below 2^64 |
| Totp.TruncateIsStandard | src/account-security/totp.util.ts:62-68 | The bit operations compute the 31-bit big-endian number at the offset of section 5.3 of RFC 4226, and the offset stays inside the digest |
| Totp.CodeWidth | src/account-security/totp.util.ts:69 | Every code consists of exactly the asked-for number of decimal digits (at least one) |
| Totp.CodeIsStandard | src/account-security/totp.util.ts:56-70 | The code, read as a number, is the four digest bytes at the offset of the last nibble without their top bit, for the eight-byte counter, reduced modulo ten to the number of digits |
| Totp.SixDigits | src/account-security/totp.util.ts:84 | The default of six digits reduces modulo one million |
| Totp.StepMeans | src/account-security/totp.util.ts:85 | The step is k exactly for the instants from k to k+1 steps of seconds after the epoch |
| Totp.GenerateMeans | src/account-security/totp.util.ts:78-87 | For a readable secret the generated code is the standard code of the step the time lies in |
| Totp.ScanWindow | src/account-security/totp.util.ts:108-116 | The first step of the window that matches or fails decides the loop |
| Totp.VerifyTotp | src/account-security/totp.util.ts:93-117 | Rejects ill-formed candidates and unreadable secrets; then fails if the window reaches below step zero, else accepts exactly when the candidate without white space is one of the 2w+1 codes around the current step, failing instead of rejecting where the window leaves the counter range |
| Totp.CodesAreWellFormed | src/account-security/totp.util.ts:102-105 | The form check never rejects a real code |
| Totp.GeneratedCodeIsInWindow | src/account-security/totp.util.ts:78-117 | A code generated at t is in the window at t2 whenever the step numbers differ by at most the window, however it is spaced |
| Totp.VerifyGenerated | src/account-security/totp.util.ts:78-117 | A generated code verifies at any time whose step is at most the window away, however it is spaced; only where the window reaches below step zero does it fail |
| Totp.DriftStaysInWindow | src/account-security/totp.util.ts:85-108 | Clock drift of at most window steps of seconds changes the step number by at most window |
| KuwaitCalendar.YearOfUnique | src/call-center/call-center.helpers.ts:112-115 | Each day lies in exactly one civil year |
| KuwaitCalendar.CivilOfDay | src/call-center/call-center.helpers.ts:112-117 | Reading the civil date of the day number of a valid date gives the date back |
| KuwaitCalendar.DayOfCivil | src/call-center/call-center.helpers.ts:112-117 | The day number of the civil date of a day is that day |
| GregorianDays.EveryDayHasItsDate | src/call-center/call-center.helpers.ts:112-115 | Day 0 is 1 January 1970 and the day after a day has the next date, with month lengths and leap years written out: this fixes the date of every day |
| GregorianDays.InstantHasItsDate | src/call-center/call-center.helpers.ts:124-130 | An instant n days and less than a day after Kuwait midnight of 1 January 1970 prints the n-th date counted from there |
| GregorianDays.TextOfDate | src/call-center/call-center.helpers.ts:124-130 | The text of a date of a four-digit year holds year, month and day as numerals of four, two and two digits |
| KuwaitCalendar.BoundsHoldTheInstant | src/call-center/call-center.helpers.ts:106-121 | The computed day bounds contain their instant if and only if its Kuwait year is not one of 0 to 99, where Date.UTC means 1900 to 1999 |
| KuwaitCalendar.DaysTile | src/call-center/call-center.helpers.ts:106-121 | Outside those years the days tile the time line: each ends where the next starts, and an instant is inside exactly the bounds computed for it |
| KuwaitCalendar.ParseThenFormat | src/call-center/call-center.helpers.ts:124-145 | Parsing and formatting back gives the trimmed text if and only if it is a valid Gregorian date of the years 1000 to 9999 |
| KuwaitCalendar.FormatThenParse | src/call-center/call-center.helpers.ts:124-145 | Formatting an instant and parsing it gives the start of its Kuwait day |
| KuwaitCalendar.AddToIso | src/call-center/call-center.helpers.ts:147-153 | Adding k days to the text of day n gives the text of day n+k |
| KuwaitCalendar.AddComposes | src/call-center/call-center.helpers.ts:147-153 | add(add(d,a),b) = add(d,a+b) whenever the first result is still readable |
| KuwaitCalendar.IsoOrder | src/call-center/call-center.service.ts:1024-1058 | On four-digit years the string order of ISO days is the order of the days |
| DebtRecovery.SeedDays | src/call-center/call-center.service.ts:1053-1070 | The loop guarded by string comparison stops for every input; between valid dates it seeds every day once in order and fails exactly when the last day is 9999-12-31; from any text of the right shape it seeds that text and then the days whose text is not beyond the end |
| DebtRecovery.TurnOfTheMillennium | src/call-center/call-center.service.ts:1054-1058 | Why that day fails: as a string, 10000-01-01 comes before 9999-12-31 |
| DebtRecovery.Accumulate | src/call-center/call-center.service.ts:1072-1143 | The accumulation loop is the row-by-row fold over the seeded buckets, totals unrounded |
| DebtRecovery.GetDebtRecoveryReport | src/call-center/call-center.service.ts:1015-1163 | For valid days the report is the fold of the window's rows over the seeded days; for texts of the right shape it is the fold of the rows between the days they stand for over the seeded keys; an inverted range and a range ending on 9999-12-31 are rejected, as is an unreadable default day |
| DebtRecovery.WindowIsSeeded | src/call-center/call-center.service.ts:1028-1079 | Between two days, every instant of the queried window falls on a seeded day, so no fetched row is dropped |
| RecoveryWindow.NothingDroppedIff | src/call-center/call-center.service.ts:1020-1079 | The request checks only the shape of a date. For all such texts: no row of any table is dropped if and only if nothing is fetched, or the start is the text of its own day and the day the end stands for has a four-digit year and a text not beyond the end as written |
| RecoveryWindow.ValidRangesDropNothing | src/call-center/call-center.service.ts:1020-1079 | Two valid dates in order never drop a row |
| RecoveryWindow.LateEndDropsRows | src/call-center/dto/debt-recovery-report.dto.ts:4-21 | A range ending on 2026-02-31 passes the request check and drops rows it fetches |
| RecoveryWindow.DayZeroDropsNothing | src/call-center/dto/debt-recovery-report.dto.ts:4-21 | A range ending on 2026-02-00 passes the request check, is no date, and drops nothing |
| DebtRecovery.DaysAreDistinct | src/call-center/call-center.service.ts:1053-1070 | No day is seeded twice |
| DebtRecovery.StepDrifts | src/call-center/call-center.service.ts:1076-1143 | One row adds at most half a tick of rounding error to any column and is counted in exactly one bucket |
| DebtRecovery.ReportDriftIsBounded | src/call-center/call-center.service.ts:1072-1163 | Day amounts and printed totals differ by at most (n+1) x 0.00005 in every column, n the number of positive rows; the row counts are exact |
| DebtRecovery.ReportIsExact | src/call-center/call-center.service.ts:1072-1163 | With four-decimal amounts day sums equal the totals and channels add up to the recovered amount |
| RecoveryAmounts.TotalsMean | src/call-center/call-center.service.ts:1072-1155 | Each printed total is what the rows of the window paid into its stream, rounded once: activations to the wallet, settlements by KNET, payment link or online to electronic, all others to cash |
| RecoveryAmounts.DayMeans | src/call-center/call-center.service.ts:1053-1143 | Each bucket names its day, counts the rows of each kind on that day, and with four-decimal amounts holds exactly what they paid into each stream |
| RecoveryAmounts.RoundIsNearest | src/call-center/call-center.service.ts:1091-1093 | Rounding gives the nearest ten-thousandth, and of two equally near ones that further from zero |
| RecoveryAmounts.DefaultsMean | src/call-center/call-center.service.ts:1019-1022 | Without bounds, or with blank ones, the window is the thirty days that end on the Kuwait day of now |
| DebtRecovery.DriftHappens | src/call-center/call-center.service.ts:1091-1093 | The drift is real: on any day, the report over two payments of half a tick shows two ticks for the day under a total of one |
| Fixed4.ParseOfPrint | src/accounting/accounting-reconciliation.service.ts:35-54 | Parsing a printed amount gives it back, for every integer |
| Fixed4.PrintOfParse | src/accounting/accounting-reconciliation.service.ts:35-54 | Printing a parsed text gives the text back if and only if it is canonical |
| Fixed4.PrintMeans | src/accounting/accounting-reconciliation.service.ts:48-54 | The printed text is a sign, whole dinars without spare zeros, a dot and four places, and as numerals they are the amount |
| Fixed4.ParseMeans | src/accounting/accounting-reconciliation.service.ts:35-46 | A numeral with a point is read as dinars and ten-thousandths; missing places count as zeros, places beyond the fourth are cut |
| Fixed4.SumFixed4 | src/cash-monitor/cash-dashboard.service.ts:363-378 | The accumulating loop prints the sum of what the texts stand for, or fails on an unreadable one |
| Fixed4.SumOfPrinted | src/cash-monitor/cash-dashboard.service.ts:363-378 | Summing printed amounts gives the sum of the amounts |
| Fixed4.SumMinorPermutation | src/cash-monitor/branch-cash-ledger.service.ts:324-334 | Reordering the rows does not change their total |
| KeyedSums.KeysPartition | src/cash-monitor/branch-cash-ledger.service.ts:196-216 | The sums by key together with the sum of the items without a key are all the money |
| BranchLedger.AggregateHeld | src/cash-monitor/branch-cash-ledger.service.ts:194-216 | Each branch id occurs once, with the amount and the number of its held bags; bags without a branch are counted apart |
| BranchLedger.AggregateFlow | src/cash-monitor/branch-cash-ledger.service.ts:219-277 | Window flows are added up by branch, and new branches join the id list |
| BranchLedger.SortRowsFacts | src/cash-monitor/branch-cash-ledger.service.ts:323-329 | Sorting keeps the rows and their sum and puts the largest cash first |
| BranchLedger.SortRowsInOrder | src/cash-monitor/branch-cash-ledger.service.ts:323-329 | For any total and transitive comparison of names the rows end up by cash, largest first, and rows of equal cash by name |
| BranchLedger.Project | src/cash-monitor/branch-cash-ledger.service.ts:163-355 | One row for each branch with a held bag or a flow in the window and for no other, each with its name and telling the truth about its branch, by cash and then by name; total plus unattributed equals the sum of the held bags |
| BranchLedger.RowOnFields | src/cash-monitor/branch-cash-ledger.service.ts:56-91 | A row on the fields: current cash is the bags pending, awaiting and verified without a deposit log, incoming the same statuses by time of receipt, outgoing the verified deposits |
| BranchLedger.UnattributedCustody | src/cash-monitor/branch-cash-ledger.service.ts:196-216 | The unattributed custody is the bags without a branch that are pending, awaiting or verified and have no deposit log |
| BranchLedger.UnattributedDeposits | src/cash-monitor/branch-cash-ledger.service.ts:244-277 | The unattributed deposits are the verified ones of the window whose bag names no branch |
| BranchLedger.IncomingIsAsDocumentedIff | src/cash-monitor/branch-cash-ledger.service.ts:70-79 | The documentation of the incoming sum includes rejected bags, the code excludes them: the two agree for a branch if and only if its rejected bags of the window add up to zero |
| BranchLedger.RejectedBagIsLeftOut | src/cash-monitor/branch-cash-ledger.service.ts:225-242 | A concrete ledger with a held and a rejected bag: 2 KD shown where 3 KD were received |
| BranchLedger.SliceAligned | src/cash-monitor/cash-dashboard.service.ts:344-355 | The guard compares the printed total with the re-added printed rows |
| BranchLedger.ProjectedSliceNeverDrifts | src/cash-monitor/cash-dashboard.service.ts:344-355 | On a projected ledger the guard never fires |
| Reconciliation.SumOrders | src/accounting/accounting-reconciliation.service.ts:214-231 | The loop computes the expected and handed-over totals and the sums per driver |
| Reconciliation.CollectedOnFields | src/accounting/accounting-reconciliation.service.ts:214-231 | Per driver, collected is handed plus not handed; over all orders, what was handed over is all cash but that of orders not handed over or without a driver |
| Reconciliation.ComputeCashReconciliation | src/accounting/accounting-reconciliation.service.ts:214-265 | The three differences telescope: the printed total difference is expected minus deposited, and the breakdown names each driver once |
| Reconciliation.BreakdownMissesDriverless | src/accounting/accounting-reconciliation.service.ts:390-409 | The printed breakdown rows add up to the driver difference minus exactly the orders without a driver |
| Reconciliation.StatusMeaning | src/accounting/accounting-reconciliation.service.ts:76-80 | OK means every difference is zero, CRITICAL that one of them is at least 50 KD |
| Reconciliation.ZeroTotalCanBeCritical | src/accounting/accounting-reconciliation.service.ts:244-248 | A zero total difference can still be CRITICAL: a shortage can hide a surplus |
| DriftScan.NetIsOneClamp | scripts/v20-8-1-1-journal-drift-scan.ts:93-96 | The two clamped stages equal max(inv + sub - pay, 0) if and only if sub is not negative or the invoices are fully paid |
| DriftScan.NetMeans | scripts/v20-8-1-1-journal-drift-scan.ts:93-96 | Payments beyond the invoices go to the overuse; payments short of them leave a positive overuse whole and forgive a negative one |
| DriftScan.GapOnFields | scripts/v20-8-1-1-journal-drift-scan.ts:61-124 | The gap on the fields: shortfalls, overuse and real payments of the customer against debits minus credits on account 1300 |
| DriftScan.NetOfPermutation | scripts/v20-8-1-1-journal-drift-scan.ts:83-96 | The netted debt does not depend on the order of the ledger rows |
| DriftScan.ComputeLedgerNet | scripts/v20-8-1-1-journal-drift-scan.ts:61-98 | The loop sums the three sources of the customer and nets them |
| DriftScan.ComputeJournalAr | scripts/v20-8-1-1-journal-drift-scan.ts:100-122 | The receivable balance and the debit and credit line counts of the customer |
| DriftScan.ScanCustomer | scripts/v20-8-1-1-journal-drift-scan.ts:124-155 | No report exactly within the tolerance; otherwise the size of the gap and the direction of its sign |
| DriftScan.RepairClosesTheGap | scripts/v20-8-1-1-journal-drift-scan.ts:316-329 | The documented compensating entry balances, closes the gap exactly and moves no other customer |
| DriftScan.RepairMoves | scripts/v20-8-1-1-journal-drift-scan.ts:316-329 | The repair entry moves the drift between accounts 1300 and 1100, in the direction of the report, and touches no other account |
| DriftScan.ScanRepairScan | scripts/v20-8-1-1-journal-drift-scan.ts:316-329 | Scan, repair, scan: the second scan reports nothing |
| Waterfall.SharesTotal | scripts/compare-dashboard-debt.ts:123-139 | The shares total min(pool, sum of nets) |
| Waterfall.SharesAreFifo | scripts/compare-dashboard-debt.ts:123-139 | Each share lies in [0, net], and a positive share implies every earlier invoice is paid in full |
| Waterfall.TotalIgnoresOrder | scripts/compare-dashboard-debt.ts:123-139 | The total does not depend on the order of the invoices |
| DebtComparison.GroupByOrder | scripts/compare-dashboard-debt.ts:60-77 | Each order id once, in the order of first mention, carrying all of its shortfall and the customer, time and issuer of its first row |
| DebtComparison.AllocateCustomer | scripts/compare-dashboard-debt.ts:123-140 | The greedy loop that lowers the pool adds to each issuer exactly its closed-form shares, together min(pool, sum of nets) |
| DebtComparison.AllocateAll | scripts/compare-dashboard-debt.ts:120-140 | Over all customers the three issuer totals are the shares by issuer and add up to the listed total |
| DebtComparison.DashboardDebt | scripts/compare-dashboard-debt.ts:39-140 | The script end to end: the driver, branch and other figures partition what the unpaid lists show; how the sum relates to the other script is UnpaidList.UnpaidListAgainstDashboard |
| DebtComparison.CompareTotals | scripts/compare-debt-totals.ts:16-105 | Both figures of the script; the unpaid list never exceeds collections, with equality if and only if the nets cover every pool |
| DebtComparison.ListNeverExceeds | scripts/compare-debt-totals.ts:30-105 | The same comparison for any grouping and any customer lists of one ledger |
| UnpaidList.QueueIsByAge | scripts/compare-dashboard-debt.ts:113-123 | A customer's queue holds exactly that customer's orders, oldest first |
| UnpaidList.TiesKeepOrder | scripts/compare-dashboard-debt.ts:113-123 | Invoices of the same instant keep the order in which they were first mentioned |
| UnpaidList.OlderInvoicesFirst | scripts/compare-dashboard-debt.ts:113-140 | An invoice gets a share only when every strictly older invoice of its customer is paid in full |
| UnpaidList.PoolOnFields | scripts/compare-dashboard-debt.ts:91-109 | The debt side of a customer is shortfalls, overuse and other rows, the payment side the payments, over all orders |
| UnpaidList.NetOnFields | scripts/compare-dashboard-debt.ts:125-127 | What is left on an order is its shortfall by the roles listed beyond the payments on it, never less than nothing |
| UnpaidList.PartsByRole | scripts/compare-dashboard-debt.ts:130-137 | The driver part is the shares on orders of drivers, the branch part those of managers and supervisors, the other part all the rest |
| UnpaidList.ListedIsLess | scripts/compare-dashboard-debt.ts:113-140 | Per customer: the orders of field staff never list more than all orders, and as much if and only if they cover the pool or nothing is left to pay on the others |
| UnpaidList.UnpaidListAgainstDashboard | scripts/compare-dashboard-debt.ts:157-159 | The dashboard script prints its sum as the one of the unpaid list. The list never exceeds the sum, and equals it if and only if, for every customer, the field-staff orders cover the pool or have the same nets as all orders |
| UnpaidList.RunBothScripts | scripts/compare-debt-totals.ts:16-105 | Both scripts on one ledger: the unpaid list exceeds neither collections nor the dashboard sum, with the exact condition for equality with the latter |
| UnpaidList.SupervisedDebtIsUnlisted | scripts/compare-dashboard-debt.ts:157-159 | A concrete ledger: 1 KD a supervisor left unpaid is on the dashboard and not on the unpaid list |
| WalletBackfill.SourceRefInjective | scripts/backfill-wallet-payments.ts:181 | Different orders have different references |
| WalletBackfill.AggregatePerOrder | scripts/backfill-wallet-payments.ts:145-174 | Each order once with the sum of its applied amounts, its earliest time and the customer of its first row that counts; the grand total is the sum of all amounts, and the skipped rows are those of an order without an amount |
| WalletBackfill.TotalsAddUp | scripts/backfill-wallet-payments.ts:145-174 | The aggregated amounts are all the amounts |
| WalletBackfill.CandidatesAreAll | scripts/backfill-wallet-payments.ts:123-144 | Every settlement of an order by the filtered customer is a candidate, exactly as often as the history holds it, and nothing else is |
| WalletBackfill.AggregatesOnFields | scripts/backfill-wallet-payments.ts:145-174 | The aggregated orders are those with a settlement that names an amount, each with the sum over its settlements in the history |
| WalletBackfill.RowsWritten | scripts/backfill-wallet-payments.ts:180-286 | With nobody else writing, the run appends one payment row for each order without one, under the reference, amount, customer and time of that order |
| WalletBackfill.WriteRows | scripts/backfill-wallet-payments.ts:176-286 | The check-then-insert loop, with other writers inserting at any point and failing writes, is the order-by-order step function |
| WalletBackfill.ApplyAllKeeps | scripts/backfill-wallet-payments.ts:180-286 | Rows are only added, references stay unique, and each order is counted once as written, skipped or errored |
| WalletBackfill.EveryOrderHasItsRow | scripts/backfill-wallet-payments.ts:180-286 | After an error-free apply each candidate order has exactly one row, even when another writer wins the race |
| WalletBackfill.RerunWritesNothing | scripts/backfill-wallet-payments.ts:183-200 | A run that finds its rows in place writes nothing and fails nowhere |
| WalletBackfill.QuietRun | scripts/backfill-wallet-payments.ts:180-286 | With nobody else writing, the run adds exactly the missing orders and their amounts, and counts them as written and the others as skipped |
| WalletBackfill.WalletRowMeans | scripts/backfill-wallet-payments.ts:288-300 | The rows the validation adds up are the payments whose reference starts with the wallet prefix, of the filtered customer |
| WalletBackfill.Backfill | scripts/backfill-wallet-payments.ts:123-341 | The script: aggregation, write or dry run with its counters (orders without a row, orders with one), and the drift warning exactly beyond 0.001 KD |
| WalletBackfill.DryRunAgainstApply | scripts/backfill-wallet-payments.ts:288-316 | With nobody else writing, an apply counts what the dry run counts; the dry-run projection exceeds the post-apply total by exactly the amounts of orders that already had a row; from a ledger without such rows the drift is zero |
| WalletBackfill.BackfillTwice | scripts/backfill-wallet-payments.ts:123-341 | A second apply after an error-free first one writes nothing, whoever else writes meanwhile |
| InvoiceBackfill.MatchingIsTheSelection | scripts/backfill-v20-3-true-accounting.ts:101-106 | The queried rows are exactly the non-canceled orders of the filtered customer, each once, in id order |
| InvoiceBackfill.PageContinues | scripts/backfill-v20-3-true-accounting.ts:101-117 | The page fetched at the cursor after k rows is the next slice of the plain result |
| InvoiceBackfill.Backfill | scripts/backfill-v20-3-true-accounting.ts:83-270 | For any page size the cursor walk ends, visits every matching order once in id order, and does what a plain scan does; what the scan posts is IssuancePosting.RunPosts |
| InvoiceBackfill.StepKeeps | scripts/backfill-v20-3-true-accounting.ts:119-270 | One order adds at most one entry, keeps references unique and moves exactly one counter: failed exactly when an eligible order is left without its entry, skipped exactly when it is not eligible |
| InvoiceBackfill.ScanKeeps | scripts/backfill-v20-3-true-accounting.ts:119-270 | Entries are only added, references stay unique, and the four counters add up to the orders visited |
| InvoiceBackfill.EveryOrderIsIssued | scripts/backfill-v20-3-true-accounting.ts:119-270 | After an apply without failures each eligible order has exactly one issuance entry, races included |
| InvoiceBackfill.MadeEntriesBalance | scripts/backfill-v20-3-true-accounting.ts:182-230 | Every entry the run creates has equal debits and credits of the positive total of one visited eligible order, and the created counter counts them |
| IssuancePosting.AccountFound | scripts/backfill-v20-3-true-accounting.ts:178-184 | The look-up gives the id of an active account of the code, the last of several, and nothing exactly when there is none |
| IssuancePosting.MadeEntriesPost | scripts/backfill-v20-3-true-accounting.ts:182-230 | Every entry the run creates debits account 1300 and credits account 4100, as found at that order, by the total of one visited order with a customer and a positive total, and moves no other account |
| IssuancePosting.RunPosts | scripts/backfill-v20-3-true-accounting.ts:119-270 | With nobody else writing, the receivable balance of a customer grows by exactly the orders issued, revenue falls by as much, and every other account stays |
| IssuancePosting.BackfillPosts | scripts/backfill-v20-3-true-accounting.ts:83-270 | The script on a journal nobody else writes to: each customer owes more by exactly the sum of the orders that are not canceled, in the filter, positive and not yet in the journal |
| InvoiceBackfill.QuietGrowth | scripts/backfill-v20-3-true-accounting.ts:198-230 | With nobody else writing, the journal grows by exactly the entries the run made |
| InvoiceBackfill.RerunCreatesNothing | scripts/backfill-v20-3-true-accounting.ts:144-157 | A run over a journal that holds every eligible order creates nothing and fails nowhere |
| InvoiceBackfill.DryRunPredicts | scripts/backfill-v20-3-true-accounting.ts:159-172 | With nobody else writing and the accounts in place, the dry run counts exactly what an apply counts |
| InvoiceBackfill.BackfillTwice | scripts/backfill-v20-3-true-accounting.ts:83-270 | Two applies with any two page sizes: if the first fails nowhere, the second creates nothing and every eligible order is in the journal |
| CashEvidence.TodayIsTheReportDay | src/cash-intelligence/cash-intelligence-v2.service.ts:79-82 | The half-open window of the report day is exactly the instants of that Kuwait day |
| CashEvidence.SeverityIsMonotone | src/cash-intelligence/cash-intelligence-v2.service.ts:698-718 | More money or more days never lower the severity |
| CashEvidence.CriticalNeeds | src/cash-intelligence/cash-intelligence-v2.service.ts:698-718 | Critical takes two days and 20 KD, or one day and more than 200 KD; escalated takes two days and more than 200 KD |
| CashEvidence.WarningNeeds | src/cash-intelligence/cash-intelligence-v2.service.ts:698-718 | Exact thresholds of WARNING, which with the critical ones fix every severity |
| CashEvidence.CountMeansOrdered | src/cash-intelligence/cash-intelligence-v2.service.ts:276-298 | The order counter of a driver is positive exactly when the driver completed an order today, and collected cash is zero otherwise |
| CashEvidence.RemainingIsOut | src/cash-intelligence/cash-intelligence-v2.service.ts:286-291 | On the order fields: the cash still out of a driver is what was paid to the driver plus what was handed over without a shift; with all other completed orders it is all the driver's completed cash |
| CashEvidence.CollectedIsOfTheDay | src/cash-intelligence/cash-intelligence-v2.service.ts:281-285 | The cash collected today is the completed cash of the driver on the Kuwait day of the report |
| CashEvidence.GateMeans | src/cash-intelligence/cash-intelligence-v2.service.ts:365-378 | On the rows: overdue exactly with an open shift past sixteen hours; then active exactly with an order completed on the report day; then historical exactly for aged cash while some order of the driver with a positive price is paid to the driver or handed over without a shift |
| CashEvidence.LastShiftMeans | src/cash-intelligence/cash-intelligence-v2.service.ts:221-222 | Of several shifts under an id the last one counts |
| CashEvidence.LastCustodyMeans | src/cash-intelligence/cash-intelligence-v2.service.ts:224-227 | Of several bags of a shift the last one counts |
| CashEvidence.StageMeans | src/cash-intelligence/engines/stage.classifier.ts:37-58 | Which shift, custody and bank evidence each stage stands for, the handover apart from the driver stage |
| CashEvidence.ActiveDriverActiveBranch | src/cash-intelligence/cash-intelligence-v2.service.ts:241-298 | Across two loops: a driver with an order today makes that driver's branch active |
| CashAnalysis.ShiftById | src/cash-intelligence/cash-intelligence-v2.service.ts:221-222 | The last shift under an id wins |
| CashAnalysis.CustodyByShiftId | src/cash-intelligence/cash-intelligence-v2.service.ts:224-227 | The last bag under a shift wins; bags without a shift are left out |
| CashAnalysis.OpenShiftMaps | src/cash-intelligence/cash-intelligence-v2.service.ts:229-239 | The keys are the drivers with an open shift, the value the earliest start among them |
| CashAnalysis.EarliestDecidesOverdue | src/cash-intelligence/cash-intelligence-v2.service.ts:233-238 | A driver has an overdue shift exactly when the earliest open one is overdue |
| CashAnalysis.BranchActivity | src/cash-intelligence/cash-intelligence-v2.service.ts:242-252 | The set holds exactly the branches with an order completed today |
| CashAnalysis.AggregateDrivers | src/cash-intelligence/cash-intelligence-v2.service.ts:255-298 | Per driver the count and amount of today and the amount still out, updated in place, equal the sums over the orders; what they are on the order fields is CashEvidence.RemainingIsOut and CashEvidence.CollectedIsOfTheDay |
| CashAnalysis.DecideGate | src/cash-intelligence/cash-intelligence-v2.service.ts:352-378 | The gate read off the maps is the gate in terms of the evidence: overdue shift, then order today, then aged balance |
| CashAnalysis.DecideSuppression | src/cash-intelligence/cash-intelligence-v2.service.ts:384-414 | A record raises concern if and only if it is aged and its driver overran a shift, or has no open shift, ordered today and the cash is one day old or not yet in the pipeline; the idle-branch test never changes that |
| CashAnalysis.BuildFlows | src/cash-intelligence/cash-intelligence-v2.service.ts:328-441 | One flow per completed order, with stage, gate, suppression and reason as the evidence defines them |
| CashAnalysis.CompletedOfParts | src/cash-intelligence/cash-intelligence-v2.service.ts:328-330 | The completed orders stay in order, each once: the parts of a list give the parts of the result |
| CashAnomalies.DetectOverdue | src/cash-intelligence/cash-intelligence-v2.service.ts:472-495 | One alert per overdue open shift; on the table fields each names a shift open past sixteen hours, its driver and branch, its age in whole days, and as amount the cash of the day plus the cash paid to the driver or handed over without a shift |
| CashAnomalies.ChainAnomalies | src/cash-intelligence/cash-intelligence-v2.service.ts:516-567 | At most one chain anomaly per flow, decided by the stage; a verified bag always lacks its deposit, and only a deposited one can differ in amount |
| CashAnomalies.FlowAnomalies | src/cash-intelligence/cash-intelligence-v2.service.ts:505-606 | The anomalies of one flow: none when suppressed, banked or younger than 24 hours without an overdue shift |
| CashAnomalies.DetectInFlows | src/cash-intelligence/cash-intelligence-v2.service.ts:460-606 | The pass over the flows finds each order and bag again by its id and collects their anomalies in order |
| CashAnomalies.SumTotals | src/cash-intelligence/cash-intelligence-v2.service.ts:620-635 | New plus aged is total, and the driver, custody and bank locations partition the live cash |
| CashAnomalies.RunAnalysis | src/cash-intelligence/cash-intelligence-v2.service.ts:78-693 | The whole analysis: live flows, shift alerts on the table fields followed by per-flow anomalies, and totals that partition; what the totals are on the orders is CashMeanings.TotalsMean |
| CashAnomalies.AnomalyTakes | src/cash-intelligence/cash-intelligence-v2.service.ts:391-606 | A per-flow anomaly needs aged, unbanked cash and either an overdue driver or a closed shift, an order today by that driver and 24 real hours |
| CashAnomalies.PipelineAlarmsOnce | src/cash-intelligence/cash-intelligence-v2.service.ts:402-414 | For a driver not overdue, VERIFIED and DEPOSIT cash alarms only at one day of age and never escalates |
| CashAnomalies.IdleBranchHidesNoActiveFlow | src/cash-intelligence/cash-intelligence-v2.service.ts:407-411 | In the flows BuildFlows computes, an ACTIVE_FLOW record is hidden only as same-day cash, by an open shift or as pipeline timing, never by the idle-branch test |
| CashAnomalies.KindPinsStage | src/cash-intelligence/cash-intelligence-v2.service.ts:516-567 | Each chain kind occurs at exactly its own stage |
| CashAnomalies.StuckExactly | src/cash-intelligence/cash-intelligence-v2.service.ts:505-521 | Cash at the driver is reported stuck if and only if it raises concern and is a day old or its driver is overdue |
| CashAnomalies.OverdueGateIsReported | src/cash-intelligence/cash-intelligence-v2.service.ts:469-495 | Every record with the overdue gate has a shift alert of its driver in the result |
| CashAnomalies.OneAlertPerDriverIff | src/cash-intelligence/cash-intelligence-v2.service.ts:469-495 | The alerts name each driver once, as the comment says, if and only if no driver has two overdue shifts open |
| CashMeanings.VisibleMeans | src/cash-intelligence/cash-intelligence-v2.service.ts:384-414 | On the rows: which orders raise concern at all, by stage, day, open and overdue shifts, an order today, and 24 hours |
| CashMeanings.ReasonMeans | src/cash-intelligence/cash-intelligence-v2.service.ts:384-414 | On the rows: when each published reason is given |
| CashMeanings.BranchIdleMeans | src/cash-intelligence/cash-intelligence-v2.service.ts:407-411 | On the rows: the idle-branch reason is given exactly to earlier cash of a driver at rest who holds nothing, outside the pipeline, in a named branch where no order was completed on the report day |
| CashMeanings.OrderRaises | src/cash-intelligence/cash-intelligence-v2.service.ts:505-606 | An order raises an anomaly of a kind if and only if it is visible and the rows show the evidence for that kind, each kind at most once, with the price, age, stage and branch of the order |
| CashMeanings.NobodyRaises | src/cash-intelligence/cash-intelligence-v2.service.ts:355-414 | An order without a driver raises nothing |
| CashMeanings.TotalsMean | src/cash-intelligence/cash-intelligence-v2.service.ts:620-635 | The totals are sums over completed orders by stage and by report day or earlier |
| CashClassifier.IndexByDriver | src/cash-monitor/cash-classifier.service.ts:122-129 | Each driver with positive cash is a key and holds exactly its positive flows in order |
| CashClassifier.OldestFlowAgeHours | src/cash-monitor/cash-classifier.service.ts:406-410 | The loop finds the largest age, 0 without flows |
| CashClassifier.CriticalMeans | src/cash-monitor/cash-classifier.service.ts:266-390 | An alert is CRITICAL, and then financial, exactly for a critical anomaly of at least 5 KD that is a chain break or past the grace period |
| CashMeanings.AlertMeans | src/cash-monitor/cash-classifier.service.ts:266-390 | Domain, severity and type of the alert of each anomaly, by its kind, severity, amount of 5 KD and cash of 24 hours |
| CashMeanings.AgeHoursMean | src/cash-intelligence/cash-intelligence-v2.service.ts:765-782 | Published ages are the nearest hundredth of an hour, halves up, never negative |
| CashMeanings.CashAgeMeans | src/cash-monitor/cash-classifier.service.ts:393-410 | The age an anomaly is judged by is that of the oldest cash of its driver; without cash none for an open shift, and 24 hours for each day of age otherwise |
| CashClassifier.EachInOneList | src/cash-monitor/cash-classifier.service.ts:134-157 | The two lists together are all alerts, none lost and none listed twice |
| CashClassifier.ClassifyAll | src/cash-monitor/cash-classifier.service.ts:131-157 | The loop sorts the projected alerts into the two lists by domain, in order |
| CashClassifier.DeriveSystemStatus | src/cash-monitor/cash-classifier.service.ts:412-424 | RED exactly with a CRITICAL financial alert, GREEN exactly when all are INFO |
| CashClassifier.ComposeFromAnalysis | src/cash-monitor/cash-classifier.service.ts:118-261 | Lists, status and driver rows: each driver with cash or an alert once, AT_RISK exactly with a financial alert, and the driver amounts total all positive attributed cash |
| CashClassifier.DriversHoldTheCash | src/cash-monitor/cash-classifier.service.ts:178-240 | No cash is lost between the flows and the driver rows |
| CashClassifier.AssertScenarioContract | src/cash-monitor/cash-dashboard.service.ts:265-304 | Exactly the violations of the contract: each financial alert under 5 KD, each under 24 hours, and RED without a CRITICAL alert; none exactly when all three tests hold |
| CashClassifier.ContractFailsExactly | src/cash-monitor/cash-dashboard.service.ts:265-304 | On classifier output the contract fails if and only if some chain break is under 5 KD or judged by cash under 24 hours |
| CashClassifier.ShiftAlertsStayBelowCritical | src/cash-monitor/cash-classifier.service.ts:291-321 | A shift alert is never CRITICAL, and is financial exactly with at least 5 KD and cash of 24 hours |
| CashClassifier.RedExactly | src/cash-monitor/cash-classifier.service.ts:131-222 | End to end: RED if and only if a critical per-flow anomaly is a chain break or its driver's oldest cash is 24 hours old; each carries at least 20 KD and a day of age |
| CashClassifier.LightIgnoresCompliance | src/cash-monitor/cash-classifier.service.ts:118-261 | Two outputs of the composer with the same financial alerts, in any order, show the same light, whatever their compliance alerts and rows |
| CashVerdicts.DriverCash | src/cash-monitor/cash-classifier.service.ts:122-129 | Over the published flows of the analysis: a driver has flows exactly when an order of that driver holds unbanked cash, and the oldest is past the grace period exactly when one of those orders is 24 hours old after rounding |
| CashVerdicts.OrderTurnsRedIff | src/cash-monitor/cash-classifier.service.ts:131-222 | Over the tables: an order yields a critical financial alert if and only if it is visible, of critical size for its age, and its chain is broken or its driver holds cash a day old |
| CashVerdicts.OrderBreaksContractIff | src/cash-monitor/cash-dashboard.service.ts:265-304 | Over the tables: an order breaks the scenario contract if and only if its visible chain is broken and it is under 5 KD or its driver holds only cash under 24 hours |
| CashVerdicts.Dashboard | src/cash-monitor/cash-dashboard.service.ts:265-304 | Tables to dashboard: RED if and only if some order turns the light red, a contract violation if and only if some order breaks it |
| CashLight.OrderWarnsIff | src/cash-monitor/cash-classifier.service.ts:131-157 | Over the tables: an order keeps the light from green if and only if it is visible, above INFO for its amount and age, and its chain is broken or it has 5 KD and its driver cash a day old |
| CashLight.ShiftAlarmIff | src/cash-monitor/cash-classifier.service.ts:291-321 | Over the tables: an overdue shift keeps the light from green if and only if 5 KD are on its driver and the driver holds cash a day old |
| CashLight.TrafficLightOf | src/cash-monitor/cash-classifier.service.ts:412-424 | Tables to light: RED if and only if an order turns it red, GREEN if and only if no order and no open shift warns; each driver row shows the unbanked cash of its driver |
| CashLight.RowsShowHeldCash | src/cash-monitor/cash-classifier.service.ts:178-240 | Each driver row shows exactly the positive unbanked completed cash of its driver in the order table |
| CashVerdicts.FreshCashTurnsRedIff | src/cash-monitor/cash-classifier.service.ts:1-18 | The header claims cash under 24 hours can never be critical. On a report of the current day it is exactly when more than 200 KD were taken the day before by a driver past the shift cap, are not banked, and the chain is broken or the driver has other cash a day old |
| CashVerdicts.FreshCashCanTurnRed | src/cash-monitor/cash-classifier.service.ts:1-18 | A concrete reading of the tables in which cash of 14 hours turns the light red |
| CashVerdicts.SmallChainBreakBreaksContract | src/cash-monitor/cash-dashboard.service.ts:265-304 | A concrete reading of the tables whose classifier output the dashboard contract rejects: 3 KD verified and never registered |
| CashVerdicts.TwoAlertsForOneDriver | src/cash-intelligence/cash-intelligence-v2.service.ts:469-495 | A concrete reading of the tables with two alerts for one driver: two shifts left open |
| BcryptPool.Pool.constructor | src/auth/bcrypt.service.ts:37-62 | A new pool of the given size with nothing pending |
| BcryptPool.Pool.DispatchJob | src/auth/bcrypt.service.ts:83-99 | A job gets an id never used before and goes to the next worker; an empty pool takes no job |
| BcryptPool.Pool.HandleMessage | src/auth/bcrypt.service.ts:42-48 | A reply settles the pending job of its id and no other; a reply without a job changes nothing |
| BcryptPool.Pool.OnModuleDestroy | src/auth/bcrypt.service.ts:64-70 | Every pending job is rejected in order and nothing stays pending |
| BcryptPool.StepKeeps | src/auth/bcrypt.service.ts:37-99 | Every event keeps each job either pending or settled, never both and never settled twice |
| BcryptPool.EachJobSettlesOnceWithItsOwnReply | src/auth/bcrypt.service.ts:37-99 | In every run each job settles at most once, only with the answer to its own request or by a shutdown, and until then it is pending |
| BcryptPool.EverySettlementIsItsOwn | src/auth/bcrypt.service.ts:37-99 | From the events alone: the job under an id is the one dispatched at that place, and it settles with what its own work came to, an error without text resolving, or, only after a shutdown, is rejected by it |
| BcryptPool.DealtByTurn | src/auth/bcrypt.service.ts:90-91 | A request waits at the worker its id selects in round robin |
| BcryptPool.ShutdownSettlesAll | src/auth/bcrypt.service.ts:64-70 | After a shutdown every job dispatched so far has settled |
| BcryptPool.JobsAfterShutdownHang | src/auth/bcrypt.service.ts:64-99 | Jobs dispatched after a shutdown stay pending for ever, because the worker list is not emptied |
| BcryptPool.DrainedMeansSettled | src/auth/bcrypt.service.ts:37-99 | Without a dying worker or shutdown, drained queues mean no pending job |
| BcryptPool.LoadsDifferByAtMostOne | src/auth/bcrypt.service.ts:90-91 | In every run no worker has been handed more than one job more than another |
| BcryptPool.DefaultPoolSize | src/auth/bcrypt.service.ts:101-109 | Zero workers only on request, otherwise by default between 2 and 16 |
| BcryptPool.DefaultSizeMeans | src/auth/bcrypt.service.ts:101-109 | The default is all processors but four, at least 2 and at most 16, and 2 where the count is unknown |
| BcryptPool.CommentedSizeIff | src/auth/bcrypt.service.ts:21-23 | The size the comment promises agrees with the code for at most 5, or 7 or 8, processors only |
| RefreshTokens.TokenStore.IssueRefreshToken | src/auth/auth.service.ts:411-421 | A session appends one fresh row with the given lifetime exactly when its hash is not taken |
| RefreshTokens.TokenStore.RefreshAccessToken | src/auth/auth.service.ts:233-316 | On the rows: succeeds if and only if a row of the hash is unrevoked, unused and unexpired, the user active without a forced password change, and the new hash free; a deactivated user or a forced change revokes exactly that row, a replay every row of the user, any other failure nothing |
| RefreshTokens.AnswerMeans | src/auth/auth.service.ts:243-281 | Which error a request on a row gets, case by case |
| RefreshTokens.AllRevoked | src/users/users.service.ts:439-443 | A password reset revokes exactly the unrevoked rows of the user |
| RefreshTokens.TokenStore.RevokeRefreshToken | src/auth/auth.service.ts:324-332 | Logout revokes exactly the unrevoked row of the token |
| RefreshTokens.StepKeeps | src/auth/auth.service.ts:233-332 | Every request keeps hashes unique, exactly one unused token per session, and the exchange log equal to the used rows |
| RefreshTokens.ExchangedAtMostOnce | src/auth/auth.service.ts:233-316 | In every run no token is exchanged twice, and each session has exactly one token never used |
| RefreshTokens.UnusedTokensCountSessions | src/auth/auth.service.ts:299-315 | In every run a user has exactly as many never-used tokens as sessions issued to that user |
| RefreshTokens.EveryExchangeIsEarned | src/auth/auth.service.ts:233-316 | In every run, each exchanged token was exchanged by a request of an active user without a forced password change, on a row then unrevoked, unused and unexpired |
| RefreshTokens.RevocationIsPermanent | src/auth/auth.service.ts:233-332 | Rows are never removed, revocation is never undone, and a revoked token is never exchanged |
| RefreshTokens.ReplayLocksOut | src/auth/auth.service.ts:250-259 | A replay is detected exactly on a used, unrevoked, unexpired token, and leaves the user without an unrevoked token |
| RefreshTokens.LockedOutUntilLogin | src/auth/auth.service.ts:233-332 | A user locked out exchanges no token, whatever requests come, until the next session is issued to that user |
| RosterMatch.PrefixTokenMatch | scripts/apply-bank-iban-from-roster.ts:203-213 | The word-by-word loop decides whether one name starts the other, single words only from three letters on |
| RosterMatch.ExactIsStrongest | scripts/apply-bank-iban-from-roster.ts:199-225 | Equal names match under the prefix rule from two words on and under the compact rule from four letters on |
| RosterMatch.Matcher.RunPass | scripts/apply-bank-iban-from-roster.ts:285-312 | One pass over the roster lines; what each line does at its turn is RosterTurns.PassTurns |
| RosterMatch.Matcher.RunSchedule | scripts/apply-bank-iban-from-roster.ts:314-321 | The eight passes in order; which matches they make is RosterTurns.MeantIsFinal |
| RosterTurns.FitsIsCandidate | scripts/apply-bank-iban-from-roster.ts:199-245 | When a user fits a line: equal words, agreeing first words, equal joined letters, or the alias inside the name, in the branch of the section where asked for |
| RosterTurns.PassTurns | scripts/apply-bank-iban-from-roster.ts:285-312 | Each line has its turn: a key with a user is passed over; otherwise no free fitting user changes nothing, the only one is claimed and assigned, several leave the key without a user and report it |
| RosterTurns.MeantIsFinal | scripts/apply-bank-iban-from-roster.ts:274-321 | A key and a user that fit only each other in the first of the eight passes where either fits anything are matched, and the match is final |
| RosterTurns.MatchRoster | scripts/apply-bank-iban-from-roster.ts:274-321 | The matcher run on a roster misses none of those matches |
| RosterMatch.PassesKeepInvariant | scripts/apply-bank-iban-from-roster.ts:274-321 | After any passes claimed users are exactly the assigned ones, no two keys share a user, and each assignment fits one of its passes with every other fitting user claimed |
| RosterMatch.AssignmentsOnlyGrow | scripts/apply-bank-iban-from-roster.ts:289-311 | Assignments and claims only grow from pass to pass |
| RosterMatch.EarlyPassesRespectBranch | scripts/apply-bank-iban-from-roster.ts:291-298 | A key assigned in the first four passes has its user in the branch of its section, when the section was resolved |
| RosterMatch.WriteIbans | scripts/apply-bank-iban-from-roster.ts:351-379 | The write loop; in a dry run nothing changes and the counters are the lines whose number is not stored and those whose number is |
| RosterMatch.WrittenMeans | scripts/apply-bank-iban-from-roster.ts:351-379 | After a run, a user no line writes for keeps what was on file; any other has, but for white space, the number of the last such line |
| RosterMatch.DryRunPredicts | scripts/apply-bank-iban-from-roster.ts:351-379 | With distinct roster keys the dry run counts exactly what the real run updates and leaves |
| RosterMatch.NothingToUpdate | scripts/apply-bank-iban-from-roster.ts:351-379 | A run updates nothing exactly when every matched line finds its number stored |
| RosterMatch.SecondRunUpdatesNothingIff | scripts/apply-bank-iban-from-roster.ts:274-379 | A second full run updates nothing if and only if matched lines of one key agree on the number |
| RosterMatch.RunTwice | scripts/apply-bank-iban-from-roster.ts:274-379 | The script twice: with distinct keys the second run updates no number |

## Left out

- Prisma, Postgres, Redis, HTTP, guards, controllers, seeds, message templates and the mobile and web clients: stores are sequences or maps with their unique keys, query results are inputs or filters over them.
- AuditWriters.AuditLog.Write: an empty user id is not told apart from an unknown one (the code rethrows for it), because ids are UUIDs.
- Audit log: a writer sees the rows committed before it took the lock (READ COMMITTED); columns outside the hash and the JSON text of a payload, a function of the stored payload, are not modelled.
- Base32: only the ASCII part of upper-casing is modelled; other characters with an upper-case form are treated as foreign.
- Totp.VerifyTotp: the number of digits is a natural number, the candidate is present, and the division of the time by the step is exact; the constant-time comparison is equality.
- Kuwait calendar: the range limit of Date and invalid Date values are not modelled.
- DebtRecovery.GetDebtRecoveryReport: texts without the shape of a date, which the request check refuses, are covered by the termination and error cases only; the 20-digit precision of unrounded sums, the trend ratios and the maximum are not modelled, and the amounts and payment methods read from metadata are inputs.
- Fixed4: spellings BigInt accepts beside decimal digits (hexadecimal, inner spaces, a plus sign) are errors in the model.
- BranchLedger.Project: the in-place sort is a function on the rows with the order of names as a parameter; branch names are inputs.
- Reconciliation: scopes, flows, accountability texts and the driver names of the breakdown.
- Debt comparison scripts and the cash pipeline work on binary floating point in the source; the models compute on exact four-decimal integers and say nothing about double rounding. The gross figures of the first script are left out.
- WalletBackfill: performer, role, branch, category and note of a row, and amounts that are not numbers.
- InvoiceBackfill.Backfill: the order table does not change during the run, so the cursor row still matches when the next page is fetched; the actor, line metadata and log lines are left out.
- CashEvidence.Evidence: fullName, shift duration, responsible party and reason texts, the list of ignored cases, the health word and the assessment text; `lastCashActivityAt` is computed by the source and never read.
- CashClassifier.ComposeFromAnalysis: sorting of lists, names, roles, notes and the decision text; the rows are in order of first mention.
- BcryptPool: parsing of the environment variables and the hashing cost; a worker's messages are handled one at a time in any order.
- RefreshTokens.TokenStore.RefreshAccessToken: each request is one atomic step, while the source checks and commits in separate statements; two truly concurrent refreshes of one token are outside the model. The access token and the user row are inputs.
- RosterMatch: Arabic folding and Unicode normalisation are done before; words, folded text and alias hints are inputs, as is the branch found for a section. The report of unmatched lines is left out.
- Other readers of the call center, executive projections and the branch name lookup would add only simple sums.
