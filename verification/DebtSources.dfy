/** What a row of the debt ledger records. */
module DebtSources {
  datatype Source = INVOICE_SHORTFALL | SUBSCRIPTION_OVERUSE | PAYMENT | OTHER_SOURCE
}
