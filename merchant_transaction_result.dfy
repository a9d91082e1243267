/** The reply a merchant receives: a snapshot of one key's balance. */
module MerchantTransactionResults {
  import opened TransactionKeys
  import opened Transactions
  import opened TransactionBalances

  datatype MerchantTransactionResult = MerchantTransactionResult(
    cardId: string,
    merchant: string,
    transactionId: string,
    blocked: int,
    captured: int,
    transactionType: TransactionType)

  /** The constructor: identity fields from the transaction (the key's
      requestId is reported as the transaction id), amounts copied once from
      the key's balance. Being a value, it does not follow later mutations
      of that balance. */
  function FromTransaction(t: Transaction, balance: KeyFunds): (r: MerchantTransactionResult)
    ensures r.cardId == t.transactionKey.cardId && r.transactionId == t.transactionKey.requestId
    ensures r.merchant == t.merchant && r.transactionType == t.transactionType
    ensures r.blocked == balance.blocked && r.captured == balance.captured
  {
    MerchantTransactionResult(
      t.transactionKey.cardId,
      t.merchant,
      t.transactionKey.requestId,
      balance.blocked,
      balance.captured,
      t.transactionType)
  }

  /** Snapshot semantics: a result taken from a live balance object keeps its
      amounts when that object is mutated afterwards. */
  method SnapshotIsDetached(t: Transaction, tb: TransactionBalance, amount: int) returns (r: MerchantTransactionResult)
    modifies tb
    ensures r == FromTransaction(t, old(tb.View()))
    ensures tb.View() == old(tb.View()).Block(amount)
  {
    r := FromTransaction(t, tb.View());
    tb.Block(amount);
  }
}
