/** The immutable transaction record and its type. */
module Transactions {
  import opened Common
  import opened TransactionKeys

  /** The five kinds of money movement; spelled as the Java enum. */
  datatype TransactionType =
    | LOAD_FUNDS
    | AUTHORISE_TRANSACTION
    | CAPTURE_TRANSACTION_FUNDS
    | REVERSE_TRANSACTION
    | REFUND_CAPTURED_FUNDS

  /** A log record. `id` is the generated identifier, absent until the record
      is persisted. There are no setters: a value never changes. */
  datatype Transaction = Transaction(
    id: Option<nat>,
    transactionKey: TransactionKey,
    merchant: string,
    amount: int,
    transactionType: TransactionType)

  /** The four-argument constructor: no validation of the amount, and no id. */
  function NewTransaction(key: TransactionKey, merchant: string, amount: int, transactionType: TransactionType): (t: Transaction)
    ensures t.id == None
    ensures t.transactionKey == key && t.merchant == merchant
    ensures t.amount == amount && t.transactionType == transactionType
  {
    Transaction(None, key, merchant, amount, transactionType)
  }

  /** Persisting a record assigns its generated id and changes nothing else. */
  function Persisted(t: Transaction, id: nat): (p: Transaction)
    ensures p.id == Some(id)
    ensures p.(id := t.id) == t
  {
    t.(id := Some(id))
  }
}
