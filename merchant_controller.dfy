/** The merchant's entry point: parse the action, build the request, hand it
    to the transaction service. */
module MerchantController {
  import opened Common
  import opened TransactionKeys
  import opened Transactions
  import opened Ledger
  import opened LedgerInvariant
  import opened TransactionServices

  /** `transactionTypeFromString`: the four merchant actions; anything else,
      a load included, is refused. */
  function TransactionTypeFromString(action: string): (r: Result<TransactionType>)
    ensures r.Success? <==> action in {"authorise", "capture", "reverse", "refund"}
    ensures r.Success? ==> r.value != LOAD_FUNDS && ActionName(r.value) == Some(action)
    ensures r.Failure? ==> r.error == UnknownAction(action)
  {
    match action
    case "authorise" => Success(AUTHORISE_TRANSACTION)
    case "capture" => Success(CAPTURE_TRANSACTION_FUNDS)
    case "reverse" => Success(REVERSE_TRANSACTION)
    case "refund" => Success(REFUND_CAPTURED_FUNDS)
    case _ => Failure(UnknownAction(action))
  }

  /** The action a merchant writes for each type; loads have none. */
  function ActionName(transactionType: TransactionType): Option<string>
  {
    match transactionType
    case LOAD_FUNDS => None
    case AUTHORISE_TRANSACTION => Some("authorise")
    case CAPTURE_TRANSACTION_FUNDS => Some("capture")
    case REVERSE_TRANSACTION => Some("reverse")
    case REFUND_CAPTURED_FUNDS => Some("refund")
  }

  /** Parsing and naming are inverse: every merchant type is reached by
      exactly its own action, and every accepted action names its type. */
  lemma ParseNameRoundTrip(transactionType: TransactionType, action: string)
    ensures transactionType != LOAD_FUNDS ==>
      ActionName(transactionType).Some? && TransactionTypeFromString(ActionName(transactionType).value) == Success(transactionType)
    ensures TransactionTypeFromString(action).Success? ==>
      ActionName(TransactionTypeFromString(action).value) == Some(action)
    ensures TransactionTypeFromString(action) == Success(transactionType) <==> ActionName(transactionType) == Some(action)
  {
  }

  /** `buildTransaction`: the key is (transaction id, card id), in that
      order; merchant, amount and type pass through. */
  function BuildTransaction(merchant: string, cardId: string, transactionId: string, amountInPence: int, transactionType: TransactionType): (t: Transaction)
    ensures t.transactionKey.requestId == transactionId && t.transactionKey.cardId == cardId
    ensures t.merchant == merchant && t.amount == amountInPence && t.transactionType == transactionType
    ensures t.id == None
  {
    NewTransaction(TransactionKey(transactionId, cardId), merchant, amountInPence, transactionType)
  }

  /** The request handler: an unknown action is answered without reaching the
      service; a known one is built and handled. */
  function Dispatch(s: LedgerState, registry: set<string>, merchantName: string, action: string,
                    cardId: string, transactionId: string, amountInPence: int): (r: Reply)
    ensures TransactionTypeFromString(action).Failure? ==> r == (s, Failure(UnknownAction(action)))
  {
    match TransactionTypeFromString(action)
    case Failure(e) => (s, Failure(e))
    case Success(transactionType) =>
      HandleTransaction(s, registry, BuildTransaction(merchantName, cardId, transactionId, amountInPence, transactionType))
  }

  /** A merchant request never loads money: whatever it does, the card's
      total is unchanged, and a success is answered with a balance snapshot
      for the merchant's own card and transaction. */
  lemma DispatchNeverLoads(s: LedgerState, registry: set<string>, merchantName: string, action: string,
                           cardId: string, transactionId: string, amountInPence: int)
    ensures var r := Dispatch(s, registry, merchantName, action, cardId, transactionId, amountInPence);
      && CardOf(r.0, cardId).Total() == CardOf(s, cardId).Total()
      && (r.1.Success? ==>
            && r.1.value.Merchant?
            && r.1.value.result.cardId == cardId
            && r.1.value.result.transactionId == transactionId
            && r.1.value.result.merchant == merchantName)
  {
    var r := Dispatch(s, registry, merchantName, action, cardId, transactionId, amountInPence);
    var parsed := TransactionTypeFromString(action);
    if parsed.Success? && r.1.Success? {
      var t := BuildTransaction(merchantName, cardId, transactionId, amountInPence, parsed.value);
      CardBalances.Conservation(CardOf(s, cardId), amountInPence);
      assert CardOf(r.0, cardId) == ApplyToCard(CardOf(s, cardId), t);
    }
  }

  /** Merchant requests keep the service's invariant. */
  lemma DispatchKeepsInv(s: LedgerState, registry: set<string>, merchantName: string, action: string,
                         cardId: string, transactionId: string, amountInPence: int)
    requires Inv(s)
    ensures Inv(Dispatch(s, registry, merchantName, action, cardId, transactionId, amountInPence).0)
  {
    var parsed := TransactionTypeFromString(action);
    if parsed.Success? {
      HandleTransactionKeepsInv(s, registry, BuildTransaction(merchantName, cardId, transactionId, amountInPence, parsed.value));
    }
  }

  /** The merchant endpoint over the live service: it does to the service
      exactly what `Dispatch` says, and the service stays consistent. */
  method HandleRequest(service: TransactionService, merchantName: string, action: string,
                       cardId: string, transactionId: string, amountInPence: int) returns (r: Result<Outcome>)
    requires service.Consistent() && service.users.Valid()
    modifies service, service.cardBalances.Values, service.transactionBalance.Values
    ensures service.Consistent()
    ensures (service.State(), r) == Dispatch(old(service.State()), service.users.cards.Keys, merchantName, action, cardId, transactionId, amountInPence)
  {
    var parsed := TransactionTypeFromString(action);
    if parsed.Failure? {
      return Failure(parsed.error);
    }
    var t := BuildTransaction(merchantName, cardId, transactionId, amountInPence, parsed.value);
    r := service.HandleTransaction(t);
  }
}
