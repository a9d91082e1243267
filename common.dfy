/** Results and failure kinds shared by the prepaid-card ledger model. */
module Common {

  datatype Option<+T> = None | Some(value: T)

  /** Every business failure the services report. The Java code returns a
      human-readable string on the left of an Either; the model keeps only
      which check failed. */
  datatype Error =
    | CardDoesNotExist          // UserService.getCard found no card
    | InvalidAmount             // amount <= 0
    | AlreadyHandled            // duplicate (key, LOAD_FUNDS) or (key, AUTHORISE_TRANSACTION)
    | InsufficientFunds         // authorise: the card cannot block the amount
    | NotAuthorised             // capture/reverse/refund without a prior authorise
    | InsufficientToCapture
    | InsufficientToReverse
    | InsufficientToRefund
    | NoTransactions            // getTransactions on a card without records
    | UnknownAction(action: string)  // merchant action string not recognised
    | DuplicateCard             // the user already owns a card
    | NoCardForUser             // no card is registered for the user

  datatype Result<+T> = Success(value: T) | Failure(error: Error)
}
