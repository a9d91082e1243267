# Prepaid card ledger

A Dafny model of a prepaid card service. Users load money onto a card.
Merchants then authorise an amount (it is blocked on the card), capture it,
reverse what is still blocked, or refund what was captured. Every request
is keyed by a request id and a card id.

The service keeps two in-memory aggregates:
- a `CardBalance` per card, with `balance` (available), `blocked` and `captured`;
- a `TransactionBalance` per key, with `blocked` and `captured`.

It also keeps a log of every accepted request, from which the user
controller recomputes the loaded, available and blocked amounts.

The model has two layers:

- **Value layer.** `Ledger` describes each request as a function from state
  to new state and reply. `LedgerInvariant` proves that every request keeps
  the service invariant:
  - the aggregates are the replay of the log;
  - no counter is negative;
  - each card's blocked and captured amounts are the sums over its keys;
  - a key stays at zero until it is authorised;
  - log ids increase.

  `LedgerProperties` states the outcome of each request type, the scenarios
  of the service tests, and what a sequence of requests leaves in the log.
- **Object layer.** `CardBalance`, `TransactionBalance`, `TransactionService`
  and `UserService` are classes whose methods update fields in place. Each
  method is proved to change the abstract state exactly as the value layer
  says.

The code checks that the card exists *before* it checks the amount. A
request for an unknown card with a non-positive amount therefore fails
with the card error. Two more behaviours of the code are kept:
- `computeIfAbsent` creates zero balances for the card and the key even when
  the request then fails its capacity check;
- a repeated load and a repeated authorisation share one "already handled"
  error.

## Model

| member | source | states |
|---|---|---|
| TransactionKeys.Equals | src/main/java/uk/co/chriskurzeja/prepaidcard/model/TransactionKey.java:29-36 | a key equals another object exactly when that object is a key with the same request id and card id |
| TransactionKeys.EqualsIffFieldsEqual | src/main/java/uk/co/chriskurzeja/prepaidcard/model/TransactionKey.java:29-36 | two keys are equal iff both request ids and both card ids are equal |
| TransactionKeys.EqualsIsReflexive | src/main/java/uk/co/chriskurzeja/prepaidcard/model/TransactionKey.java:31 | every key equals itself |
| TransactionKeys.NeverEqualsNullOrOtherClass | src/main/java/uk/co/chriskurzeja/prepaidcard/model/TransactionKey.java:32 | a key never equals null or an object of another class |
| TransactionKeys.Int32 | src/main/java/uk/co/chriskurzeja/prepaidcard/model/TransactionKey.java:39-42 | the 32-bit wrap-around of Java `int` arithmetic: the result is in the `int` range and congruent to the input modulo 2^32 |
| TransactionKeys.StringHash | src/main/java/uk/co/chriskurzeja/prepaidcard/model/TransactionKey.java:39-42 | a string's hash code stays in the 32-bit range |
| TransactionKeys.HashCode | src/main/java/uk/co/chriskurzeja/prepaidcard/model/TransactionKey.java:39-42 | the key's hash code (`31 * (31 + h(requestId)) + h(cardId)`, wrapped) stays in the 32-bit range |
| TransactionKeys.EqualKeysHaveEqualHashCodes | src/main/java/uk/co/chriskurzeja/prepaidcard/model/TransactionKey.java:39-42 | equal keys have equal hash codes |
| Transactions.NewTransaction | src/main/java/uk/co/chriskurzeja/prepaidcard/model/Transaction.java:27-32 | the constructor stores key, merchant, amount and type unchanged, does not validate the amount and leaves the id unset |
| Transactions.Persisted | src/main/java/uk/co/chriskurzeja/prepaidcard/model/Transaction.java:14-16 | persisting assigns the generated id and changes no other field |
| CardBalances.Conservation | src/main/java/uk/co/chriskurzeja/prepaidcard/model/CardBalance.java:13-35 | block, capture, refund and reverse keep `balance + blocked + captured`; load raises it by exactly the amount |
| CardBalances.GuardedTransitionsStayNonNegative | src/main/java/uk/co/chriskurzeja/prepaidcard/model/CardBalance.java:37-51 | from non-negative counters and a positive amount, each transition keeps all three counters non-negative exactly when its `can*` guard holds |
| CardBalances.ReverseThenCaptureOriginalFails | src/test/java/uk/co/chriskurzeja/prepaidcard/model/CardBalanceTest.java:114-120 | after loading and blocking an amount and reversing any positive part of it, the original amount can no longer be captured |
| CardBalances.RefundRestoresBlockingPower | src/test/java/uk/co/chriskurzeja/prepaidcard/model/CardBalanceTest.java:122-131 | a fully blocked amount cannot be blocked again, but after capture and refund it can |
| CardBalances.CardBalance.constructor | src/main/java/uk/co/chriskurzeja/prepaidcard/model/CardBalance.java:9-11 | a new card balance has all three counters at zero |
| CardBalances.CardBalance.Load | src/main/java/uk/co/chriskurzeja/prepaidcard/model/CardBalance.java:13-15 | `balance` rises by the amount; `blocked` and `captured` are unchanged |
| CardBalances.CardBalance.Block | src/main/java/uk/co/chriskurzeja/prepaidcard/model/CardBalance.java:17-20 | the amount moves from `balance` to `blocked`; `captured` is unchanged |
| CardBalances.CardBalance.Capture | src/main/java/uk/co/chriskurzeja/prepaidcard/model/CardBalance.java:22-25 | the amount moves from `blocked` to `captured`; `balance` is unchanged |
| CardBalances.CardBalance.Refund | src/main/java/uk/co/chriskurzeja/prepaidcard/model/CardBalance.java:27-30 | the amount moves from `captured` back to `balance`; `blocked` is unchanged |
| CardBalances.CardBalance.Reverse | src/main/java/uk/co/chriskurzeja/prepaidcard/model/CardBalance.java:32-35 | the amount moves from `blocked` back to `balance`; `captured` is unchanged |
| CardBalances.CardBalance.CanBlock | src/main/java/uk/co/chriskurzeja/prepaidcard/model/CardBalance.java:37-39 | on non-negative counters and a positive amount, holds exactly when blocking keeps every counter non-negative |
| CardBalances.CardBalance.CanCapture | src/main/java/uk/co/chriskurzeja/prepaidcard/model/CardBalance.java:41-43 | on non-negative counters and a positive amount, holds exactly when capturing keeps every counter non-negative |
| CardBalances.CardBalance.CanRefund | src/main/java/uk/co/chriskurzeja/prepaidcard/model/CardBalance.java:45-47 | on non-negative counters and a positive amount, holds exactly when refunding keeps every counter non-negative |
| CardBalances.CardBalance.CanReverse | src/main/java/uk/co/chriskurzeja/prepaidcard/model/CardBalance.java:49-51 | on non-negative counters and a positive amount, holds exactly when reversing keeps every counter non-negative |
| TransactionBalances.TransitionEffects | src/main/java/uk/co/chriskurzeja/prepaidcard/model/TransactionBalance.java:17-32 | block raises `blocked + captured` by the amount, capture preserves it, refund leaves `blocked` and reverse leaves `captured` untouched |
| TransactionBalances.GuardedTransitionsStayNonNegative | src/main/java/uk/co/chriskurzeja/prepaidcard/model/TransactionBalance.java:34-44 | from non-negative counters and a positive amount, block stays non-negative and capture, reverse and refund do exactly when their `can*` guard holds |
| TransactionBalances.TransactionBalance.constructor | src/main/java/uk/co/chriskurzeja/prepaidcard/model/TransactionBalance.java:5-6 | a new key balance has `blocked` and `captured` at zero |
| TransactionBalances.TransactionBalance.Block | src/main/java/uk/co/chriskurzeja/prepaidcard/model/TransactionBalance.java:17-19 | `blocked` rises by the amount and nothing else changes |
| TransactionBalances.TransactionBalance.Capture | src/main/java/uk/co/chriskurzeja/prepaidcard/model/TransactionBalance.java:21-24 | the amount moves from `blocked` to `captured` |
| TransactionBalances.TransactionBalance.Refund | src/main/java/uk/co/chriskurzeja/prepaidcard/model/TransactionBalance.java:26-28 | only `captured` falls; `blocked` is untouched |
| TransactionBalances.TransactionBalance.Reverse | src/main/java/uk/co/chriskurzeja/prepaidcard/model/TransactionBalance.java:30-32 | only `blocked` falls; `captured` is untouched |
| TransactionBalances.TransactionBalance.CanCapture | src/main/java/uk/co/chriskurzeja/prepaidcard/model/TransactionBalance.java:34-36 | on non-negative counters and a positive amount, holds exactly when capturing keeps both counters non-negative |
| TransactionBalances.TransactionBalance.CanRefund | src/main/java/uk/co/chriskurzeja/prepaidcard/model/TransactionBalance.java:38-40 | on non-negative counters and a positive amount, holds exactly when refunding keeps both counters non-negative |
| TransactionBalances.TransactionBalance.CanReverse | src/main/java/uk/co/chriskurzeja/prepaidcard/model/TransactionBalance.java:42-44 | on non-negative counters and a positive amount, holds exactly when reversing keeps both counters non-negative |
| MerchantTransactionResults.FromTransaction | src/main/java/uk/co/chriskurzeja/prepaidcard/model/MerchantTransactionResult.java:22-29 | card id and transaction id come from the key, merchant and type from the transaction, blocked and captured from the key balance |
| MerchantTransactionResults.SnapshotIsDetached | src/main/java/uk/co/chriskurzeja/prepaidcard/model/MerchantTransactionResult.java:26-27 | a snapshot taken before the key balance is mutated keeps the values it was built with |
| KeySums.SumBoundsMembers | src/main/java/uk/co/chriskurzeja/prepaidcard/card/TransactionService.java:25 | the per-card sum over non-negative key balances is non-negative and bounds each member key's blocked and captured amounts |
| Ledger.EnsureCard | src/main/java/uk/co/chriskurzeja/prepaidcard/card/TransactionService.java:156-158 | `computeIfAbsent` on the card map: the card's entry exists afterwards, no card's balance changes, and nothing else changes |
| Ledger.EnsureKey | src/main/java/uk/co/chriskurzeja/prepaidcard/card/TransactionService.java:160-162 | `computeIfAbsent` on the key map: the key's entry exists afterwards and no key's balance changes |
| Ledger.Save | src/main/java/uk/co/chriskurzeja/prepaidcard/card/TransactionService.java:72 | the record is appended with the next generated id; the balances are unchanged |
| Ledger.Recorded | src/main/java/uk/co/chriskurzeja/prepaidcard/card/TransactionService.java:164-178 | the lookup by key and type behind `transactionAlreadyHandled`, `fundsWereNotAuthorisedForTransaction` and the duplicate check of `loadFunds`; its effect on each handler is stated by `LedgerProperties.AcceptedExactly`, `LedgerProperties.LoadIsIdempotent` and `LedgerProperties.UnauthorisedSettlementFails` |
| Ledger.LoadFunds | src/main/java/uk/co/chriskurzeja/prepaidcard/card/TransactionService.java:65-75 | a non-positive amount fails with nothing changed; a failure (including a repeated key) leaves balances and log unchanged; a success adds the amount to the card's available funds alone, appends the request and answers with the load message |
| Ledger.AuthoriseTransaction | src/main/java/uk/co/chriskurzeja/prepaidcard/card/TransactionService.java:77-94 | a non-positive amount fails with nothing changed; a failure leaves balances and log unchanged; a success blocks the amount on its own card and key alone, appends the request and answers with the post-mutation key snapshot |
| Ledger.CaptureFunds | src/main/java/uk/co/chriskurzeja/prepaidcard/card/TransactionService.java:96-114 | a non-positive amount fails with nothing changed; a failure leaves balances and log unchanged; a success captures on its own card and key alone, appends the request and answers with the post-mutation key snapshot |
| Ledger.ReverseAuthorisation | src/main/java/uk/co/chriskurzeja/prepaidcard/card/TransactionService.java:116-134 | a non-positive amount fails with nothing changed; a failure leaves balances and log unchanged; a success releases the block on its own card and key alone, appends the request and answers with the post-mutation key snapshot |
| Ledger.RefundAuthorisation | src/main/java/uk/co/chriskurzeja/prepaidcard/card/TransactionService.java:136-154 | a non-positive amount fails with nothing changed; a failure leaves balances and log unchanged; a success refunds on its own card and key alone, appends the request and answers with the post-mutation key snapshot |
| Ledger.ProcessTransaction | src/main/java/uk/co/chriskurzeja/prepaidcard/card/TransactionService.java:39-54 | the dispatch on the request type carries each handler's promise: a non-positive amount fails with nothing changed, a failure changes no balance and no log entry, a success applies exactly that request |
| Ledger.HandleTransaction | src/main/java/uk/co/chriskurzeja/prepaidcard/card/TransactionService.java:33-54 | an unknown card fails first and changes nothing, then a non-positive amount fails; every failure leaves balances and log unchanged; a success appends exactly the request, applies it to its card and key balances alone, and answers a load with the load message and a merchant request with the post-mutation key snapshot |
| Ledger.CardRecordsMembership | src/main/java/uk/co/chriskurzeja/prepaidcard/card/TransactionService.java:57 | the card's records are exactly the log entries for that card |
| Ledger.CardRecords | src/main/java/uk/co/chriskurzeja/prepaidcard/card/TransactionService.java:57 | `findByTransactionKeyCardId`: never longer than the log; `Ledger.CardRecordsMembership` states that it holds exactly the card's log entries |
| Ledger.KeyRecordsMembership | src/main/java/uk/co/chriskurzeja/prepaidcard/card/TransactionService.java:164-178 | the key's records are exactly the log entries with that key |
| Ledger.GetTransactions | src/main/java/uk/co/chriskurzeja/prepaidcard/card/TransactionService.java:56-63 | fails exactly when the log has no record for the card; otherwise returns that card's records |
| LedgerInvariant.InitialInv | src/main/java/uk/co/chriskurzeja/prepaidcard/card/TransactionService.java:24-25 | the empty service satisfies the invariant: aggregates are the replay of the log, counters non-negative, card blocked and captured equal the sum over its keys, keys stay zero until authorised, log ids increase |
| LedgerInvariant.LoadFundsKeepsInv | src/main/java/uk/co/chriskurzeja/prepaidcard/card/TransactionService.java:65-75 | a load, accepted or not, keeps the invariant |
| LedgerInvariant.MerchantRequestKeepsInv | src/main/java/uk/co/chriskurzeja/prepaidcard/card/TransactionService.java:77-162 | a merchant request, accepted or not, keeps the invariant, including the zero balances created before a later failure |
| LedgerInvariant.HandleTransactionKeepsInv | src/main/java/uk/co/chriskurzeja/prepaidcard/card/TransactionService.java:33-153 | every request, accepted or not, keeps that invariant |
| LedgerInvariant.AppliedKeepsInv | src/main/java/uk/co/chriskurzeja/prepaidcard/card/TransactionService.java:65-153 | applying an admissible request to both aggregates and appending it keeps the invariant |
| LedgerInvariant.EnsureBothKeepsInv | src/main/java/uk/co/chriskurzeja/prepaidcard/card/TransactionService.java:156-162 | creating zero balances on demand keeps the invariant, even when the request later fails |
| LedgerInvariant.CommitIsApplied | src/main/java/uk/co/chriskurzeja/prepaidcard/card/TransactionService.java:84-93 | the handlers' shared success path is the admissible application of the request |
| LedgerInvariant.ReplayAppend | src/main/java/uk/co/chriskurzeja/prepaidcard/card/TransactionService.java:65-153 | replaying one more record applies that record's transition to the replayed balances |
| LedgerProperties.KeyWithinCard | src/main/java/uk/co/chriskurzeja/prepaidcard/card/TransactionService.java:24-25 | under the invariant, a key's blocked and captured amounts never exceed its card's |
| LedgerProperties.AcceptedExactly | src/main/java/uk/co/chriskurzeja/prepaidcard/card/TransactionService.java:33-186 | a request succeeds exactly when the independent acceptance condition per type holds |
| LedgerProperties.LoadIsIdempotent | src/main/java/uk/co/chriskurzeja/prepaidcard/card/TransactionService.java:65-75 | a repeated load with the same key fails as already handled and the balance reflects one load |
| LedgerProperties.AuthoriseOutcome | src/main/java/uk/co/chriskurzeja/prepaidcard/card/TransactionService.java:77-94 | an authorisation succeeds iff it is new and the card can block it; the answer shows the amount blocked and nothing captured; its repeat fails as already handled |
| LedgerProperties.UnauthorisedSettlementFails | src/main/java/uk/co/chriskurzeja/prepaidcard/card/TransactionService.java:172-178 | capture, reverse and refund without a recorded authorisation fail with the card, amount or not-authorised error and change nothing |
| LedgerProperties.SettlementOutcome | src/main/java/uk/co/chriskurzeja/prepaidcard/card/TransactionService.java:96-154 | after an authorisation, capture, reverse and refund succeed iff the key (and so the card) holds enough blocked or captured funds |
| LedgerProperties.AuthorisedState | src/test/java/uk/co/chriskurzeja/prepaidcard/card/TransactionServiceTest.java:51-60 | load 1000 then authorise 1000 leaves the card with 1000 blocked and the key with 1000 blocked |
| LedgerProperties.ReverseThenCapture | src/test/java/uk/co/chriskurzeja/prepaidcard/card/TransactionServiceTest.java:258-279 | after reversing 333 of 1000, capturing 1000 fails and capturing 667 succeeds |
| LedgerProperties.RepeatedCapture | src/test/java/uk/co/chriskurzeja/prepaidcard/card/TransactionServiceTest.java:187-202 | captures repeat without a duplicate check: two captures of 333 answer with the accumulated snapshots |
| LedgerProperties.AuthorisedScenarios | src/test/java/uk/co/chriskurzeja/prepaidcard/card/TransactionServiceTest.java:258-279 | the two scenarios hold from the service's initial state |
| LedgerProperties.RunKeepsInv | src/main/java/uk/co/chriskurzeja/prepaidcard/card/TransactionService.java:33-153 | any sequence of requests keeps the invariant |
| LedgerProperties.StepLog | src/main/java/uk/co/chriskurzeja/prepaidcard/card/TransactionService.java:33-154 | one request adds its own record with the next id to the log when it goes through and nothing otherwise |
| LedgerProperties.RunLog | src/main/java/uk/co/chriskurzeja/prepaidcard/card/TransactionService.java:65-153 | the log after a sequence of requests is the old log followed by exactly the accepted requests, in order |
| LedgerProperties.Reachable | src/main/java/uk/co/chriskurzeja/prepaidcard/card/TransactionService.java:24-25 | from the empty service, after any requests, the invariant holds and the log is exactly the accepted requests |
| UserCardController.FilterMapReduceIsSum | src/main/java/uk/co/chriskurzeja/prepaidcard/controllers/UserCardController.java:91-97 | the stream pipeline is the sum of the mapped values of the records passing the filter |
| UserCardController.FilterMapReduceAppend | src/main/java/uk/co/chriskurzeja/prepaidcard/controllers/UserCardController.java:91-97 | the pipeline is additive over concatenation of record lists |
| UserCardController.FilterMapReduceNonePass | src/main/java/uk/co/chriskurzeja/prepaidcard/controllers/UserCardController.java:91-97 | when no record passes the filter the pipeline yields 0 |
| UserCardController.ReduceIsSum | src/main/java/uk/co/chriskurzeja/prepaidcard/controllers/UserCardController.java:95-96 | `reduce` is empty for an empty list and the sum otherwise |
| UserCardController.Reduce | src/main/java/uk/co/chriskurzeja/prepaidcard/controllers/UserCardController.java:95 | `reduce((a, b) -> a + b)` is empty exactly for an empty stream; `ReduceIsSum` gives its value |
| UserCardController.FilterMapReduce | src/main/java/uk/co/chriskurzeja/prepaidcard/controllers/UserCardController.java:91-97 | `filterMapReduceTransactions`; `FilterMapReduceIsSum` proves it is the sum of the mapped values of the records passing the filter, 0 when none passes |
| UserCardController.AmountLoaded | src/main/java/uk/co/chriskurzeja/prepaidcard/controllers/UserCardController.java:72-75 | `getAmountLoaded`; `LoadedIsReplayedTotal` proves it equals the replayed `balance + blocked + captured` |
| UserCardController.AmountAvailable | src/main/java/uk/co/chriskurzeja/prepaidcard/controllers/UserCardController.java:77-82 | `getAmountAvailable`; `AvailableIsReplayedBalance` proves it equals the replayed balance |
| UserCardController.AmountBlocked | src/main/java/uk/co/chriskurzeja/prepaidcard/controllers/UserCardController.java:84-89 | `getAmountBlocked` as written; `AmountBlockedCountsRefunds` proves it is the replayed blocked amount minus the refunded total |
| UserCardController.AvailableIsReplayedBalance | src/main/java/uk/co/chriskurzeja/prepaidcard/controllers/UserCardController.java:77-82 | the available read-out equals the card balance replayed from the records |
| UserCardController.LoadedIsReplayedTotal | src/main/java/uk/co/chriskurzeja/prepaidcard/controllers/UserCardController.java:72-75 | the loaded read-out equals the replayed `balance + blocked + captured` |
| UserCardController.AmountBlockedCountsRefunds | src/main/java/uk/co/chriskurzeja/prepaidcard/controllers/UserCardController.java:84-89 | the blocked read-out as written is the replayed blocked amount minus the refunded total |
| UserCardController.OutstandingIsReplayedBlocked | src/main/java/uk/co/chriskurzeja/prepaidcard/controllers/UserCardController.java:84-89 | the corrected blocked read-out equals the replayed blocked amount |
| UserCardController.ReadOutsMatchLiveBalance | src/main/java/uk/co/chriskurzeja/prepaidcard/controllers/UserCardController.java:72-89 | over the service's log, loaded, available and corrected blocked read-outs equal the live card balance, and the as-written one falls short by the refunds |
| UserCardController.RefundBreaksBlockedReadOut | src/main/java/uk/co/chriskurzeja/prepaidcard/controllers/UserCardController.java:84-89 | once a card has a refund, the as-written blocked read-out is below the live blocked amount, while the corrected one equals it |
| UserCardController.BlockedReadOutAfterRefund | src/main/java/uk/co/chriskurzeja/prepaidcard/controllers/UserCardController.java:84-89 | load, authorise, capture and refund 100: nothing is blocked, yet the as-written read-out says -100 |
| UserCardController.LoadMoney | src/main/java/uk/co/chriskurzeja/prepaidcard/controllers/UserCardController.java:41-47 | the load request is keyed (request id, card id), merchant "user", type load, with the amount unchanged |
| UserCardController.LoadMoneyRequest | src/main/java/uk/co/chriskurzeja/prepaidcard/controllers/UserCardController.java:40-50 | the endpoint does to the live service exactly what handling the built load request specifies |
| UserCardController.LoadMoneyRaisesAmountLoaded | src/main/java/uk/co/chriskurzeja/prepaidcard/controllers/UserCardController.java:40-50 | a load succeeds iff the card exists, the amount is positive and the key is new, and the loaded read-out rises by exactly the accepted amount |
| MerchantController.TransactionTypeFromString | src/main/java/uk/co/chriskurzeja/prepaidcard/controllers/MerchantController.java:46-58 | accepts exactly the four action strings, yielding the type whose action name is that string, never a load; anything else fails naming the action |
| MerchantController.ParseNameRoundTrip | src/main/java/uk/co/chriskurzeja/prepaidcard/controllers/MerchantController.java:46-58 | parsing and naming the merchant types are inverse |
| MerchantController.BuildTransaction | src/main/java/uk/co/chriskurzeja/prepaidcard/controllers/MerchantController.java:61-68 | the key is (transaction id, card id); merchant, amount and type pass through; no id yet |
| MerchantController.Dispatch | src/main/java/uk/co/chriskurzeja/prepaidcard/controllers/MerchantController.java:37-43 | an unknown action is answered without reaching the service and changes nothing |
| MerchantController.DispatchNeverLoads | src/main/java/uk/co/chriskurzeja/prepaidcard/controllers/MerchantController.java:37-43 | a merchant request never changes the card's total and a success answers for the merchant's own card and transaction |
| MerchantController.DispatchKeepsInv | src/main/java/uk/co/chriskurzeja/prepaidcard/controllers/MerchantController.java:37-43 | merchant requests keep the service invariant |
| MerchantController.HandleRequest | src/main/java/uk/co/chriskurzeja/prepaidcard/controllers/MerchantController.java:29-44 | the endpoint does to the live service exactly what `Dispatch` specifies and keeps it consistent |
| TransactionServices.TransactionService.constructor | src/main/java/uk/co/chriskurzeja/prepaidcard/card/TransactionService.java:24-31 | a new service has empty balance maps and an empty log, and satisfies the invariant |
| TransactionServices.TransactionService.BalanceForCard | src/main/java/uk/co/chriskurzeja/prepaidcard/card/TransactionService.java:156-158 | returns the card's existing balance object or a fresh zero one stored under the card; the abstract state becomes `EnsureCard` |
| TransactionServices.TransactionService.BalanceForKey | src/main/java/uk/co/chriskurzeja/prepaidcard/card/TransactionService.java:160-162 | returns the key's existing balance object or a fresh zero one; the abstract state becomes `EnsureKey` |
| TransactionServices.TransactionService.Save | src/main/java/uk/co/chriskurzeja/prepaidcard/card/TransactionService.java:72 | appends the record with the next id and advances the id |
| TransactionServices.TransactionService.LoadFunds | src/main/java/uk/co/chriskurzeja/prepaidcard/card/TransactionService.java:65-75 | mutates the objects and the log exactly as `Ledger.LoadFunds` specifies |
| TransactionServices.TransactionService.AuthoriseTransaction | src/main/java/uk/co/chriskurzeja/prepaidcard/card/TransactionService.java:77-94 | exactly as `Ledger.AuthoriseTransaction` specifies |
| TransactionServices.TransactionService.CaptureFunds | src/main/java/uk/co/chriskurzeja/prepaidcard/card/TransactionService.java:96-114 | exactly as `Ledger.CaptureFunds` specifies |
| TransactionServices.TransactionService.ReverseAuthorisation | src/main/java/uk/co/chriskurzeja/prepaidcard/card/TransactionService.java:116-134 | exactly as `Ledger.ReverseAuthorisation` specifies |
| TransactionServices.TransactionService.RefundAuthorisation | src/main/java/uk/co/chriskurzeja/prepaidcard/card/TransactionService.java:136-154 | exactly as `Ledger.RefundAuthorisation` specifies |
| TransactionServices.TransactionService.ProcessTransaction | src/main/java/uk/co/chriskurzeja/prepaidcard/card/TransactionService.java:39-54 | exactly as `Ledger.ProcessTransaction` specifies |
| TransactionServices.TransactionService.HandleTransaction | src/main/java/uk/co/chriskurzeja/prepaidcard/card/TransactionService.java:33-37 | exactly as `Ledger.HandleTransaction` specifies over the user service's cards, and the service invariant is kept |
| TransactionServices.TransactionService.GetTransactions | src/main/java/uk/co/chriskurzeja/prepaidcard/card/TransactionService.java:56-63 | answers exactly as `Ledger.GetTransactions` on the current log |
| UserServices.UserService.constructor | src/main/java/uk/co/chriskurzeja/prepaidcard/card/UserService.java:22-24 | an empty card store, which satisfies the one-card-per-user invariant |
| UserServices.UserService.CreateCardForUser | src/main/java/uk/co/chriskurzeja/prepaidcard/card/UserService.java:26-33 | a user who already has a card gets a duplicate failure and the store is unchanged; otherwise exactly one card for the user is stored under the new id, which is returned and then found for the user; the invariant is kept |
| UserServices.UserService.UserIds | src/main/java/uk/co/chriskurzeja/prepaidcard/card/UserService.java:39-43 | exactly the users that own a stored card |
| UserServices.UserService.CardIdForUser | src/main/java/uk/co/chriskurzeja/prepaidcard/card/UserService.java:45-49 | fails exactly for a user without a card; otherwise the id of a stored card of that user |
| UserServices.UserService.GetCard | src/main/java/uk/co/chriskurzeja/prepaidcard/card/UserService.java:51-55 | fails exactly for an unknown id; otherwise the stored card with that id |
| UserServices.UserServiceScenario | src/test/java/uk/co/chriskurzeja/prepaidcard/card/UserServiceTest.java:30-86 | the test fixture and cases run on one service: the first card is created under its id, a user without a card has no card id, the card is found by id and for its owner, an unknown id is not found, a second card for the same user is refused, the other user's card is created, and exactly both users are listed |
| UserServices.UserService.HasCard | src/main/java/uk/co/chriskurzeja/prepaidcard/card/UserService.java:27 | `existsCardByUserId`: its meaning is fixed by the contracts that use it: `UserIds` lists exactly the users for whom it holds, and `CardIdForUser` fails exactly when it does not |

## Left out

- Ledger.GetTransactions: returns a card's records in log order. The repository query behind it (`TransactionRepository.java:14`) promises no order, so the model fixes one; the read-outs are sums and do not depend on it.
- HTTP plumbing: Spring routing, `ResponseEntity` mapping, `EitherUtils` and `AdminController`. The read-out endpoints (`UserCardController.java:52-70`) only map `getTransactions` through the read-outs; `createCard` only forwards to the user service.
- JPA repositories: the transaction repository is the `log` sequence with an id counter, and the card repository is a map from card id to card. A `save` that overwrites a card under an existing id is modelled as a map update.
- UUID generation for new cards (`Card.java:21`): the new id is a parameter.
- Java `long` overflow: amounts and counters are unbounded integers.
- Concurrency: the unsynchronised `HashMap`s are modelled single-threaded.
- Restart: the in-memory aggregates are not rebuilt from the log.
- Error wording: failures are constructors of an `Error` datatype, not strings.
- The `default` branch of `processTransaction` (`TransactionService.java:51-52`) cannot be reached with a five-constructor type, so it is absent.
- Null fields and the JPA no-argument constructors.
- `PrepaidcardApplication` seed data, which bypasses the aggregates.
- UserServices.UserService.CardIdForUser: requires the one-card-per-user invariant; a store that broke it would make the JPA lookup throw, which is not modelled.
- TransactionKeys.StringHash: its contract states only the 32-bit range. Its body folds over Dafny characters, which agree with Java's UTF-16 code units only inside the Basic Multilingual Plane.

## Findings

| source | as written | input that shows it | evidently intended | confidence | as-written member | corrected member |
|---|---|---|---|---|---|---|
| src/main/java/uk/co/chriskurzeja/prepaidcard/controllers/UserCardController.java:84-89 | the blocked read-out keeps every non-load record and subtracts refund amounts along with captures and reversals | load 100, authorise 100, capture 100, refund 100: the read-out says -100 while the card has 0 blocked | a refund moves captured money back to the balance and never touches `blocked`, so refunds should be left out of the blocked read-out | not executed | UserCardController.AmountBlocked, shown by UserCardController.BlockedReadOutAfterRefund and UserCardController.RefundBreaksBlockedReadOut | UserCardController.OutstandingBlocked, proved equal to the live blocked amount by UserCardController.OutstandingIsReplayedBlocked and UserCardController.ReadOutsMatchLiveBalance |
