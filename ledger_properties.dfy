/** What the transaction service promises its callers, proved over the
    value-level specification: the outcome of each kind of request, the
    scenarios the service's tests walk through, and runs of many requests. */
module LedgerProperties {
  import opened Common
  import opened TransactionKeys
  import opened Transactions
  import opened CardBalances
  import opened TransactionBalances
  import opened MerchantTransactionResults
  import opened KeySums
  import opened Ledger
  import opened LedgerInvariant

  // ---------------------------------------------------------------------
  // Consequences of the invariant.

  /** No counter is negative, and a key never holds more than its card. This
      makes the card-level checks of capture, reverse and refund redundant. */
  lemma KeyWithinCard(s: LedgerState, key: TransactionKey)
    requires Inv(s)
    ensures CardOf(s, key.cardId).NonNegative() && KeyOf(s, key).NonNegative()
    ensures KeyOf(s, key).blocked <= CardOf(s, key.cardId).blocked
    ensures KeyOf(s, key).captured <= CardOf(s, key.cardId).captured
  {
    assert MatchesKeys(s, key.cardId);
    if key in s.keys {
      var ks := KeysOfCard(s.keys, key.cardId);
      SumBoundsMembers(s.keys, ks);
    }
  }

  // ---------------------------------------------------------------------
  // One request at a time.

  /** When the service accepts a request, stated from the request and the
      aggregates alone: a stored card, a positive amount, a new load or
      authorisation, or an authorised settlement that both the card and the
      key can cover. */
  predicate Accepts(s: LedgerState, registry: set<string>, t: Transaction)
  {
    var c, k, a := t.transactionKey.cardId, t.transactionKey, t.amount;
    && c in registry && a > 0
    && match t.transactionType
       case LOAD_FUNDS => !Recorded(s.log, k, LOAD_FUNDS)
       case AUTHORISE_TRANSACTION => !Recorded(s.log, k, AUTHORISE_TRANSACTION) && CardOf(s, c).CanBlock(a)
       case CAPTURE_TRANSACTION_FUNDS => Recorded(s.log, k, AUTHORISE_TRANSACTION) && CardOf(s, c).CanCapture(a) && KeyOf(s, k).CanCapture(a)
       case REVERSE_TRANSACTION => Recorded(s.log, k, AUTHORISE_TRANSACTION) && CardOf(s, c).CanReverse(a) && KeyOf(s, k).CanReverse(a)
       case REFUND_CAPTURED_FUNDS => Recorded(s.log, k, AUTHORISE_TRANSACTION) && CardOf(s, c).CanRefund(a) && KeyOf(s, k).CanRefund(a)
  }

  lemma AcceptedExactly(s: LedgerState, registry: set<string>, t: Transaction)
    ensures HandleTransaction(s, registry, t).1.Success? <==> Accepts(s, registry, t)
  {
  }

  /** A load is applied once per key: it succeeds exactly when the amount is
      positive and the key has not loaded before, raises the balance by the
      amount, and the same request a second time is refused. */
  lemma LoadIsIdempotent(s: LedgerState, registry: set<string>, t: Transaction)
    requires t.transactionType == LOAD_FUNDS && t.transactionKey.cardId in registry
    ensures var r := HandleTransaction(s, registry, t);
      && (r.1.Success? <==> t.amount > 0 && !Recorded(s.log, t.transactionKey, LOAD_FUNDS))
      && (t.amount > 0 && Recorded(s.log, t.transactionKey, LOAD_FUNDS) ==> r == (s, Failure(AlreadyHandled)))
      && (r.1.Success? ==> r.1.value == FundsLoaded)
      && (r.1.Success? ==> CardOf(r.0, t.transactionKey.cardId).balance == CardOf(s, t.transactionKey.cardId).balance + t.amount)
      && (r.1.Success? ==> HandleTransaction(r.0, registry, t) == (r.0, Failure(AlreadyHandled)))
  {
    var r := HandleTransaction(s, registry, t);
    if r.1.Success? {
      RecordedAppend(s.log, Persisted(t, s.nextId), t.transactionKey, LOAD_FUNDS);
    }
  }

  /** An authorisation succeeds exactly when it is new for its key and the
      card's available balance covers it; it moves the amount from available
      to blocked and replies with a snapshot holding just that amount. */
  lemma AuthoriseOutcome(s: LedgerState, registry: set<string>, t: Transaction)
    requires Inv(s)
    requires t.transactionType == AUTHORISE_TRANSACTION && t.transactionKey.cardId in registry && t.amount > 0
    ensures var r, c := HandleTransaction(s, registry, t), t.transactionKey.cardId;
      && (r.1.Success? <==> !Recorded(s.log, t.transactionKey, AUTHORISE_TRANSACTION) && CardOf(s, c).CanBlock(t.amount))
      && (Recorded(s.log, t.transactionKey, AUTHORISE_TRANSACTION) ==> r.1 == Failure(AlreadyHandled))
      && (r.1.Failure? ==> r.1.error in {AlreadyHandled, InsufficientFunds})
      && (r.1.Success? ==>
            && CardOf(r.0, c).balance == CardOf(s, c).balance - t.amount
            && CardOf(r.0, c).blocked == CardOf(s, c).blocked + t.amount
            && r.1.value.Merchant?
            && r.1.value.result.blocked == t.amount && r.1.value.result.captured == 0
            && HandleTransaction(r.0, registry, t).1 == Failure(AlreadyHandled))
  {
    var r := HandleTransaction(s, registry, t);
    if r.1.Success? {
      assert KeyOf(s, t.transactionKey) == NoKeyFunds;
      RecordedAppend(s.log, Persisted(t, s.nextId), t.transactionKey, AUTHORISE_TRANSACTION);
    }
  }

  /** Capture, reverse and refund need an earlier authorisation for the same
      key; without one they fail whatever the amount and change nothing. */
  lemma UnauthorisedSettlementFails(s: LedgerState, registry: set<string>, t: Transaction)
    requires t.transactionType in {CAPTURE_TRANSACTION_FUNDS, REVERSE_TRANSACTION, REFUND_CAPTURED_FUNDS}
    requires !Recorded(s.log, t.transactionKey, AUTHORISE_TRANSACTION)
    ensures HandleTransaction(s, registry, t).0 == s
    ensures HandleTransaction(s, registry, t).1 ==
      Failure(if t.transactionKey.cardId !in registry then CardDoesNotExist
              else if t.amount <= 0 then InvalidAmount
              else NotAuthorised)
  {
  }

  /** How much of the key's balance a settlement draws on: the captured part
      for a refund, the blocked part otherwise. */
  function Available(h: KeyFunds, transactionType: TransactionType): int
  {
    if transactionType == REFUND_CAPTURED_FUNDS then h.captured else h.blocked
  }

  /** An authorised settlement succeeds exactly when the key's own balance
      covers it; it then applies to both the card and the key. Nothing
      prevents repeating it, so repeats accumulate. */
  lemma SettlementOutcome(s: LedgerState, registry: set<string>, t: Transaction)
    requires Inv(s)
    requires t.transactionType in {CAPTURE_TRANSACTION_FUNDS, REVERSE_TRANSACTION, REFUND_CAPTURED_FUNDS}
    requires t.transactionKey.cardId in registry && t.amount > 0
    requires Recorded(s.log, t.transactionKey, AUTHORISE_TRANSACTION)
    ensures var r, c, k := HandleTransaction(s, registry, t), t.transactionKey.cardId, t.transactionKey;
      && (r.1.Success? <==> Available(KeyOf(s, k), t.transactionType) >= t.amount)
      && (r.1.Success? ==>
            && CardOf(r.0, c) == ApplyToCard(CardOf(s, c), t)
            && KeyOf(r.0, k) == ApplyToKey(KeyOf(s, k), t)
            && r.1.value == Merchant(FromTransaction(t, KeyOf(r.0, k))))
      && (r.1.Failure? ==> r.1.error in {InsufficientToCapture, InsufficientToReverse, InsufficientToRefund})
  {
    KeyWithinCard(s, t.transactionKey);
  }

  // ---------------------------------------------------------------------
  // The service's test scenarios: every request uses request id "request"
  // and merchant "user" on a stored card whose id the store generated.

  function Request(card: string, transactionType: TransactionType, amount: int): Transaction
  {
    NewTransaction(TransactionKey("request", card), "user", amount, transactionType)
  }

  /** The tests' set-up followed by an authorisation: load 1000, then
      authorise all of it. */
  function Authorised(registry: set<string>, card: string): LedgerState
  {
    var s1 := HandleTransaction(Initial, registry, Request(card, LOAD_FUNDS, 1000)).0;
    HandleTransaction(s1, registry, Request(card, AUTHORISE_TRANSACTION, 1000)).0
  }

  lemma AuthorisedState(registry: set<string>, card: string)
    requires card in registry
    ensures var s := Authorised(registry, card);
      && Recorded(s.log, TransactionKey("request", card), AUTHORISE_TRANSACTION)
      && CardOf(s, card) == Funds(0, 1000, 0)
      && KeyOf(s, TransactionKey("request", card)) == KeyFunds(1000, 0)
  {
    var load, auth := Request(card, LOAD_FUNDS, 1000), Request(card, AUTHORISE_TRANSACTION, 1000);
    var s1 := HandleTransaction(Initial, registry, load).0;
    assert s1.log == [Persisted(load, 1)];
    assert !Recorded(s1.log, auth.transactionKey, AUTHORISE_TRANSACTION);
    var s2 := HandleTransaction(s1, registry, auth).0;
    assert s2.log[1] == Persisted(auth, 2);
  }

  /** Reversing a third of an authorisation of 1000 leaves too little
      blocked to capture the original amount, and exactly enough to capture
      the rest. */
  lemma ReverseThenCapture(s: LedgerState, registry: set<string>, card: string)
    requires card in registry && Recorded(s.log, TransactionKey("request", card), AUTHORISE_TRANSACTION)
    requires CardOf(s, card) == Funds(0, 1000, 0) && KeyOf(s, TransactionKey("request", card)) == KeyFunds(1000, 0)
    ensures var r := HandleTransaction(s, registry, Request(card, REVERSE_TRANSACTION, 333));
      && r.1.Success?
      && HandleTransaction(r.0, registry, Request(card, CAPTURE_TRANSACTION_FUNDS, 1000)).1 == Failure(InsufficientToCapture)
      && HandleTransaction(r.0, registry, Request(card, CAPTURE_TRANSACTION_FUNDS, 667)).1.Success?
  {
    var reverse := Request(card, REVERSE_TRANSACTION, 333);
    var key := reverse.transactionKey;
    var r := HandleTransaction(s, registry, reverse);
    assert r == ReverseAuthorisation(s, reverse);
    assert r.1.Success?;
    RecordedAppend(s.log, Persisted(reverse, s.nextId), key, AUTHORISE_TRANSACTION);
    assert CardOf(r.0, card) == Funds(333, 667, 0) && KeyOf(r.0, key) == KeyFunds(667, 0);
  }

  /** Two captures of a third of an authorisation of 1000 both succeed, the
      second reporting the accumulated captured amount. */
  lemma RepeatedCapture(s: LedgerState, registry: set<string>, card: string)
    requires card in registry && Recorded(s.log, TransactionKey("request", card), AUTHORISE_TRANSACTION)
    requires CardOf(s, card) == Funds(0, 1000, 0) && KeyOf(s, TransactionKey("request", card)) == KeyFunds(1000, 0)
    ensures var capture := Request(card, CAPTURE_TRANSACTION_FUNDS, 333);
      var r1 := HandleTransaction(s, registry, capture);
      var r2 := HandleTransaction(r1.0, registry, capture);
      && r1.1 == Success(Merchant(MerchantTransactionResult(card, "user", "request", 667, 333, CAPTURE_TRANSACTION_FUNDS)))
      && r2.1 == Success(Merchant(MerchantTransactionResult(card, "user", "request", 334, 666, CAPTURE_TRANSACTION_FUNDS)))
  {
    var capture := Request(card, CAPTURE_TRANSACTION_FUNDS, 333);
    var key := capture.transactionKey;
    var r1 := HandleTransaction(s, registry, capture);
    assert r1 == CaptureFunds(s, capture);
    assert r1.1.Success?;
    RecordedAppend(s.log, Persisted(capture, s.nextId), key, AUTHORISE_TRANSACTION);
    assert CardOf(r1.0, card) == Funds(0, 667, 333) && KeyOf(r1.0, key) == KeyFunds(667, 333);
    assert HandleTransaction(r1.0, registry, capture) == CaptureFunds(r1.0, capture);
  }

  /** Both scenarios, from the state the tests set up. */
  lemma AuthorisedScenarios(registry: set<string>, card: string)
    requires card in registry
    ensures var r := HandleTransaction(Authorised(registry, card), registry, Request(card, REVERSE_TRANSACTION, 333));
      && r.1.Success?
      && HandleTransaction(r.0, registry, Request(card, CAPTURE_TRANSACTION_FUNDS, 1000)).1.Failure?
      && HandleTransaction(r.0, registry, Request(card, CAPTURE_TRANSACTION_FUNDS, 667)).1.Success?
    ensures HandleTransaction(Authorised(registry, card), registry, Request(card, CAPTURE_TRANSACTION_FUNDS, 333)).1.Success?
  {
    var s := Authorised(registry, card);
    AuthorisedState(registry, card);
    ReverseThenCapture(s, registry, card);
    RepeatedCapture(s, registry, card);
  }

  // ---------------------------------------------------------------------
  // Runs of requests.

  /** Handle the requests in order, collecting the replies. */
  function Run(s: LedgerState, registry: set<string>, ts: seq<Transaction>): (r: (LedgerState, seq<Result<Outcome>>))
    ensures |r.1| == |ts|
    decreases |ts|
  {
    if ts == [] then (s, [])
    else
      var first := HandleTransaction(s, registry, ts[0]);
      var rest := Run(first.0, registry, ts[1..]);
      (rest.0, [first.1] + rest.1)
  }

  /** The requests whose reply was a success, in order. */
  function Accepted(ts: seq<Transaction>, replies: seq<Result<Outcome>>): seq<Transaction>
    requires |ts| == |replies|
  {
    if ts == [] then []
    else (if replies[0].Success? then [ts[0]] else []) + Accepted(ts[1..], replies[1..])
  }

  /** Records without their generated ids. */
  function Unpersisted(log: seq<Transaction>): (r: seq<Transaction>)
    ensures |r| == |log|
  {
    if log == [] then [] else [log[0].(id := None)] + Unpersisted(log[1..])
  }

  lemma {:induction false} UnpersistedAppend(a: seq<Transaction>, b: seq<Transaction>)
    ensures Unpersisted(a + b) == Unpersisted(a) + Unpersisted(b)
  {
    if a == [] {
      assert a + b == b;
    } else {
      assert (a + b)[0] == a[0] && (a + b)[1..] == a[1..] + b;
      UnpersistedAppend(a[1..], b);
    }
  }

  /** Every state reached from a state satisfying the invariant satisfies it. */
  lemma {:induction false} RunKeepsInv(s: LedgerState, registry: set<string>, ts: seq<Transaction>)
    requires Inv(s)
    ensures Inv(Run(s, registry, ts).0)
    decreases |ts|
  {
    if ts != [] {
      HandleTransactionKeepsInv(s, registry, ts[0]);
      RunKeepsInv(HandleTransaction(s, registry, ts[0]).0, registry, ts[1..]);
    }
  }

  /** One request adds its own record to the log when it goes through and
      nothing otherwise. */
  lemma StepLog(s: LedgerState, registry: set<string>, t: Transaction)
    ensures var r := HandleTransaction(s, registry, t);
      r.0.log == s.log + (if r.1.Success? then [Persisted(t, s.nextId)] else [])
  {
  }

  /** Chaining two log extensions: a log that extends log0 by added, then by
      a tail matching acc, extends log0 by added followed by that tail. */
  lemma ChainLogs(log0: seq<Transaction>, log1: seq<Transaction>, log2: seq<Transaction>,
                  added: seq<Transaction>, acc: seq<Transaction>)
    requires log1 == log0 + added
    requires |log1| <= |log2| && log2[..|log1|] == log1
    requires Unpersisted(log2[|log1|..]) == Unpersisted(acc)
    ensures |log0| <= |log2| && log2[..|log0|] == log0
    ensures Unpersisted(log2[|log0|..]) == Unpersisted(added) + Unpersisted(acc)
  {
    assert log2[|log0|..] == added + log2[|log1|..];
    UnpersistedAppend(added, log2[|log1|..]);
  }

  /** The log grows by exactly the accepted requests, in order. */
  lemma {:induction false} RunLog(s: LedgerState, registry: set<string>, ts: seq<Transaction>)
    ensures var r := Run(s, registry, ts);
      && |s.log| <= |r.0.log| && r.0.log[..|s.log|] == s.log
      && Unpersisted(r.0.log[|s.log|..]) == Unpersisted(Accepted(ts, r.1))
    decreases |ts|
  {
    if ts != [] {
      var first := HandleTransaction(s, registry, ts[0]);
      StepLog(s, registry, ts[0]);
      RunLog(first.0, registry, ts[1..]);
      var r := Run(s, registry, ts);
      var rest := Run(first.0, registry, ts[1..]);
      assert r.0 == rest.0 && r.1 == [first.1] + rest.1;
      assert r.1[1..] == rest.1;
      var added := if first.1.Success? then [Persisted(ts[0], s.nextId)] else [];
      var accepted := if first.1.Success? then [ts[0]] else [];
      ChainLogs(s.log, first.0.log, r.0.log, added, Accepted(ts[1..], rest.1));
      assert Unpersisted(added) == Unpersisted(accepted);
      UnpersistedAppend(accepted, Accepted(ts[1..], rest.1));
      assert Accepted(ts, r.1) == accepted + Accepted(ts[1..], rest.1);
    }
  }

  /** Every state the service can reach from empty satisfies the invariant,
      and its log holds exactly the accepted requests. */
  lemma Reachable(registry: set<string>, ts: seq<Transaction>)
    ensures Inv(Run(Initial, registry, ts).0)
    ensures Unpersisted(Run(Initial, registry, ts).0.log) == Unpersisted(Accepted(ts, Run(Initial, registry, ts).1))
  {
    InitialInv();
    RunKeepsInv(Initial, registry, ts);
    RunLog(Initial, registry, ts);
    assert Run(Initial, registry, ts).0.log[0..] == Run(Initial, registry, ts).0.log;
  }
}
