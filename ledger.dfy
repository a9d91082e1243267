/** A value-level specification of the transaction service: its state, each
    request handler as a function from the old state to the new state and the
    reply, the invariant every handler keeps, and what follows from it. */
module Ledger {
  import opened Common
  import opened TransactionKeys
  import opened Transactions
  import opened CardBalances
  import opened TransactionBalances
  import opened MerchantTransactionResults
  import opened KeySums

  /** The service's state: the two balance maps and the transaction
      repository, an append-only log whose generated ids come from `nextId`. */
  datatype LedgerState = LedgerState(
    cards: map<string, Funds>,
    keys: map<TransactionKey, KeyFunds>,
    log: seq<Transaction>,
    nextId: nat)

  /** What a successful request returns: a confirmation for a load, the
      post-mutation snapshot of the key's balance for a merchant request. */
  datatype Outcome = FundsLoaded | Merchant(result: MerchantTransactionResult)

  type Reply = (LedgerState, Result<Outcome>)

  const Initial := LedgerState(map[], map[], [], 1)

  /** The card's aggregate; an absent entry reads as a fresh, zero one. */
  function CardOf(s: LedgerState, cardId: string): Funds
  {
    if cardId in s.cards then s.cards[cardId] else NoFunds
  }

  function KeyOf(s: LedgerState, key: TransactionKey): KeyFunds
  {
    Lookup(s.keys, key)
  }

  // ---------------------------------------------------------------------
  // The repository queries the service relies on.

  /** `findByTransactionKeyCardId`: the card's records, in log order. */
  function CardRecords(log: seq<Transaction>, cardId: string): (rs: seq<Transaction>)
    ensures |rs| <= |log|
  {
    if log == [] then []
    else
      var last := log[|log| - 1];
      CardRecords(log[..|log| - 1], cardId) + (if last.transactionKey.cardId == cardId then [last] else [])
  }

  /** `findByTransactionKey`: the records of one key, in log order. */
  function KeyRecords(log: seq<Transaction>, key: TransactionKey): (rs: seq<Transaction>)
    ensures |rs| <= |log|
  {
    if log == [] then []
    else
      var last := log[|log| - 1];
      KeyRecords(log[..|log| - 1], key) + (if last.transactionKey == key then [last] else [])
  }

  /** A card's records are exactly the log entries whose key names that card. */
  lemma {:induction false} CardRecordsMembership(log: seq<Transaction>, cardId: string)
    ensures forall t :: t in CardRecords(log, cardId) <==> t in log && t.transactionKey.cardId == cardId
  {
    if log != [] {
      var init, last := log[..|log| - 1], log[|log| - 1];
      CardRecordsMembership(init, cardId);
      assert log == init + [last];
    }
  }

  /** A log about one card only is its own record list for that card. */
  lemma {:induction false} CardRecordsOfOneCard(log: seq<Transaction>, cardId: string)
    requires forall i :: 0 <= i < |log| ==> log[i].transactionKey.cardId == cardId
    ensures CardRecords(log, cardId) == log
  {
    if log != [] {
      CardRecordsOfOneCard(log[..|log| - 1], cardId);
      assert log == log[..|log| - 1] + [log[|log| - 1]];
    }
  }

  /** A key's records are exactly the log entries carrying that key. */
  lemma {:induction false} KeyRecordsMembership(log: seq<Transaction>, key: TransactionKey)
    ensures forall t :: t in KeyRecords(log, key) <==> t in log && t.transactionKey == key
  {
    if log != [] {
      var init, last := log[..|log| - 1], log[|log| - 1];
      KeyRecordsMembership(init, key);
      assert log == init + [last];
    }
  }

  /** `findTransactionByTransactionKeyAndTransactionType(key, type) != null`. */
  predicate Recorded(log: seq<Transaction>, key: TransactionKey, transactionType: TransactionType)
  {
    exists i :: 0 <= i < |log| && log[i].transactionKey == key && log[i].transactionType == transactionType
  }

  /** `transactionRepository.save`: append the record with a generated id. */
  function Save(s: LedgerState, t: Transaction): (s': LedgerState)
    ensures s'.log == s.log + [Persisted(t, s.nextId)] && s'.nextId == s.nextId + 1
    ensures s'.cards == s.cards && s'.keys == s.keys
  {
    s.(log := s.log + [Persisted(t, s.nextId)], nextId := s.nextId + 1)
  }

  // ---------------------------------------------------------------------
  // Replaying the log: what each record does to the aggregates.

  function ApplyToCard(f: Funds, t: Transaction): Funds
  {
    match t.transactionType
    case LOAD_FUNDS => f.Load(t.amount)
    case AUTHORISE_TRANSACTION => f.Block(t.amount)
    case CAPTURE_TRANSACTION_FUNDS => f.Capture(t.amount)
    case REVERSE_TRANSACTION => f.Reverse(t.amount)
    case REFUND_CAPTURED_FUNDS => f.Refund(t.amount)
  }

  function ApplyToKey(h: KeyFunds, t: Transaction): KeyFunds
  {
    match t.transactionType
    case LOAD_FUNDS => h
    case AUTHORISE_TRANSACTION => h.Block(t.amount)
    case CAPTURE_TRANSACTION_FUNDS => h.Capture(t.amount)
    case REVERSE_TRANSACTION => h.Reverse(t.amount)
    case REFUND_CAPTURED_FUNDS => h.Refund(t.amount)
  }

  /** The card aggregate rebuilt from records, oldest first. */
  function ReplayCard(rs: seq<Transaction>): Funds
  {
    if rs == [] then NoFunds else ApplyToCard(ReplayCard(rs[..|rs| - 1]), rs[|rs| - 1])
  }

  /** The key aggregate rebuilt from records, oldest first. */
  function ReplayKey(rs: seq<Transaction>): KeyFunds
  {
    if rs == [] then NoKeyFunds else ApplyToKey(ReplayKey(rs[..|rs| - 1]), rs[|rs| - 1])
  }

  // ---------------------------------------------------------------------
  // The request handlers.

  /** `computeIfAbsent(cardId, k -> new CardBalance())`. */
  function EnsureCard(s: LedgerState, cardId: string): (s': LedgerState)
    ensures cardId in s'.cards && s'.cards[cardId] == CardOf(s, cardId)
    ensures forall c :: CardOf(s', c) == CardOf(s, c)
    ensures s'.keys == s.keys && s'.log == s.log && s'.nextId == s.nextId
  {
    if cardId in s.cards then s else s.(cards := s.cards[cardId := NoFunds])
  }

  /** `computeIfAbsent(key, k -> new TransactionBalance())`. */
  function EnsureKey(s: LedgerState, key: TransactionKey): (s': LedgerState)
    ensures key in s'.keys && s'.keys[key] == KeyOf(s, key)
    ensures forall k :: KeyOf(s', k) == KeyOf(s, k)
    ensures s'.cards == s.cards && s'.log == s.log && s'.nextId == s.nextId
  {
    if key in s.keys then s else s.(keys := s.keys[key := NoKeyFunds])
  }

  /** Both aggregates of the request's card and key, created if absent. */
  function EnsureBoth(s: LedgerState, t: Transaction): (s': LedgerState)
    ensures t.transactionKey.cardId in s'.cards && t.transactionKey in s'.keys
  {
    EnsureKey(EnsureCard(s, t.transactionKey.cardId), t.transactionKey)
  }

  /** The shared success path of the merchant handlers: store the new card
      and key balances as a pair, save the record, reply with the snapshot. */
  function Commit(s: LedgerState, t: Transaction, card: Funds, key: KeyFunds): Reply
  {
    var s' := s.(cards := s.cards[t.transactionKey.cardId := card], keys := s.keys[t.transactionKey := key]);
    (Save(s', t), Success(Merchant(FromTransaction(t, key))))
  }

  /** What every handler promises: a failure leaves the balances and the log
      as they were (zero balances created on demand read as absent ones); a
      success appends exactly the request with its generated id, applies it
      to its own card and key and to nothing else, and answers a load with a
      confirmation and a merchant request with the key's new balance. */
  ghost predicate Settled(s: LedgerState, t: Transaction, r: Reply)
  {
    && (r.1.Failure? ==>
          && r.0.log == s.log && r.0.nextId == s.nextId
          && (forall c :: CardOf(r.0, c) == CardOf(s, c))
          && (forall k :: KeyOf(r.0, k) == KeyOf(s, k)))
    && (r.1.Success? ==>
          && r.0.log == s.log + [Persisted(t, s.nextId)] && r.0.nextId == s.nextId + 1
          && CardOf(r.0, t.transactionKey.cardId) == ApplyToCard(CardOf(s, t.transactionKey.cardId), t)
          && KeyOf(r.0, t.transactionKey) == ApplyToKey(KeyOf(s, t.transactionKey), t)
          && (forall c :: c != t.transactionKey.cardId ==> CardOf(r.0, c) == CardOf(s, c))
          && (forall k :: k != t.transactionKey ==> KeyOf(r.0, k) == KeyOf(s, k))
          && r.1.value == if t.transactionType == LOAD_FUNDS then FundsLoaded
                          else Merchant(FromTransaction(t, KeyOf(r.0, t.transactionKey))))
  }

  function LoadFunds(s: LedgerState, t: Transaction): (r: Reply)
    requires t.transactionType == LOAD_FUNDS
    ensures t.amount <= 0 ==> r == (s, Failure(InvalidAmount))
    ensures Settled(s, t, r)
  {
    if t.amount <= 0 then (s, Failure(InvalidAmount))
    else if Recorded(s.log, t.transactionKey, t.transactionType) then (s, Failure(AlreadyHandled))
    else
      var c := t.transactionKey.cardId;
      var s1 := EnsureCard(s, c);
      (Save(s1.(cards := s1.cards[c := s1.cards[c].Load(t.amount)]), t), Success(FundsLoaded))
  }

  function AuthoriseTransaction(s: LedgerState, t: Transaction): (r: Reply)
    requires t.transactionType == AUTHORISE_TRANSACTION
    ensures t.amount <= 0 ==> r == (s, Failure(InvalidAmount))
    ensures Settled(s, t, r)
  {
    if t.amount <= 0 then (s, Failure(InvalidAmount))
    else if Recorded(s.log, t.transactionKey, t.transactionType) then (s, Failure(AlreadyHandled))
    else
      var s1 := EnsureBoth(s, t);
      var card, key := s1.cards[t.transactionKey.cardId], s1.keys[t.transactionKey];
      if !card.CanBlock(t.amount) then (s1, Failure(InsufficientFunds))
      else Commit(s1, t, card.Block(t.amount), key.Block(t.amount))
  }

  function CaptureFunds(s: LedgerState, t: Transaction): (r: Reply)
    requires t.transactionType == CAPTURE_TRANSACTION_FUNDS
    ensures t.amount <= 0 ==> r == (s, Failure(InvalidAmount))
    ensures Settled(s, t, r)
  {
    if t.amount <= 0 then (s, Failure(InvalidAmount))
    else if !Recorded(s.log, t.transactionKey, AUTHORISE_TRANSACTION) then (s, Failure(NotAuthorised))
    else
      var s1 := EnsureBoth(s, t);
      var card, key := s1.cards[t.transactionKey.cardId], s1.keys[t.transactionKey];
      if !card.CanCapture(t.amount) || !key.CanCapture(t.amount) then (s1, Failure(InsufficientToCapture))
      else Commit(s1, t, card.Capture(t.amount), key.Capture(t.amount))
  }

  function ReverseAuthorisation(s: LedgerState, t: Transaction): (r: Reply)
    requires t.transactionType == REVERSE_TRANSACTION
    ensures t.amount <= 0 ==> r == (s, Failure(InvalidAmount))
    ensures Settled(s, t, r)
  {
    if t.amount <= 0 then (s, Failure(InvalidAmount))
    else if !Recorded(s.log, t.transactionKey, AUTHORISE_TRANSACTION) then (s, Failure(NotAuthorised))
    else
      var s1 := EnsureBoth(s, t);
      var card, key := s1.cards[t.transactionKey.cardId], s1.keys[t.transactionKey];
      if !card.CanReverse(t.amount) || !key.CanReverse(t.amount) then (s1, Failure(InsufficientToReverse))
      else Commit(s1, t, card.Reverse(t.amount), key.Reverse(t.amount))
  }

  function RefundAuthorisation(s: LedgerState, t: Transaction): (r: Reply)
    requires t.transactionType == REFUND_CAPTURED_FUNDS
    ensures t.amount <= 0 ==> r == (s, Failure(InvalidAmount))
    ensures Settled(s, t, r)
  {
    if t.amount <= 0 then (s, Failure(InvalidAmount))
    else if !Recorded(s.log, t.transactionKey, AUTHORISE_TRANSACTION) then (s, Failure(NotAuthorised))
    else
      var s1 := EnsureBoth(s, t);
      var card, key := s1.cards[t.transactionKey.cardId], s1.keys[t.transactionKey];
      if !card.CanRefund(t.amount) || !key.CanRefund(t.amount) then (s1, Failure(InsufficientToRefund))
      else Commit(s1, t, card.Refund(t.amount), key.Refund(t.amount))
  }

  /** `processTransaction`: dispatch on the record's type. */
  function ProcessTransaction(s: LedgerState, t: Transaction): (r: Reply)
    ensures t.amount <= 0 ==> r == (s, Failure(InvalidAmount))
    ensures Settled(s, t, r)
  {
    match t.transactionType
    case LOAD_FUNDS => LoadFunds(s, t)
    case AUTHORISE_TRANSACTION => AuthoriseTransaction(s, t)
    case CAPTURE_TRANSACTION_FUNDS => CaptureFunds(s, t)
    case REVERSE_TRANSACTION => ReverseAuthorisation(s, t)
    case REFUND_CAPTURED_FUNDS => RefundAuthorisation(s, t)
  }

  /** `handleTransaction`: the card must exist (`registry` holds the ids of
      the stored cards); only then is the request dispatched. A failure
      changes no aggregate and appends nothing; a success appends exactly the
      request, with its generated id. */
  function HandleTransaction(s: LedgerState, registry: set<string>, t: Transaction): (r: Reply)
    ensures t.transactionKey.cardId !in registry ==> r == (s, Failure(CardDoesNotExist))
    ensures t.transactionKey.cardId in registry && t.amount <= 0 ==> r == (s, Failure(InvalidAmount))
    ensures r.1.Failure? ==> r.0.log == s.log && r.0.nextId == s.nextId
    ensures r.1.Failure? ==> (forall c :: CardOf(r.0, c) == CardOf(s, c)) && (forall k :: KeyOf(r.0, k) == KeyOf(s, k))
    ensures r.1.Success? ==> r.0.log == s.log + [Persisted(t, s.nextId)] && r.0.nextId == s.nextId + 1
    ensures r.1.Success? ==>
      && CardOf(r.0, t.transactionKey.cardId) == ApplyToCard(CardOf(s, t.transactionKey.cardId), t)
      && KeyOf(r.0, t.transactionKey) == ApplyToKey(KeyOf(s, t.transactionKey), t)
      && (forall c :: c != t.transactionKey.cardId ==> CardOf(r.0, c) == CardOf(s, c))
      && (forall k :: k != t.transactionKey ==> KeyOf(r.0, k) == KeyOf(s, k))
    ensures r.1.Success? ==>
      r.1.value == if t.transactionType == LOAD_FUNDS then FundsLoaded else Merchant(FromTransaction(t, KeyOf(r.0, t.transactionKey)))
  {
    if t.transactionKey.cardId !in registry then (s, Failure(CardDoesNotExist))
    else ProcessTransaction(s, t)
  }

  /** `getTransactions`: the card's records, or a failure when there are none. */
  function GetTransactions(s: LedgerState, cardId: string): (r: Result<seq<Transaction>>)
    ensures r.Failure? <==> forall t :: t in s.log ==> t.transactionKey.cardId != cardId
    ensures r.Failure? ==> r.error == NoTransactions
    ensures r.Success? ==> r.value == CardRecords(s.log, cardId)
  {
    var records := CardRecords(s.log, cardId);
    CardRecordsMembership(s.log, cardId);
    assert |records| > 0 ==> records[0] in records;
    if |records| == 0 then Failure(NoTransactions) else Success(records)
  }
}
