/** The transaction service as the stateful object it is: two maps of
    mutable balance objects, created on first use, and the transaction
    repository, an append-only log. Every method is proved to do to the
    abstract state exactly what the value-level specification in `Ledger`
    says. */
module TransactionServices {
  import opened Common
  import opened TransactionKeys
  import opened Transactions
  import opened CardBalances
  import opened TransactionBalances
  import opened MerchantTransactionResults
  import opened Ledger
  import opened LedgerInvariant
  import opened UserServices

  class TransactionService {
    const users: UserService
    var cardBalances: map<string, CardBalance>
    var transactionBalance: map<TransactionKey, TransactionBalance>
    /** The transaction repository and the id it generates next. */
    var log: seq<Transaction>
    var nextId: nat

    /** Which entry each balance object belongs to; it tells the objects of
        one map apart. */
    ghost var cardOwner: map<CardBalance, string>
    ghost var keyOwner: map<TransactionBalance, TransactionKey>

    /** No balance object is shared between two entries of its map. */
    ghost predicate Valid()
      reads this
    {
      && (forall c :: c in cardBalances ==> cardBalances[c] in cardOwner && cardOwner[cardBalances[c]] == c)
      && (forall k :: k in transactionBalance ==> transactionBalance[k] in keyOwner && keyOwner[transactionBalance[k]] == k)
    }

    /** The abstract state: the balances the objects hold, and the log. */
    ghost function State(): LedgerState
      reads this, cardBalances.Values, transactionBalance.Values
    {
      LedgerState(
        map c | c in cardBalances :: cardBalances[c].View(),
        map k | k in transactionBalance :: transactionBalance[k].View(),
        log, nextId)
    }

    /** Valid, and keeping the service's invariant. */
    ghost predicate Consistent()
      reads this, cardBalances.Values, transactionBalance.Values
    {
      Valid() && Inv(State())
    }

    constructor (users: UserService)
      ensures this.users == users
      ensures Consistent() && State() == Initial
    {
      this.users := users;
      cardBalances, transactionBalance := map[], map[];
      cardOwner, keyOwner := map[], map[];
      log, nextId := [], 1;
      new;
      assert State() == Initial;
      InitialInv();
    }

    /** `getBalanceForCard`: the card's balance object, created if absent. */
    method BalanceForCard(cardId: string) returns (b: CardBalance)
      requires Valid()
      modifies this
      ensures Valid()
      ensures cardBalances == old(cardBalances)[cardId := b]
      ensures cardId in old(cardBalances) ==> b == old(cardBalances[cardId])
      ensures cardId !in old(cardBalances) ==> fresh(b)
      ensures transactionBalance == old(transactionBalance) && log == old(log) && nextId == old(nextId)
      ensures keyOwner == old(keyOwner)
      ensures State() == EnsureCard(old(State()), cardId)
    {
      if cardId in cardBalances {
        b := cardBalances[cardId];
      } else {
        b := new CardBalance();
        cardBalances := cardBalances[cardId := b];
        cardOwner := cardOwner[b := cardId];
      }
    }

    /** `getTransactionBalance`: the key's balance object, created if absent. */
    method BalanceForKey(key: TransactionKey) returns (b: TransactionBalance)
      requires Valid()
      modifies this
      ensures Valid()
      ensures transactionBalance == old(transactionBalance)[key := b]
      ensures key in old(transactionBalance) ==> b == old(transactionBalance[key])
      ensures key !in old(transactionBalance) ==> fresh(b)
      ensures cardBalances == old(cardBalances) && log == old(log) && nextId == old(nextId)
      ensures cardOwner == old(cardOwner)
      ensures State() == EnsureKey(old(State()), key)
    {
      if key in transactionBalance {
        b := transactionBalance[key];
      } else {
        b := new TransactionBalance();
        transactionBalance := transactionBalance[key := b];
        keyOwner := keyOwner[b := key];
      }
    }

    /** `transactionRepository.save`: append with the next generated id. */
    method Save(t: Transaction)
      modifies this
      ensures log == old(log) + [Persisted(t, old(nextId))] && nextId == old(nextId) + 1
      ensures cardBalances == old(cardBalances) && transactionBalance == old(transactionBalance)
      ensures cardOwner == old(cardOwner) && keyOwner == old(keyOwner)
      ensures old(Valid()) ==> Valid()
      ensures State() == Ledger.Save(old(State()), t)
    {
      log := log + [Persisted(t, nextId)];
      nextId := nextId + 1;
      assert State().cards == old(State()).cards;
      assert State().keys == old(State()).keys;
    }

    method LoadFunds(t: Transaction) returns (r: Result<Outcome>)
      requires Valid() && t.transactionType == LOAD_FUNDS
      modifies this, cardBalances.Values
      ensures Valid()
      ensures (State(), r) == Ledger.LoadFunds(old(State()), t)
    {
      ghost var s0 := State();
      if t.amount <= 0 {
        return Failure(InvalidAmount);
      }
      if Recorded(log, t.transactionKey, t.transactionType) {
        return Failure(AlreadyHandled);
      }
      var c := t.transactionKey.cardId;
      var b := BalanceForCard(c);
      ghost var s1 := State();
      assert s1 == EnsureCard(s0, c);
      label L:
      b.Load(t.amount);
      CardMoved@L(c);
      ghost var s2 := State();
      assert s2 == s1.(cards := s1.cards[c := s1.cards[c].Load(t.amount)]);
      Save(t);
      assert Ledger.LoadFunds(s0, t) == (Ledger.Save(s2, t), Success(FundsLoaded));
      r := Success(FundsLoaded);
    }

    method AuthoriseTransaction(t: Transaction) returns (r: Result<Outcome>)
      requires Valid() && t.transactionType == AUTHORISE_TRANSACTION
      modifies this, cardBalances.Values, transactionBalance.Values
      ensures Valid()
      ensures (State(), r) == Ledger.AuthoriseTransaction(old(State()), t)
    {
      ghost var s0 := State();
      if t.amount <= 0 {
        return Failure(InvalidAmount);
      }
      if Recorded(log, t.transactionKey, t.transactionType) {
        return Failure(AlreadyHandled);
      }
      var cardBalance, keyBalance := BalanceFor(t);
      ghost var s1 := State();
      assert s1 == EnsureBoth(s0, t);
      if !cardBalance.CanBlock(t.amount) {
        return Failure(InsufficientFunds);
      }
      ghost var c, k := t.transactionKey.cardId, t.transactionKey;
      label L:
      cardBalance.Block(t.amount);
      CardMoved@L(c);
      label M:
      keyBalance.Block(t.amount);
      KeyMoved@M(k);
      Save(t);
      assert Ledger.AuthoriseTransaction(s0, t) == Commit(s1, t, s1.cards[c].Block(t.amount), s1.keys[k].Block(t.amount));
      r := Success(Merchant(FromTransaction(t, keyBalance.View())));
    }

    method CaptureFunds(t: Transaction) returns (r: Result<Outcome>)
      requires Valid() && t.transactionType == CAPTURE_TRANSACTION_FUNDS
      modifies this, cardBalances.Values, transactionBalance.Values
      ensures Valid()
      ensures (State(), r) == Ledger.CaptureFunds(old(State()), t)
    {
      ghost var s0 := State();
      if t.amount <= 0 {
        return Failure(InvalidAmount);
      }
      if !Recorded(log, t.transactionKey, AUTHORISE_TRANSACTION) {
        return Failure(NotAuthorised);
      }
      var cardBalance, keyBalance := BalanceFor(t);
      ghost var s1 := State();
      assert s1 == EnsureBoth(s0, t);
      if !cardBalance.CanCapture(t.amount) || !keyBalance.CanCapture(t.amount) {
        return Failure(InsufficientToCapture);
      }
      ghost var c, k := t.transactionKey.cardId, t.transactionKey;
      label L:
      cardBalance.Capture(t.amount);
      CardMoved@L(c);
      label M:
      keyBalance.Capture(t.amount);
      KeyMoved@M(k);
      Save(t);
      assert Ledger.CaptureFunds(s0, t) == Commit(s1, t, s1.cards[c].Capture(t.amount), s1.keys[k].Capture(t.amount));
      r := Success(Merchant(FromTransaction(t, keyBalance.View())));
    }

    method ReverseAuthorisation(t: Transaction) returns (r: Result<Outcome>)
      requires Valid() && t.transactionType == REVERSE_TRANSACTION
      modifies this, cardBalances.Values, transactionBalance.Values
      ensures Valid()
      ensures (State(), r) == Ledger.ReverseAuthorisation(old(State()), t)
    {
      ghost var s0 := State();
      if t.amount <= 0 {
        return Failure(InvalidAmount);
      }
      if !Recorded(log, t.transactionKey, AUTHORISE_TRANSACTION) {
        return Failure(NotAuthorised);
      }
      var cardBalance, keyBalance := BalanceFor(t);
      ghost var s1 := State();
      assert s1 == EnsureBoth(s0, t);
      if !cardBalance.CanReverse(t.amount) || !keyBalance.CanReverse(t.amount) {
        return Failure(InsufficientToReverse);
      }
      ghost var c, k := t.transactionKey.cardId, t.transactionKey;
      label L:
      cardBalance.Reverse(t.amount);
      CardMoved@L(c);
      label M:
      keyBalance.Reverse(t.amount);
      KeyMoved@M(k);
      Save(t);
      assert Ledger.ReverseAuthorisation(s0, t) == Commit(s1, t, s1.cards[c].Reverse(t.amount), s1.keys[k].Reverse(t.amount));
      r := Success(Merchant(FromTransaction(t, keyBalance.View())));
    }

    method RefundAuthorisation(t: Transaction) returns (r: Result<Outcome>)
      requires Valid() && t.transactionType == REFUND_CAPTURED_FUNDS
      modifies this, cardBalances.Values, transactionBalance.Values
      ensures Valid()
      ensures (State(), r) == Ledger.RefundAuthorisation(old(State()), t)
    {
      ghost var s0 := State();
      if t.amount <= 0 {
        return Failure(InvalidAmount);
      }
      if !Recorded(log, t.transactionKey, AUTHORISE_TRANSACTION) {
        return Failure(NotAuthorised);
      }
      var cardBalance, keyBalance := BalanceFor(t);
      ghost var s1 := State();
      assert s1 == EnsureBoth(s0, t);
      if !cardBalance.CanRefund(t.amount) || !keyBalance.CanRefund(t.amount) {
        return Failure(InsufficientToRefund);
      }
      ghost var c, k := t.transactionKey.cardId, t.transactionKey;
      label L:
      cardBalance.Refund(t.amount);
      CardMoved@L(c);
      label M:
      keyBalance.Refund(t.amount);
      KeyMoved@M(k);
      Save(t);
      assert Ledger.RefundAuthorisation(s0, t) == Commit(s1, t, s1.cards[c].Refund(t.amount), s1.keys[k].Refund(t.amount));
      r := Success(Merchant(FromTransaction(t, keyBalance.View())));
    }

    /** The card's and then the key's balance object, created if absent. */
    method BalanceFor(t: Transaction) returns (cardBalance: CardBalance, keyBalance: TransactionBalance)
      requires Valid()
      modifies this
      ensures Valid()
      ensures t.transactionKey.cardId in cardBalances && cardBalances[t.transactionKey.cardId] == cardBalance
      ensures t.transactionKey in transactionBalance && transactionBalance[t.transactionKey] == keyBalance
      ensures cardBalance in old(cardBalances.Values) || fresh(cardBalance)
      ensures keyBalance in old(transactionBalance.Values) || fresh(keyBalance)
      ensures State() == EnsureBoth(old(State()), t)
    {
      cardBalance := BalanceForCard(t.transactionKey.cardId);
      keyBalance := BalanceForKey(t.transactionKey);
    }

    /** Only the balance object of card `c` changed since the old state (and
        no key's object did): the abstract state differs in that card alone. */
    twostate lemma CardMoved(c: string)
      requires old(Valid()) && unchanged(this)
      requires c in cardBalances
      requires forall o :: o in cardBalances.Values && o != cardBalances[c] ==> unchanged(o)
      requires forall o :: o in transactionBalance.Values ==> unchanged(o)
      ensures State() == old(State()).(cards := old(State()).cards[c := cardBalances[c].View()])
    {
      forall d | d in cardBalances && d != c
        ensures cardBalances[d].View() == old(cardBalances[d].View())
      {
        assert cardBalances[d] in cardBalances.Values;
        assert cardOwner[cardBalances[d]] != cardOwner[cardBalances[c]];
      }
      forall k | k in transactionBalance
        ensures transactionBalance[k].View() == old(transactionBalance[k].View())
      {
        assert transactionBalance[k] in transactionBalance.Values;
      }
      assert State().cards == old(State()).cards[c := cardBalances[c].View()];
      assert State().keys == old(State()).keys;
    }

    /** Only the balance object of key `k` changed since the old state (and
        no card's object did): the abstract state differs in that key alone. */
    twostate lemma KeyMoved(k: TransactionKey)
      requires old(Valid()) && unchanged(this)
      requires k in transactionBalance
      requires forall o :: o in transactionBalance.Values && o != transactionBalance[k] ==> unchanged(o)
      requires forall o :: o in cardBalances.Values ==> unchanged(o)
      ensures State() == old(State()).(keys := old(State()).keys[k := transactionBalance[k].View()])
    {
      forall j | j in transactionBalance && j != k
        ensures transactionBalance[j].View() == old(transactionBalance[j].View())
      {
        assert transactionBalance[j] in transactionBalance.Values;
        assert keyOwner[transactionBalance[j]] != keyOwner[transactionBalance[k]];
      }
      forall d | d in cardBalances
        ensures cardBalances[d].View() == old(cardBalances[d].View())
      {
        assert cardBalances[d] in cardBalances.Values;
      }
      assert State().keys == old(State()).keys[k := transactionBalance[k].View()];
      assert State().cards == old(State()).cards;
    }

    /** `processTransaction`: dispatch on the request's type. */
    method ProcessTransaction(t: Transaction) returns (r: Result<Outcome>)
      requires Valid()
      modifies this, cardBalances.Values, transactionBalance.Values
      ensures Valid()
      ensures (State(), r) == Ledger.ProcessTransaction(old(State()), t)
    {
      match t.transactionType
      case LOAD_FUNDS => r := LoadFunds(t);
      case AUTHORISE_TRANSACTION => r := AuthoriseTransaction(t);
      case CAPTURE_TRANSACTION_FUNDS => r := CaptureFunds(t);
      case REVERSE_TRANSACTION => r := ReverseAuthorisation(t);
      case REFUND_CAPTURED_FUNDS => r := RefundAuthorisation(t);
    }

    /** `handleTransaction`: look the card up, then dispatch. The service
        keeps its invariant. */
    method HandleTransaction(t: Transaction) returns (r: Result<Outcome>)
      requires Consistent() && users.Valid()
      modifies this, cardBalances.Values, transactionBalance.Values
      ensures Consistent()
      ensures (State(), r) == Ledger.HandleTransaction(old(State()), users.cards.Keys, t)
    {
      var card := users.GetCard(t.transactionKey.cardId);
      if card.Failure? {
        r := Failure(CardDoesNotExist);
      } else {
        r := ProcessTransaction(t);
      }
      HandleTransactionKeepsInv(old(State()), users.cards.Keys, t);
    }

    /** `getTransactions`: the card's records, or a failure when it has none. */
    method GetTransactions(cardId: string) returns (r: Result<seq<Transaction>>)
      ensures r == Ledger.GetTransactions(State(), cardId)
    {
      var records := CardRecords(log, cardId);
      if |records| == 0 {
        r := Failure(NoTransactions);
      } else {
        r := Success(records);
      }
    }
  }
}
