/** The invariant the transaction service keeps after every request, and
    the proof that every handler keeps it. */
module LedgerInvariant {
  import opened Common
  import opened TransactionKeys
  import opened Transactions
  import opened CardBalances
  import opened TransactionBalances
  import opened KeySums
  import opened Ledger

  /** A card's blocked and captured funds are the sums over its keys. */
  ghost predicate MatchesKeys(s: LedgerState, cardId: string)
  {
    var total := Sum(s.keys, KeysOfCard(s.keys, cardId));
    CardOf(s, cardId).blocked == total.blocked && CardOf(s, cardId).captured == total.captured
  }

  /** Every stored record has a positive amount and a generated id; ids grow
      along the log and stay below the next one to be handed out. */
  predicate WellFormedLog(s: LedgerState)
  {
    && (forall i :: 0 <= i < |s.log| ==> s.log[i].amount > 0 && s.log[i].id.Some? && s.log[i].id.value < s.nextId)
    && (forall i, j :: 0 <= i < j < |s.log| && s.log[i].id.Some? && s.log[j].id.Some? ==> s.log[i].id.value < s.log[j].id.value)
  }

  ghost predicate Inv(s: LedgerState)
  {
    // the cached aggregates are the replay of the log
    && (forall c :: CardOf(s, c) == ReplayCard(CardRecords(s.log, c)))
    && (forall k :: KeyOf(s, k) == ReplayKey(KeyRecords(s.log, k)))
    // no counter is ever negative
    && (forall c :: c in s.cards ==> s.cards[c].NonNegative())
    && (forall k :: k in s.keys ==> s.keys[k].NonNegative())
    // a key's aggregate only exists beside its card's, and stays zero until authorised
    && (forall k :: k in s.keys ==> k.cardId in s.cards)
    && (forall k :: !Recorded(s.log, k, AUTHORISE_TRANSACTION) ==> KeyOf(s, k) == NoKeyFunds)
    // card and keys agree
    && (forall c :: MatchesKeys(s, c))
    && WellFormedLog(s)
  }

  lemma InitialInv()
    ensures Inv(Initial)
  {
    forall c ensures MatchesKeys(Initial, c) {
      assert KeysOfCard(Initial.keys, c) == {};
    }
  }

  // ---------------------------------------------------------------------
  // Appending one record.

  lemma CardRecordsAppend(log: seq<Transaction>, t: Transaction, cardId: string)
    ensures CardRecords(log + [t], cardId) == CardRecords(log, cardId) + (if t.transactionKey.cardId == cardId then [t] else [])
  {
    assert (log + [t])[..|log|] == log;
  }

  lemma KeyRecordsAppend(log: seq<Transaction>, t: Transaction, key: TransactionKey)
    ensures KeyRecords(log + [t], key) == KeyRecords(log, key) + (if t.transactionKey == key then [t] else [])
  {
    assert (log + [t])[..|log|] == log;
  }

  lemma ReplayAppend(rs: seq<Transaction>, t: Transaction)
    ensures ReplayCard(rs + [t]) == ApplyToCard(ReplayCard(rs), t)
    ensures ReplayKey(rs + [t]) == ApplyToKey(ReplayKey(rs), t)
  {
    assert (rs + [t])[..|rs|] == rs;
  }

  lemma RecordedAppend(log: seq<Transaction>, t: Transaction, key: TransactionKey, transactionType: TransactionType)
    ensures Recorded(log + [t], key, transactionType) <==>
      Recorded(log, key, transactionType) || (t.transactionKey == key && t.transactionType == transactionType)
  {
    var log' := log + [t];
    if t.transactionKey == key && t.transactionType == transactionType {
      assert log'[|log|] == t;
    }
    if Recorded(log, key, transactionType) {
      var i :| 0 <= i < |log| && log[i].transactionKey == key && log[i].transactionType == transactionType;
      assert log'[i] == log[i];
    }
  }

  /** The state after a successful request `t` on a card whose aggregates
      (and, for a merchant request, the key's) already exist. */
  ghost function Applied(s: LedgerState, t: Transaction): LedgerState
    requires t.transactionKey.cardId in s.cards
  {
    var c, k := t.transactionKey.cardId, t.transactionKey;
    var cards := s.cards[c := ApplyToCard(s.cards[c], t)];
    var keys := if t.transactionType == LOAD_FUNDS then s.keys else s.keys[k := ApplyToKey(KeyOf(s, k), t)];
    Save(s.(cards := cards, keys := keys), t)
  }

  /** The preconditions under which the handlers call for `Applied`. */
  ghost predicate Admissible(s: LedgerState, t: Transaction)
  {
    var c, k := t.transactionKey.cardId, t.transactionKey;
    && t.amount > 0
    && c in s.cards
    && ApplyToCard(s.cards[c], t).NonNegative()
    && (t.transactionType != LOAD_FUNDS ==> k in s.keys && ApplyToKey(s.keys[k], t).NonNegative())
    && (t.transactionType !in {LOAD_FUNDS, AUTHORISE_TRANSACTION} ==> Recorded(s.log, k, AUTHORISE_TRANSACTION))
  }

  lemma AppliedCardReplay(s: LedgerState, t: Transaction, c: string)
    requires t.transactionKey.cardId in s.cards
    requires CardOf(s, c) == ReplayCard(CardRecords(s.log, c))
    ensures CardOf(Applied(s, t), c) == ReplayCard(CardRecords(Applied(s, t).log, c))
  {
    var s', p := Applied(s, t), Persisted(t, s.nextId);
    CardRecordsAppend(s.log, p, c);
    ReplayAppend(CardRecords(s.log, c), p);
    if c == t.transactionKey.cardId {
      assert ApplyToCard(CardOf(s, c), p) == ApplyToCard(CardOf(s, c), t);
    } else {
      assert CardRecords(s'.log, c) == CardRecords(s.log, c);
    }
  }

  lemma AppliedKeyReplay(s: LedgerState, t: Transaction, k: TransactionKey)
    requires t.transactionKey.cardId in s.cards
    requires KeyOf(s, k) == ReplayKey(KeyRecords(s.log, k))
    ensures KeyOf(Applied(s, t), k) == ReplayKey(KeyRecords(Applied(s, t).log, k))
  {
    var s', p := Applied(s, t), Persisted(t, s.nextId);
    KeyRecordsAppend(s.log, p, k);
    ReplayAppend(KeyRecords(s.log, k), p);
    if k == t.transactionKey {
      assert ApplyToKey(KeyOf(s, k), p) == ApplyToKey(KeyOf(s, k), t);
    } else {
      assert KeyRecords(s'.log, k) == KeyRecords(s.log, k);
    }
  }

  lemma AppliedKeepsReplay(s: LedgerState, t: Transaction)
    requires Inv(s) && Admissible(s, t)
    ensures var s' := Applied(s, t);
      && (forall c :: CardOf(s', c) == ReplayCard(CardRecords(s'.log, c)))
      && (forall k :: KeyOf(s', k) == ReplayKey(KeyRecords(s'.log, k)))
  {
    forall c ensures CardOf(Applied(s, t), c) == ReplayCard(CardRecords(Applied(s, t).log, c)) {
      AppliedCardReplay(s, t, c);
    }
    forall k ensures KeyOf(Applied(s, t), k) == ReplayKey(KeyRecords(Applied(s, t).log, k)) {
      AppliedKeyReplay(s, t, k);
    }
  }

  lemma AppliedKeepsAuthorisedKeys(s: LedgerState, t: Transaction)
    requires Inv(s) && Admissible(s, t)
    ensures var s' := Applied(s, t);
      forall k :: !Recorded(s'.log, k, AUTHORISE_TRANSACTION) ==> KeyOf(s', k) == NoKeyFunds
  {
    var s' := Applied(s, t);
    var p := Persisted(t, s.nextId);
    forall k | !Recorded(s'.log, k, AUTHORISE_TRANSACTION) ensures KeyOf(s', k) == NoKeyFunds {
      RecordedAppend(s.log, p, k, AUTHORISE_TRANSACTION);
    }
  }

  lemma AppliedKeepsKeySums(s: LedgerState, t: Transaction)
    requires Inv(s) && Admissible(s, t)
    ensures forall c :: MatchesKeys(Applied(s, t), c)
  {
    var s' := Applied(s, t);
    var c0, k0 := t.transactionKey.cardId, t.transactionKey;
    forall c ensures MatchesKeys(s', c) {
      assert MatchesKeys(s, c);
      if t.transactionType != LOAD_FUNDS {
        var v := ApplyToKey(KeyOf(s, k0), t);
        assert KeysOfCard(s'.keys, c) == KeysOfCard(s.keys, c);
        if c == c0 {
          SumUpdate(s.keys, KeysOfCard(s.keys, c), k0, v);
        } else {
          SumUpdateOutside(s.keys, KeysOfCard(s.keys, c), k0, v);
        }
      }
    }
  }

  lemma AppliedKeepsInv(s: LedgerState, t: Transaction)
    requires Inv(s) && Admissible(s, t)
    ensures Inv(Applied(s, t))
  {
    AppliedKeepsReplay(s, t);
    AppliedKeepsAuthorisedKeys(s, t);
    AppliedKeepsKeySums(s, t);
  }

  // ---------------------------------------------------------------------
  // Creating absent aggregates.

  lemma EnsureCardKeepsInv(s: LedgerState, cardId: string)
    requires Inv(s)
    ensures Inv(EnsureCard(s, cardId))
  {
    var s' := EnsureCard(s, cardId);
    forall c ensures MatchesKeys(s', c) {
      assert MatchesKeys(s, c);
    }
  }

  lemma EnsureKeyKeepsInv(s: LedgerState, key: TransactionKey)
    requires Inv(s) && key.cardId in s.cards
    ensures Inv(EnsureKey(s, key))
  {
    var s' := EnsureKey(s, key);
    if key !in s.keys {
      forall c ensures MatchesKeys(s', c) {
        assert MatchesKeys(s, c);
        var ks := KeysOfCard(s.keys, c);
        if c == key.cardId {
          assert KeysOfCard(s'.keys, c) == ks + {key};
          assert ks - {key} == ks;
          SumAddZero(s.keys, ks, key);
        } else {
          assert KeysOfCard(s'.keys, c) == ks;
          SumUpdateOutside(s.keys, ks, key, NoKeyFunds);
        }
      }
    }
  }

  lemma EnsureBothKeepsInv(s: LedgerState, t: Transaction)
    requires Inv(s)
    ensures Inv(EnsureBoth(s, t))
  {
    EnsureCardKeepsInv(s, t.transactionKey.cardId);
    EnsureKeyKeepsInv(EnsureCard(s, t.transactionKey.cardId), t.transactionKey);
  }

  // ---------------------------------------------------------------------
  // Every request keeps the invariant.

  /** A merchant handler's success path is `Applied` to the state with both
      aggregates present. */
  lemma CommitIsApplied(s: LedgerState, t: Transaction)
    requires Inv(s) && t.transactionType != LOAD_FUNDS && t.amount > 0
    requires t.transactionKey.cardId in s.cards && t.transactionKey in s.keys
    requires ApplyToCard(s.cards[t.transactionKey.cardId], t).NonNegative()
    requires ApplyToKey(s.keys[t.transactionKey], t).NonNegative()
    requires t.transactionType != AUTHORISE_TRANSACTION ==> Recorded(s.log, t.transactionKey, AUTHORISE_TRANSACTION)
    ensures Admissible(s, t)
    ensures Commit(s, t, ApplyToCard(s.cards[t.transactionKey.cardId], t), ApplyToKey(s.keys[t.transactionKey], t)).0 == Applied(s, t)
  {
  }

  /** A load that goes through replays the load on a ledger that holds the card. */
  lemma LoadFundsKeepsInv(s: LedgerState, t: Transaction)
    requires Inv(s) && t.transactionType == LOAD_FUNDS
    ensures Inv(LoadFunds(s, t).0)
  {
    if t.amount > 0 && !Recorded(s.log, t.transactionKey, t.transactionType) {
      var s1 := EnsureCard(s, t.transactionKey.cardId);
      EnsureCardKeepsInv(s, t.transactionKey.cardId);
      assert LoadFunds(s, t).0 == Applied(s1, t);
      AppliedKeepsInv(s1, t);
    }
  }

  /** A merchant request that goes through replays the request on a ledger
      that holds both its card and its key. */
  lemma MerchantRequestKeepsInv(s: LedgerState, t: Transaction)
    requires Inv(s) && t.transactionType != LOAD_FUNDS
    ensures Inv(ProcessTransaction(s, t).0)
  {
    var r := ProcessTransaction(s, t);
    if r.1.Success? {
      var s1 := EnsureBoth(s, t);
      EnsureBothKeepsInv(s, t);
      var f, h := s1.cards[t.transactionKey.cardId], s1.keys[t.transactionKey];
      CardBalances.GuardedTransitionsStayNonNegative(f, t.amount);
      TransactionBalances.GuardedTransitionsStayNonNegative(h, t.amount);
      CommitIsApplied(s1, t);
      assert r.0 == Applied(s1, t);
      AppliedKeepsInv(s1, t);
    } else {
      assert r.0 == s || r.0 == EnsureBoth(s, t);
      EnsureBothKeepsInv(s, t);
    }
  }

  lemma HandleTransactionKeepsInv(s: LedgerState, registry: set<string>, t: Transaction)
    requires Inv(s)
    ensures Inv(HandleTransaction(s, registry, t).0)
  {
    if t.transactionKey.cardId in registry {
      if t.transactionType == LOAD_FUNDS {
        LoadFundsKeepsInv(s, t);
      } else {
        MerchantRequestKeepsInv(s, t);
      }
    }
  }
}
