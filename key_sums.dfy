/** Sums of per-key balances over a set of keys, used to relate a card's
    aggregate to the aggregates of its transaction keys. */
module KeySums {
  import opened TransactionKeys
  import opened TransactionBalances

  /** The balance kept for `k`, or zero when none is kept. */
  function Lookup(m: map<TransactionKey, KeyFunds>, k: TransactionKey): KeyFunds
  {
    if k in m then m[k] else NoKeyFunds
  }

  /** The keys of the map that belong to one card. */
  function KeysOfCard(m: map<TransactionKey, KeyFunds>, cardId: string): set<TransactionKey>
  {
    set k | k in m && k.cardId == cardId
  }

  /** Component-wise sum of the balances kept for the keys in `ks`. */
  ghost function Sum(m: map<TransactionKey, KeyFunds>, ks: set<TransactionKey>): KeyFunds
    decreases ks
  {
    if ks == {} then NoKeyFunds
    else
      var k :| k in ks;
      Lookup(m, k).Plus(Sum(m, ks - {k}))
  }

  /** Any member of the set can be taken out first. */
  lemma {:induction false} SumRemove(m: map<TransactionKey, KeyFunds>, ks: set<TransactionKey>, k: TransactionKey)
    requires k in ks
    ensures Sum(m, ks) == Lookup(m, k).Plus(Sum(m, ks - {k}))
    decreases ks
  {
    var j :| j in ks && Sum(m, ks) == Lookup(m, j).Plus(Sum(m, ks - {j}));
    if j != k {
      var a, b := Lookup(m, j), Lookup(m, k);
      var rest := Sum(m, ks - {j} - {k});
      SumRemove(m, ks - {j}, k);
      assert Sum(m, ks - {j}) == b.Plus(rest);
      SumRemove(m, ks - {k}, j);
      assert ks - {k} - {j} == ks - {j} - {k};
      assert Sum(m, ks - {k}) == a.Plus(rest);
      PlusSwap(a, b, rest);
    }
  }

  /** Adding two balances to a third commutes. */
  lemma PlusSwap(a: KeyFunds, b: KeyFunds, c: KeyFunds)
    ensures a.Plus(b.Plus(c)) == b.Plus(a.Plus(c))
  {
  }

  /** The sum depends only on the balances of the keys summed over. */
  lemma {:induction false} SumFrame(m: map<TransactionKey, KeyFunds>, m': map<TransactionKey, KeyFunds>, ks: set<TransactionKey>)
    requires forall k :: k in ks ==> Lookup(m, k) == Lookup(m', k)
    ensures Sum(m, ks) == Sum(m', ks)
    decreases ks
  {
    if ks != {} {
      var k :| k in ks;
      SumRemove(m, ks, k);
      SumRemove(m', ks, k);
      SumFrame(m, m', ks - {k});
    }
  }

  /** Replacing one key's balance changes the sum by the difference. */
  lemma SumUpdate(m: map<TransactionKey, KeyFunds>, ks: set<TransactionKey>, k: TransactionKey, v: KeyFunds)
    requires k in ks
    ensures Sum(m[k := v], ks).blocked == Sum(m, ks).blocked - Lookup(m, k).blocked + v.blocked
    ensures Sum(m[k := v], ks).captured == Sum(m, ks).captured - Lookup(m, k).captured + v.captured
  {
    SumRemove(m, ks, k);
    SumRemove(m[k := v], ks, k);
    SumFrame(m, m[k := v], ks - {k});
  }

  /** A key outside the summed set does not contribute. */
  lemma SumUpdateOutside(m: map<TransactionKey, KeyFunds>, ks: set<TransactionKey>, k: TransactionKey, v: KeyFunds)
    requires k !in ks
    ensures Sum(m[k := v], ks) == Sum(m, ks)
  {
    SumFrame(m, m[k := v], ks);
  }

  /** Adding a zero balance for a new key does not change the sum. */
  lemma SumAddZero(m: map<TransactionKey, KeyFunds>, ks: set<TransactionKey>, k: TransactionKey)
    requires k !in m
    ensures Sum(m[k := NoKeyFunds], ks + {k}) == Sum(m, ks - {k})
  {
    SumRemove(m[k := NoKeyFunds], ks + {k}, k);
    assert (ks + {k}) - {k} == ks - {k};
    SumUpdateOutside(m, ks - {k}, k, NoKeyFunds);
  }

  lemma SumEmpty(m: map<TransactionKey, KeyFunds>)
    ensures Sum(m, {}) == NoKeyFunds
  {
  }

  /** With no negative member, the sum is not negative and bounds each member. */
  lemma {:induction false} SumBoundsMembers(m: map<TransactionKey, KeyFunds>, ks: set<TransactionKey>)
    requires forall k :: k in ks ==> Lookup(m, k).NonNegative()
    ensures Sum(m, ks).NonNegative()
    ensures forall k :: k in ks ==> Lookup(m, k).blocked <= Sum(m, ks).blocked && Lookup(m, k).captured <= Sum(m, ks).captured
    decreases ks
  {
    if ks != {} {
      forall k | k in ks
        ensures Sum(m, ks).NonNegative()
        ensures Lookup(m, k).blocked <= Sum(m, ks).blocked && Lookup(m, k).captured <= Sum(m, ks).captured
      {
        SumRemove(m, ks, k);
        SumBoundsMembers(m, ks - {k});
      }
    }
  }
}
