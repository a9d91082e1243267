/** The card holder's read-outs, recomputed from a card's records by a
    filter, map and sum pipeline, and the load request the card holder sends. */
module UserCardController {
  import opened Common
  import opened TransactionKeys
  import opened Transactions
  import opened CardBalances
  import opened Ledger
  import opened LedgerInvariant
  import opened LedgerProperties
  import opened TransactionBalances
  import opened TransactionServices

  // ---------------------------------------------------------------------
  // The stream pipeline.

  /** `stream().filter(keep)`, order kept. */
  function Filter(ts: seq<Transaction>, keep: Transaction -> bool): (ps: seq<Transaction>)
    ensures |ps| <= |ts|
  {
    if ts == [] then [] else (if keep(ts[0]) then [ts[0]] else []) + Filter(ts[1..], keep)
  }

  /** `.map(value)`. */
  function Map(ts: seq<Transaction>, value: Transaction -> int): (xs: seq<int>)
    ensures |xs| == |ts|
  {
    if ts == [] then [] else [value(ts[0])] + Map(ts[1..], value)
  }

  /** `.reduce((a, b) -> a + b)`: nothing for an empty stream, otherwise the
      elements added from the left. */
  function Reduce(xs: seq<int>): (r: Option<int>)
    ensures r.None? <==> xs == []
  {
    if xs == [] then None
    else match Reduce(xs[..|xs| - 1])
      case None => Some(xs[|xs| - 1])
      case Some(acc) => Some(acc + xs[|xs| - 1])
  }

  /** `filterMapReduceTransactions`: the reduction, or 0 when no record passes. */
  function FilterMapReduce(ts: seq<Transaction>, keep: Transaction -> bool, value: Transaction -> int): int
  {
    match Reduce(Map(Filter(ts, keep), value))
    case None => 0
    case Some(total) => total
  }

  /** The plain sum, as the reference the pipeline is proved against. */
  function Sum(xs: seq<int>): int
  {
    if xs == [] then 0 else xs[0] + Sum(xs[1..])
  }

  lemma {:induction false} SumAppend(a: seq<int>, b: seq<int>)
    ensures Sum(a + b) == Sum(a) + Sum(b)
  {
    if a == [] {
      assert a + b == b;
    } else {
      assert (a + b)[1..] == a[1..] + b;
      SumAppend(a[1..], b);
    }
  }

  /** Reducing a non-empty stream with `+` yields its sum. */
  lemma {:induction false} ReduceIsSum(xs: seq<int>)
    ensures Reduce(xs) == if xs == [] then None else Some(Sum(xs))
  {
    if xs != [] {
      var init, last := xs[..|xs| - 1], xs[|xs| - 1];
      ReduceIsSum(init);
      assert xs == init + [last];
      SumAppend(init, [last]);
    }
  }

  lemma {:induction false} FilterAppend(a: seq<Transaction>, b: seq<Transaction>, keep: Transaction -> bool)
    ensures Filter(a + b, keep) == Filter(a, keep) + Filter(b, keep)
  {
    if a == [] {
      assert a + b == b;
    } else {
      var head := if keep(a[0]) then [a[0]] else [];
      assert (a + b)[0] == a[0] && (a + b)[1..] == a[1..] + b;
      FilterAppend(a[1..], b, keep);
      calc {
        Filter(a + b, keep);
        head + Filter(a[1..] + b, keep);
        head + (Filter(a[1..], keep) + Filter(b, keep));
        (head + Filter(a[1..], keep)) + Filter(b, keep);
      }
    }
  }

  lemma {:induction false} MapAppend(a: seq<Transaction>, b: seq<Transaction>, value: Transaction -> int)
    ensures Map(a + b, value) == Map(a, value) + Map(b, value)
  {
    if a == [] {
      assert a + b == b;
    } else {
      assert (a + b)[0] == a[0] && (a + b)[1..] == a[1..] + b;
      MapAppend(a[1..], b, value);
    }
  }

  /** The pipeline is the sum of the values of the records that pass. */
  lemma FilterMapReduceIsSum(ts: seq<Transaction>, keep: Transaction -> bool, value: Transaction -> int)
    ensures FilterMapReduce(ts, keep, value) == Sum(Map(Filter(ts, keep), value))
  {
    ReduceIsSum(Map(Filter(ts, keep), value));
  }

  /** The pipeline is additive over concatenation of record lists. */
  lemma FilterMapReduceAppend(a: seq<Transaction>, b: seq<Transaction>, keep: Transaction -> bool, value: Transaction -> int)
    ensures FilterMapReduce(a + b, keep, value) == FilterMapReduce(a, keep, value) + FilterMapReduce(b, keep, value)
  {
    FilterMapReduceIsSum(a + b, keep, value);
    FilterMapReduceIsSum(a, keep, value);
    FilterMapReduceIsSum(b, keep, value);
    FilterAppend(a, b, keep);
    MapAppend(Filter(a, keep), Filter(b, keep), value);
    SumAppend(Map(Filter(a, keep), value), Map(Filter(b, keep), value));
  }

  /** When no record passes the filter the result is 0. */
  lemma {:induction false} FilterMapReduceNonePass(ts: seq<Transaction>, keep: Transaction -> bool, value: Transaction -> int)
    requires forall i :: 0 <= i < |ts| ==> !keep(ts[i])
    ensures Filter(ts, keep) == []
    ensures FilterMapReduce(ts, keep, value) == 0
  {
    if ts != [] {
      assert !keep(ts[0]);
      FilterMapReduceNonePass(ts[1..], keep, value);
    }
  }

  /** One more record adds its value if it passes. */
  lemma FilterMapReduceSnoc(ts: seq<Transaction>, t: Transaction, keep: Transaction -> bool, value: Transaction -> int)
    ensures FilterMapReduce(ts + [t], keep, value) == FilterMapReduce(ts, keep, value) + (if keep(t) then value(t) else 0)
  {
    FilterMapReduceAppend(ts, [t], keep, value);
    assert [t][1..] == [];
    assert Filter([t], keep) == (if keep(t) then [t] else []);
    FilterMapReduceIsSum([t], keep, value);
  }

  // ---------------------------------------------------------------------
  // The three read-outs.

  // The filters and value functions of the read-outs.
  predicate IsLoad(t: Transaction) { t.transactionType == LOAD_FUNDS }
  predicate IsNotLoad(t: Transaction) { t.transactionType != LOAD_FUNDS }
  predicate IsNotCapture(t: Transaction) { t.transactionType != CAPTURE_TRANSACTION_FUNDS }
  predicate IsRefund(t: Transaction) { t.transactionType == REFUND_CAPTURED_FUNDS }
  predicate MovesBlocked(t: Transaction) { t.transactionType !in {LOAD_FUNDS, REFUND_CAPTURED_FUNDS} }
  function Amount(t: Transaction): int { t.amount }
  function AuthorisationNegated(t: Transaction): int
  {
    if t.transactionType == AUTHORISE_TRANSACTION then -t.amount else t.amount
  }
  function AuthorisationPositive(t: Transaction): int
  {
    if t.transactionType == AUTHORISE_TRANSACTION then t.amount else -t.amount
  }

  /** `getAmountLoaded`: the sum of the loads. */
  function AmountLoaded(ts: seq<Transaction>): int
  {
    FilterMapReduce(ts, IsLoad, Amount)
  }

  /** `getAmountAvailable`: everything but captures, authorisations negated. */
  function AmountAvailable(ts: seq<Transaction>): int
  {
    FilterMapReduce(ts, IsNotCapture, AuthorisationNegated)
  }

  /** `getAmountBlocked` as written: everything but loads, authorisations
      positive and captures, reversals and refunds negated. */
  function AmountBlocked(ts: seq<Transaction>): int
  {
    FilterMapReduce(ts, IsNotLoad, AuthorisationPositive)
  }

  /** The blocked amount as the card balance keeps it: a refund returns
      captured money to the available balance and never touches blocked, so
      refunds are left out as well as loads. */
  function OutstandingBlocked(ts: seq<Transaction>): int
  {
    FilterMapReduce(ts, MovesBlocked, AuthorisationPositive)
  }

  /** The sum of the refunds. */
  function AmountRefunded(ts: seq<Transaction>): int
  {
    FilterMapReduce(ts, IsRefund, Amount)
  }

  /** The available read-out is the balance the card's records leave. */
  lemma {:induction false} AvailableIsReplayedBalance(rs: seq<Transaction>)
    ensures AmountAvailable(rs) == ReplayCard(rs).balance
  {
    if rs == [] {
      FilterMapReduceNonePass(rs, IsNotCapture, AuthorisationNegated);
    } else {
      var init, last := rs[..|rs| - 1], rs[|rs| - 1];
      AvailableIsReplayedBalance(init);
      assert rs == init + [last];
      FilterMapReduceSnoc(init, last, IsNotCapture, AuthorisationNegated);
    }
  }

  /** The loaded read-out is all the card holds: available, blocked and
      captured together. */
  lemma {:induction false} LoadedIsReplayedTotal(rs: seq<Transaction>)
    ensures AmountLoaded(rs) == ReplayCard(rs).Total()
  {
    if rs == [] {
      FilterMapReduceNonePass(rs, IsLoad, Amount);
    } else {
      var init, last := rs[..|rs| - 1], rs[|rs| - 1];
      LoadedIsReplayedTotal(init);
      assert rs == init + [last];
      FilterMapReduceSnoc(init, last, IsLoad, Amount);
    }
  }

  /** The corrected blocked read-out is the blocked counter the card's
      records leave. */
  lemma {:induction false} OutstandingIsReplayedBlocked(rs: seq<Transaction>)
    ensures OutstandingBlocked(rs) == ReplayCard(rs).blocked
  {
    if rs == [] {
      FilterMapReduceNonePass(rs, MovesBlocked, AuthorisationPositive);
    } else {
      var init, last := rs[..|rs| - 1], rs[|rs| - 1];
      OutstandingIsReplayedBlocked(init);
      assert rs == init + [last];
      FilterMapReduceSnoc(init, last, MovesBlocked, AuthorisationPositive);
    }
  }

  /** The as-written blocked read-out is short of the corrected one by every
      refund. */
  lemma {:induction false} AmountBlockedCountsRefunds(rs: seq<Transaction>)
    ensures AmountBlocked(rs) == OutstandingBlocked(rs) - AmountRefunded(rs)
  {
    if rs == [] {
      FilterMapReduceNonePass(rs, IsNotLoad, AuthorisationPositive);
      FilterMapReduceNonePass(rs, MovesBlocked, AuthorisationPositive);
      FilterMapReduceNonePass(rs, IsRefund, Amount);
    } else {
      var init, last := rs[..|rs| - 1], rs[|rs| - 1];
      AmountBlockedCountsRefunds(init);
      assert rs == init + [last];
      FilterMapReduceSnoc(init, last, IsNotLoad, AuthorisationPositive);
      FilterMapReduceSnoc(init, last, MovesBlocked, AuthorisationPositive);
      FilterMapReduceSnoc(init, last, IsRefund, Amount);
    }
  }

  /** Over the records of any state the service keeps, the read-outs agree
      with the card's live balance, except that the as-written blocked
      read-out is short by the refunds. */
  lemma ReadOutsMatchLiveBalance(s: LedgerState, cardId: string)
    requires Inv(s)
    ensures var rs, f := CardRecords(s.log, cardId), CardOf(s, cardId);
      && AmountAvailable(rs) == f.balance
      && AmountLoaded(rs) == f.balance + f.blocked + f.captured
      && OutstandingBlocked(rs) == f.blocked
      && AmountBlocked(rs) == f.blocked - AmountRefunded(rs)
  {
    var rs := CardRecords(s.log, cardId);
    AvailableIsReplayedBalance(rs);
    LoadedIsReplayedTotal(rs);
    OutstandingIsReplayedBlocked(rs);
    AmountBlockedCountsRefunds(rs);
  }

  // ---------------------------------------------------------------------
  // Loading money.

  /** `loadMoney`: a load keyed by the request and the card, from merchant
      "user", the amount passed through unchecked. */
  function LoadMoney(cardId: string, requestId: string, amountInPence: int): (t: Transaction)
    ensures t.transactionKey == TransactionKey(requestId, cardId)
    ensures t.merchant == "user" && t.amount == amountInPence && t.transactionType == LOAD_FUNDS
    ensures t.id == None
  {
    NewTransaction(TransactionKey(requestId, cardId), "user", amountInPence, LOAD_FUNDS)
  }

  /** The load endpoint over the live service: the load request is handled
      exactly as `HandleTransaction` says, and the service stays consistent. */
  method LoadMoneyRequest(service: TransactionService, cardId: string, requestId: string, amountInPence: int) returns (r: Result<Outcome>)
    requires service.Consistent() && service.users.Valid()
    modifies service, service.cardBalances.Values, service.transactionBalance.Values
    ensures service.Consistent()
    ensures (service.State(), r) == HandleTransaction(old(service.State()), service.users.cards.Keys, LoadMoney(cardId, requestId, amountInPence))
  {
    r := service.HandleTransaction(LoadMoney(cardId, requestId, amountInPence));
  }

  /** A new, positive load on a stored card raises the loaded read-out by its
      amount; any other load leaves it as it was. */
  lemma LoadMoneyRaisesAmountLoaded(s: LedgerState, registry: set<string>, cardId: string, requestId: string, amount: int)
    ensures var r := HandleTransaction(s, registry, LoadMoney(cardId, requestId, amount));
      && (r.1.Success? <==> cardId in registry && amount > 0 && !Recorded(s.log, TransactionKey(requestId, cardId), LOAD_FUNDS))
      && AmountLoaded(CardRecords(r.0.log, cardId)) ==
           AmountLoaded(CardRecords(s.log, cardId)) + (if r.1.Success? then amount else 0)
  {
    var t := LoadMoney(cardId, requestId, amount);
    var r := HandleTransaction(s, registry, t);
    if r.1.Success? {
      CardRecordsAppend(s.log, Persisted(t, s.nextId), cardId);
      FilterMapReduceSnoc(CardRecords(s.log, cardId), Persisted(t, s.nextId), IsLoad, Amount);
    }
  }

  // ---------------------------------------------------------------------
  // A refund makes the as-written blocked read-out disagree with the card.

  /** With positive amounts, the refunded total is positive as soon as one
      refund is among the records. */
  lemma {:induction false} RefundedPositive(rs: seq<Transaction>)
    requires forall i :: 0 <= i < |rs| ==> rs[i].amount > 0
    ensures AmountRefunded(rs) >= 0
    ensures (exists i :: 0 <= i < |rs| && IsRefund(rs[i])) ==> AmountRefunded(rs) > 0
  {
    if rs == [] {
      FilterMapReduceNonePass(rs, IsRefund, Amount);
    } else {
      var init, last := rs[..|rs| - 1], rs[|rs| - 1];
      RefundedPositive(init);
      assert rs == init + [last];
      FilterMapReduceSnoc(init, last, IsRefund, Amount);
      if exists i :: 0 <= i < |rs| && IsRefund(rs[i]) {
        var i :| 0 <= i < |rs| && IsRefund(rs[i]);
        if i < |init| {
          assert IsRefund(init[i]);
        }
      }
    }
  }

  /** In every state the service keeps, a card with a refund among its
      records gets a blocked read-out below what it really has blocked. */
  lemma RefundBreaksBlockedReadOut(s: LedgerState, cardId: string)
    requires Inv(s)
    requires exists t :: t in s.log && t.transactionKey.cardId == cardId && t.transactionType == REFUND_CAPTURED_FUNDS
    ensures AmountBlocked(CardRecords(s.log, cardId)) < CardOf(s, cardId).blocked
    ensures OutstandingBlocked(CardRecords(s.log, cardId)) == CardOf(s, cardId).blocked
  {
    var rs := CardRecords(s.log, cardId);
    CardRecordsMembership(s.log, cardId);
    ReadOutsMatchLiveBalance(s, cardId);
    var t :| t in s.log && t.transactionKey.cardId == cardId && t.transactionType == REFUND_CAPTURED_FUNDS;
    assert t in rs;
    var j :| 0 <= j < |rs| && rs[j] == t;
    assert IsRefund(rs[j]);
    forall i | 0 <= i < |rs| ensures rs[i].amount > 0 {
      assert rs[i] in s.log;
    }
    RefundedPositive(rs);
  }

  /** The records of load 100, authorise 100, capture 100 and refund 100 on
      one key. */
  function RefundedRecords(card: string): (rs: seq<Transaction>)
    ensures |rs| == 4
  {
    var key := TransactionKey("request", card);
    [ Transaction(Some(1), key, "user", 100, LOAD_FUNDS),
      Transaction(Some(2), key, "user", 100, AUTHORISE_TRANSACTION),
      Transaction(Some(3), key, "user", 100, CAPTURE_TRANSACTION_FUNDS),
      Transaction(Some(4), key, "user", 100, REFUND_CAPTURED_FUNDS) ]
  }

  /** Those records leave the card with its 100 available and nothing
      blocked or captured. */
  lemma RefundedRecordsReplay(card: string)
    ensures ReplayCard(RefundedRecords(card)) == Funds(100, 0, 0)
  {
    var rs := RefundedRecords(card);
    var t1, t2, t3, t4 := rs[0], rs[1], rs[2], rs[3];
    ReplayAppend([], t1);
    assert [] + [t1] == [t1];
    ReplayAppend([t1], t2);
    assert [t1] + [t2] == [t1, t2];
    ReplayAppend([t1, t2], t3);
    assert [t1, t2] + [t3] == [t1, t2, t3];
    ReplayAppend([t1, t2, t3], t4);
    assert [t1, t2, t3] + [t4] == rs;
  }

  /** Over those records the corrected read-out reports nothing blocked and
      the as-written one reports -100. */
  lemma BlockedReadOutAfterRefund(card: string)
    ensures OutstandingBlocked(RefundedRecords(card)) == 0
    ensures AmountBlocked(RefundedRecords(card)) == -100
  {
    var rs := RefundedRecords(card);
    RefundedRecordsReplay(card);
    OutstandingIsReplayedBlocked(rs);
    AmountBlockedCountsRefunds(rs);
    RefundedRecordsRefunded(card);
  }

  lemma RefundedRecordsRefunded(card: string)
    ensures AmountRefunded(RefundedRecords(card)) == 100
  {
    var rs := RefundedRecords(card);
    var init := rs[..3];
    assert rs == init + [rs[3]];
    FilterMapReduceSnoc(init, rs[3], IsRefund, Amount);
    assert forall i :: 0 <= i < |init| ==> !IsRefund(init[i]);
    FilterMapReduceNonePass(init, IsRefund, Amount);
  }
}
