/** The per-card aggregate: available balance, blocked and captured funds. */
module CardBalances {

  /** The value of a card's three counters. */
  datatype Funds = Funds(balance: int, blocked: int, captured: int) {

    /** All money ever loaded that is still on the card, in any state. */
    function Total(): int { balance + blocked + captured }

    predicate NonNegative() { balance >= 0 && blocked >= 0 && captured >= 0 }

    function Load(amount: int): Funds { this.(balance := balance + amount) }
    function Block(amount: int): Funds { this.(blocked := blocked + amount, balance := balance - amount) }
    function Capture(amount: int): Funds { this.(blocked := blocked - amount, captured := captured + amount) }
    function Refund(amount: int): Funds { this.(captured := captured - amount, balance := balance + amount) }
    function Reverse(amount: int): Funds { this.(blocked := blocked - amount, balance := balance + amount) }

    predicate CanBlock(amount: int) { balance >= amount }
    predicate CanCapture(amount: int) { blocked >= amount }
    predicate CanRefund(amount: int) { captured >= amount }
    predicate CanReverse(amount: int) { blocked >= amount }
  }

  const NoFunds := Funds(0, 0, 0)

  /** Load adds money; every other transition only moves it between counters. */
  lemma Conservation(f: Funds, amount: int)
    ensures f.Load(amount).Total() == f.Total() + amount
    ensures f.Block(amount).Total() == f.Total()
    ensures f.Capture(amount).Total() == f.Total()
    ensures f.Refund(amount).Total() == f.Total()
    ensures f.Reverse(amount).Total() == f.Total()
  {
  }

  /** A positive amount moved under its guard never drives a counter below zero;
      and each guard is exactly what that is needed for. */
  lemma GuardedTransitionsStayNonNegative(f: Funds, amount: int)
    requires f.NonNegative() && amount > 0
    ensures f.Load(amount).NonNegative()
    ensures f.Block(amount).NonNegative() <==> f.CanBlock(amount)
    ensures f.Capture(amount).NonNegative() <==> f.CanCapture(amount)
    ensures f.Reverse(amount).NonNegative() <==> f.CanReverse(amount)
    ensures f.Refund(amount).NonNegative() <==> f.CanRefund(amount)
  {
  }

  /** Reversing part of a block leaves too little blocked to capture the
      original amount. */
  lemma ReverseThenCaptureOriginalFails(amount: int, reversed: int)
    requires 0 < reversed <= amount
    ensures !NoFunds.Load(amount).Block(amount).Reverse(reversed).CanCapture(amount)
  {
  }

  /** After a full capture and refund the card can block the amount again,
      which it could not do while the amount was blocked. */
  lemma RefundRestoresBlockingPower(amount: int)
    requires amount > 0
    ensures !NoFunds.Load(amount).Block(amount).CanBlock(amount)
    ensures NoFunds.Load(amount).Block(amount).Capture(amount).Refund(amount).CanBlock(amount)
  {
  }

  /** The mutable aggregate kept per card by the transaction service. */
  class CardBalance {
    var balance: int
    var blocked: int
    var captured: int

    function View(): Funds
      reads this
    {
      Funds(balance, blocked, captured)
    }

    constructor ()
      ensures View() == NoFunds
    {
      balance, blocked, captured := 0, 0, 0;
    }

    method Load(amount: int)
      modifies this
      ensures balance == old(balance) + amount && blocked == old(blocked) && captured == old(captured)
      ensures View() == old(View()).Load(amount)
    {
      balance := balance + amount;
    }

    method Block(amount: int)
      modifies this
      ensures balance == old(balance) - amount && blocked == old(blocked) + amount && captured == old(captured)
      ensures View() == old(View()).Block(amount)
    {
      blocked := blocked + amount;
      balance := balance - amount;
    }

    method Capture(amount: int)
      modifies this
      ensures balance == old(balance) && blocked == old(blocked) - amount && captured == old(captured) + amount
      ensures View() == old(View()).Capture(amount)
    {
      blocked := blocked - amount;
      captured := captured + amount;
    }

    method Refund(amount: int)
      modifies this
      ensures balance == old(balance) + amount && blocked == old(blocked) && captured == old(captured) - amount
      ensures View() == old(View()).Refund(amount)
    {
      captured := captured - amount;
      balance := balance + amount;
    }

    method Reverse(amount: int)
      modifies this
      ensures balance == old(balance) + amount && blocked == old(blocked) - amount && captured == old(captured)
      ensures View() == old(View()).Reverse(amount)
    {
      blocked := blocked - amount;
      balance := balance + amount;
    }

    /** `canBlock`: on non-negative counters and a positive amount, the guard
        holds exactly when blocking leaves every counter non-negative. */
    predicate CanBlock(amount: int)
      reads this
      ensures View().NonNegative() && amount > 0 ==> (CanBlock(amount) <==> View().Block(amount).NonNegative())
    {
      View().CanBlock(amount)
    }

    /** `canCapture`: on non-negative counters and a positive amount, the guard
        holds exactly when capturing leaves every counter non-negative. */
    predicate CanCapture(amount: int)
      reads this
      ensures View().NonNegative() && amount > 0 ==> (CanCapture(amount) <==> View().Capture(amount).NonNegative())
    {
      View().CanCapture(amount)
    }

    /** `canRefund`: on non-negative counters and a positive amount, the guard
        holds exactly when refunding leaves every counter non-negative. */
    predicate CanRefund(amount: int)
      reads this
      ensures View().NonNegative() && amount > 0 ==> (CanRefund(amount) <==> View().Refund(amount).NonNegative())
    {
      View().CanRefund(amount)
    }

    /** `canReverse`: on non-negative counters and a positive amount, the guard
        holds exactly when reversing leaves every counter non-negative. */
    predicate CanReverse(amount: int)
      reads this
      ensures View().NonNegative() && amount > 0 ==> (CanReverse(amount) <==> View().Reverse(amount).NonNegative())
    {
      View().CanReverse(amount)
    }
  }
}
