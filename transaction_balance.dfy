/** The per-key aggregate: how much of one authorisation is blocked and how
    much has been captured. */
module TransactionBalances {

  datatype KeyFunds = KeyFunds(blocked: int, captured: int) {

    predicate NonNegative() { blocked >= 0 && captured >= 0 }

    function Plus(other: KeyFunds): KeyFunds
    {
      KeyFunds(blocked + other.blocked, captured + other.captured)
    }

    function Block(amount: int): KeyFunds { this.(blocked := blocked + amount) }
    function Capture(amount: int): KeyFunds { this.(blocked := blocked - amount, captured := captured + amount) }
    function Refund(amount: int): KeyFunds { this.(captured := captured - amount) }
    function Reverse(amount: int): KeyFunds { this.(blocked := blocked - amount) }

    predicate CanCapture(amount: int) { blocked >= amount }
    predicate CanRefund(amount: int) { captured >= amount }
    predicate CanReverse(amount: int) { blocked >= amount }
  }

  const NoKeyFunds := KeyFunds(0, 0)

  /** Capture moves money from blocked to captured; refund and reverse only
      take money away, each from one counter. */
  lemma TransitionEffects(h: KeyFunds, amount: int)
    ensures h.Block(amount).blocked + h.Block(amount).captured == h.blocked + h.captured + amount
    ensures h.Capture(amount).blocked + h.Capture(amount).captured == h.blocked + h.captured
    ensures h.Refund(amount).blocked == h.blocked
    ensures h.Reverse(amount).captured == h.captured
  {
  }

  /** A positive amount moved under its guard never drives a counter below
      zero, and each guard is exactly what that is needed for. */
  lemma GuardedTransitionsStayNonNegative(h: KeyFunds, amount: int)
    requires h.NonNegative() && amount > 0
    ensures h.Block(amount).NonNegative()
    ensures h.Capture(amount).NonNegative() <==> h.CanCapture(amount)
    ensures h.Reverse(amount).NonNegative() <==> h.CanReverse(amount)
    ensures h.Refund(amount).NonNegative() <==> h.CanRefund(amount)
  {
  }

  /** The mutable aggregate kept per transaction key by the service. */
  class TransactionBalance {
    var blocked: int
    var captured: int

    function View(): KeyFunds
      reads this
    {
      KeyFunds(blocked, captured)
    }

    constructor ()
      ensures blocked == 0 && captured == 0
    {
      blocked, captured := 0, 0;
    }

    method Block(amount: int)
      modifies this
      ensures blocked == old(blocked) + amount && captured == old(captured)
      ensures View() == old(View()).Block(amount)
    {
      blocked := blocked + amount;
    }

    method Capture(amount: int)
      modifies this
      ensures blocked == old(blocked) - amount && captured == old(captured) + amount
      ensures View() == old(View()).Capture(amount)
    {
      blocked := blocked - amount;
      captured := captured + amount;
    }

    method Refund(amount: int)
      modifies this
      ensures blocked == old(blocked) && captured == old(captured) - amount
      ensures View() == old(View()).Refund(amount)
    {
      captured := captured - amount;
    }

    method Reverse(amount: int)
      modifies this
      ensures blocked == old(blocked) - amount && captured == old(captured)
      ensures View() == old(View()).Reverse(amount)
    {
      blocked := blocked - amount;
    }

    /** `canCapture`: on non-negative counters and a positive amount, the guard
        holds exactly when capturing leaves every counter non-negative. */
    predicate CanCapture(amount: int)
      reads this
      ensures View().NonNegative() && amount > 0 ==> (CanCapture(amount) <==> View().Capture(amount).NonNegative())
    {
      View().CanCapture(amount)
    }

    /** `canRefund`: on non-negative counters and a positive amount, the guard
        holds exactly when refunding leaves every counter non-negative. */
    predicate CanRefund(amount: int)
      reads this
      ensures View().NonNegative() && amount > 0 ==> (CanRefund(amount) <==> View().Refund(amount).NonNegative())
    {
      View().CanRefund(amount)
    }

    /** `canReverse`: on non-negative counters and a positive amount, the guard
        holds exactly when reversing leaves every counter non-negative. */
    predicate CanReverse(amount: int)
      reads this
      ensures View().NonNegative() && amount > 0 ==> (CanReverse(amount) <==> View().Reverse(amount).NonNegative())
    {
      View().CanReverse(amount)
    }
  }
}
