/** Collateral is neither created nor lost: every call preserves the total of all token accounts, and
    the contract's own account moves with its pool. */
module Collateral {
  import opened Fixed
  import opened Lmsr
  import opened Sums
  import opened MarketState
  import opened MarketSafety

  lemma TransferConserves(accounts: map<Address, int>, from: Address, to: Address, amount: int)
    requires Transfer(accounts, from, to, amount).Ok?
    ensures SumOf(Transfer(accounts, from, to, amount).value, Whole) == SumOf(accounts, Whole)
  {
    var paid := accounts[from := At(accounts, from) - amount];
    SumUpdate(accounts, Whole, from, At(accounts, from) - amount);
    SumUpdate(paid, Whole, to, At(paid, to) + amount);
  }

  // The transfer a successful call makes, if it makes one.
  datatype Payment = Payment(from: Address, to: Address, amount: int)

  function PaymentOf(s: State, call: Call): Option<Payment>
    requires Apply(s, call).Ok?
  {
    var paid := Apply(s, call).value.amount;
    match call
    case CallInitialize(oracle, _, funding) => Some(Payment(oracle, Contract, funding))
    case CallBuy(user, _, _, _) => Some(Payment(user, Contract, paid))
    case CallSell(user, _, _, _) => Some(Payment(Contract, user, paid))
    case CallResolve(_, _) => None
    case CallClaim(user) => Some(Payment(Contract, user, paid))
    case CallWithdraw(user) => Some(Payment(Contract, user, paid))
    case Outside(user, to, amount) => Some(Payment(user, to, amount))
  }

  // A successful call makes exactly that payment, and the pool moves with the contract's side of it.
  lemma CallPays(s: State, call: Call)
    requires Apply(s, call).Ok?
    ensures var t := Step(s, call);
      match PaymentOf(s, call)
      case None => t.accounts == s.accounts
      case Some(p) => Transfer(s.accounts, p.from, p.to, p.amount) == Ok(t.accounts)
    ensures var t := Step(s, call);
      !call.Outside? && (s.oracle.Some? || s.pool == 0) ==>
        t.pool - s.pool == At(t.accounts, Contract) - At(s.accounts, Contract)
  {
    hide CalculateBuyCost, CalculateSellReturn, InitialLiquidity, Fee, Reserve;
  }

  // The total over all accounts, contract included, never changes.
  lemma {:induction false} CollateralConserved(s: State, calls: seq<Call>)
    ensures SumOf(Run(s, calls).accounts, Whole) == SumOf(s.accounts, Whole)
    decreases |calls|
  {
    hide Apply, SumOf, Transfer;
    if calls != [] {
      var call := calls[0];
      if Apply(s, call).Ok? {
        CallPays(s, call);
        if PaymentOf(s, call).Some? {
          var p := PaymentOf(s, call).value;
          TransferConserves(s.accounts, p.from, p.to, p.amount);
        }
      }
      CollateralConserved(Step(s, call), calls[1..]);
    }
  }

  lemma StillDeployed(s: State, call: Call)
    requires !call.Outside? && (s.oracle.Some? || s.pool == 0)
    ensures Step(s, call).oracle.Some? || Step(s, call).pool == 0
  {
    hide CalculateBuyCost, CalculateSellReturn, InitialLiquidity, Fee, Reserve;
  }

  // Without outside transfers the contract's account and its pool move in step.
  lemma {:induction false} PoolIsCustody(s: State, calls: seq<Call>)
    requires s.oracle.Some? || s.pool == 0
    requires forall i :: 0 <= i < |calls| ==> !calls[i].Outside?
    ensures var t := Run(s, calls);
      At(t.accounts, Contract) - t.pool == At(s.accounts, Contract) - s.pool
    decreases |calls|
  {
    if calls != [] {
      var call := calls[0];
      hide Apply, PaymentOf;
      if Apply(s, call).Ok? {
        CallPays(s, call);
        StillDeployed(s, call);
      }
      PoolIsCustody(Step(s, call), calls[1..]);
    }
  }
}
