/** The contract's storage as a value, and what each entry point of `lib.rs` does to it.

    A call either succeeds with a new state and an amount, or fails with the first error the source
    would report; the host rolls a failed call back, so `Step` then keeps the state. */
module MarketState {
  import opened Fixed
  import opened Lmsr
  import opened Sums

  // Users and the oracle are never the contract itself.
  datatype Address = Contract | Account(id: nat)
  type User = a: Address | a.Account? witness Account(0)

  // The instance storage, and the accounts of the collateral token beside it.
  datatype State = State(
    oracle: Option<User>,
    b: int,
    yesSold: int,
    noSold: int,
    pool: int,
    resolved: bool,
    winner: nat,
    unclaimed: int,
    yesHeld: map<User, int>,
    noHeld: map<User, int>,
    accounts: map<Address, int>)
  {
    function Sold(outcome: nat): int {
      if outcome == YES then yesSold else noSold
    }

    function Held(outcome: nat): map<User, int> {
      if outcome == YES then yesHeld else noHeld
    }

    function WithOutcome(outcome: nat, sold: int, held: map<User, int>): State {
      if outcome == YES then this.(yesSold := sold, yesHeld := held) else this.(noSold := sold, noHeld := held)
    }
  }

  datatype Done = Done(state: State, amount: int)

  function Fresh(accounts: map<Address, int>): State {
    State(None, 0, 0, 0, 0, false, YES, 0, map[], map[], accounts)
  }

  // Plain `+` and `-`: out of range aborts the call.
  function Plain(v: int): Result<int> {
    if InRange(v) then Ok(v) else Err(Trap)
  }

  // The token refuses negative amounts and overdrafts by aborting.
  function Transfer(accounts: map<Address, int>, from: Address, to: Address, amount: int): Result<map<Address, int>> {
    if amount < 0 || At(accounts, from) < amount then Err(Trap)
    else
      var paid := accounts[from := At(accounts, from) - amount];
      Ok(paid[to := At(paid, to) + amount])
  }

  function Initialize(s: State, oracle: User, b: int, funding: int): Result<Done> {
    if s.oracle.Some? then Err(AlreadyInitialized)
    else if b <= 0 then Err(InvalidLiquidity)
    else
      var required :- InitialLiquidity(b);
      if funding < required then Err(InvalidAmount)
      else if funding > I128_MAX / 2 then Err(Overflow)
      else
        var accounts :- Transfer(s.accounts, oracle, Contract, funding);
        Ok(Done(s.(oracle := Some(oracle), b := b, yesSold := 0, noSold := 0, pool := funding,
                   resolved := false, accounts := accounts), 0))
  }

  // The checks that open `buy`, `sell` and the quotes.
  function CheckTrade(s: State, outcome: nat, amount: int): Result<()> {
    if s.oracle.None? then Err(NotInitialized)
    else if s.resolved then Err(AlreadyResolved)
    else if outcome > NO then Err(InvalidOutcome)
    else if amount <= 0 then Err(InvalidAmount)
    else Ok(())
  }

  function Buy(s: State, user: User, outcome: nat, amount: int, maxCost: int): Result<Done> {
    var _ :- CheckTrade(s, outcome, amount);
    var cost :- CalculateBuyCost(s.yesSold, s.noSold, amount, outcome, s.b);
    if cost > maxCost then Err(SlippageExceeded)
    else
      var accounts :- Transfer(s.accounts, user, Contract, cost);
      var sold :- Plain(s.Sold(outcome) + amount);
      var pool :- Plain(s.pool + cost);
      var balance :- Plain(At(s.Held(outcome), user) + amount);
      var traded := s.WithOutcome(outcome, sold, s.Held(outcome)[user := balance]);
      Ok(Done(traded.(pool := pool, accounts := accounts), cost))
  }

  function Sell(s: State, user: User, outcome: nat, amount: int, minReturn: int): Result<Done> {
    var _ :- CheckTrade(s, outcome, amount);
    if At(s.Held(outcome), user) < amount then Err(InsufficientBalance)
    else
      var proceeds :- CalculateSellReturn(s.yesSold, s.noSold, amount, outcome, s.b);
      if proceeds < minReturn then Err(ReturnTooLow)
      else
        var sold :- Plain(s.Sold(outcome) - amount);
        if s.pool < proceeds then Err(InsufficientPool)
        else
          var pool :- Plain(s.pool - proceeds);
          var balance :- Plain(At(s.Held(outcome), user) - amount);
          var accounts :- Transfer(s.accounts, Contract, user, proceeds);
          var traded := s.WithOutcome(outcome, sold, s.Held(outcome)[user := balance]);
          Ok(Done(traded.(pool := pool, accounts := accounts), proceeds))
  }

  function Resolve(s: State, caller: User, outcome: nat): Result<Done> {
    if s.oracle.None? then Err(NotInitialized)
    else if s.resolved then Err(AlreadyResolved)
    else if outcome > NO then Err(InvalidOutcome)
    else if caller != s.oracle.value then Err(Unauthorized)
    else Ok(Done(s.(resolved := true, winner := outcome, unclaimed := s.Sold(outcome)), 0))
  }

  // 2% of a gross payout, rounded down.
  function Fee(gross: int): Result<int> {
    var scaled :- CheckedMul(gross, CLAIM_FEE_BPS);
    CheckedDiv(scaled, BPS_DENOMINATOR)
  }

  function Claim(s: State, user: User): Result<Done> {
    if s.oracle.None? then Err(NotInitialized)
    else if !s.resolved then Err(NotResolved)
    else if At(s.Held(s.winner), user) <= 0 then Err(NothingToClaim)
    else
      var gross := At(s.Held(s.winner), user);
      var fee :- Fee(gross);
      var payout :- CheckedSub(gross, fee);
      var unclaimed :- Plain(s.unclaimed - gross);
      if s.pool < payout then Err(InsufficientPool)
      else
        var pool :- Plain(s.pool - payout);
        var accounts :- Transfer(s.accounts, Contract, user, payout);
        var settled := s.WithOutcome(s.winner, s.Sold(s.winner), s.Held(s.winner)[user := 0]);
        Ok(Done(settled.(unclaimed := unclaimed, pool := pool, accounts := accounts), payout))
  }

  // 98% of the unclaimed winning tokens, rounded down.
  function Reserve(unclaimed: int): Result<int> {
    var scaled :- CheckedMul(unclaimed, BPS_DENOMINATOR - CLAIM_FEE_BPS);
    CheckedDiv(scaled, BPS_DENOMINATOR)
  }

  function WithdrawRemaining(s: State, caller: User): Result<Done> {
    if s.oracle.None? then Err(NotInitialized)
    else if !s.resolved then Err(NotResolved)
    else if caller != s.oracle.value then Err(Unauthorized)
    else
      var reserved :- Reserve(s.unclaimed);
      var withdrawable :- CheckedSub(s.pool, reserved);
      if withdrawable <= 0 then Err(NothingToClaim)
      else
        var accounts :- Transfer(s.accounts, Contract, caller, withdrawable);
        Ok(Done(s.(pool := reserved, accounts := accounts), withdrawable))
  }

  // ---- Queries ----

  datatype Quote = Quote(amount: int, priceAfter: int)

  function GetPrice(s: State, outcome: nat): Result<int> {
    if s.oracle.None? then Err(NotInitialized)
    else CalculatePrice(s.yesSold, s.noSold, outcome, s.b)
  }

  function GetQuote(s: State, outcome: nat, amount: int): Result<Quote> {
    var _ :- CheckTrade(s, outcome, amount);
    var cost :- CalculateBuyCost(s.yesSold, s.noSold, amount, outcome, s.b);
    var sold :- Plain(s.Sold(outcome) + amount);
    var after := s.WithOutcome(outcome, sold, s.Held(outcome));
    var price :- CalculatePrice(after.yesSold, after.noSold, outcome, s.b);
    Ok(Quote(cost, price))
  }

  function GetSellQuote(s: State, outcome: nat, amount: int): Result<Quote> {
    var _ :- CheckTrade(s, outcome, amount);
    var proceeds :- CalculateSellReturn(s.yesSold, s.noSold, amount, outcome, s.b);
    var sold :- Plain(s.Sold(outcome) - amount);
    var after := s.WithOutcome(outcome, sold, s.Held(outcome));
    var price :- CalculatePrice(after.yesSold, after.noSold, outcome, s.b);
    Ok(Quote(proceeds, price))
  }

  // ---- Runs ----

  // Entry points, and token transfers by others that the contract does not see.
  datatype Call =
    | CallInitialize(oracle: User, b: int, funding: int)
    | CallBuy(user: User, outcome: nat, amount: int, limit: int)
    | CallSell(user: User, outcome: nat, amount: int, limit: int)
    | CallResolve(user: User, outcome: nat)
    | CallClaim(user: User)
    | CallWithdraw(user: User)
    | Outside(user: User, to: Address, amount: int)

  function Apply(s: State, call: Call): Result<Done> {
    match call
    case CallInitialize(oracle, b, funding) => Initialize(s, oracle, b, funding)
    case CallBuy(user, outcome, amount, limit) => Buy(s, user, outcome, amount, limit)
    case CallSell(user, outcome, amount, limit) => Sell(s, user, outcome, amount, limit)
    case CallResolve(user, outcome) => Resolve(s, user, outcome)
    case CallClaim(user) => Claim(s, user)
    case CallWithdraw(user) => WithdrawRemaining(s, user)
    case Outside(user, to, amount) =>
      var accounts :- Transfer(s.accounts, user, to, amount);
      Ok(Done(s.(accounts := accounts), amount))
  }

  function Step(s: State, call: Call): State {
    match Apply(s, call)
    case Ok(done) => done.state
    case Err(_) => s
  }

  function Run(s: State, calls: seq<Call>): State
    decreases |calls|
  {
    if calls == [] then s else Run(Step(s, calls[0]), calls[1..])
  }
}
