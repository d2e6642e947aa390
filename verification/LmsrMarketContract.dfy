/** The contract of `lib.rs` as an object over its storage and the collateral token.

    An entry point reads and writes storage in the source's order, so some writes come before the
    last guard; when it fails, the host discards them, which the public methods do by restoring a
    snapshot. Each one is proved to be a step of the model in MarketState. */
module LmsrMarketContract {
  import opened Fixed
  import opened Lmsr
  import opened Sums
  import opened MarketState
  import opened MarketSafety
  import PriceLaws

  class Token {
    var accounts: map<Address, int>

    constructor (accounts: map<Address, int>)
      ensures this.accounts == accounts
    {
      this.accounts := accounts;
    }

    // A refused transfer aborts the calling contract.
    method Transfer(from: Address, to: Address, amount: int) returns (r: Result<()>)
      modifies this
      ensures match MarketState.Transfer(old(accounts), from, to, amount)
        case Ok(moved) => r == Ok(()) && accounts == moved
        case Err(e) => r == Err(e) && accounts == old(accounts)
    {
      if amount < 0 || At(accounts, from) < amount {
        return Err(Trap);
      }
      accounts := accounts[from := At(accounts, from) - amount];
      accounts := accounts[to := At(accounts, to) + amount];
      return Ok(());
    }
  }

  // A call that succeeds leaves the state and returns the amount the model says; one that fails
  // returns the model's error and leaves everything as it was.
  predicate Agrees(before: State, after: State, r: Result<int>, model: Result<Done>) {
    match model
    case Ok(done) => r == Ok(done.amount) && after == done.state
    case Err(e) => r == Err(e) && after == before
  }

  // The same before the host has rolled a failed call back.
  predicate Attempts(after: State, r: Result<int>, model: Result<Done>) {
    match model
    case Ok(done) => r == Ok(done.amount) && after == done.state
    case Err(e) => r == Err(e)
  }

  // Not deployed yet, or in one of the phases of MarketSafety.
  ghost predicate Sound(s: State, funding: int) {
    if s.oracle.Some? then Live(s, funding) else s == Fresh(s.accounts) && 0 <= At(s.accounts, Contract)
  }

  // What the oracle has paid in after a call.
  function FundingAfter(s: State, funding: int, call: Call): int {
    if call.CallInitialize? && Apply(s, call).Ok? then call.funding else funding
  }

  lemma StepSound(s: State, funding: int, call: Call)
    requires Sound(s, funding)
    ensures Sound(Step(s, call), FundingAfter(s, funding, call))
  {
    if s.oracle.Some? {
      hide Live, Step;
      StepLive(s, funding, call);
      assert call.CallInitialize? ==> Apply(s, call) == Err(AlreadyInitialized);
    } else if call.CallInitialize? {
      if Apply(s, call).Ok? {
        hide Open, InitialLiquidity, Transfer;
        DeployOpens(s.accounts, call.oracle, call.b, call.funding);
      }
    } else {
      hide CalculateBuyCost, CalculateSellReturn, Fee, Reserve;
    }
  }

  // Prices quoted in a sound state lie in [0, SCALE].
  lemma SoundPrice(s: State, funding: int, outcome: nat, delta: int)
    requires Sound(s, funding) && s.oracle.Some? && (0 <= delta || -s.Sold(outcome) <= delta)
    ensures var price := CalculatePrice(
                           YesAfter(s.yesSold, outcome, delta), NoAfter(s.noSold, outcome, delta), outcome, s.b);
      price.Ok? ==> 0 <= price.value <= SCALE
  {
    hide CalculatePrice, SumOf, Potential, CostFits;
    var y, n := YesAfter(s.yesSold, outcome, delta), NoAfter(s.noSold, outcome, delta);
    if CalculatePrice(y, n, outcome, s.b).Ok? {
      PriceLaws.PriceRange(y, n, outcome, s.b);
    }
  }

  lemma SellWithin(s: State, outcome: nat, amount: int)
    requires CalculateSellReturn(s.yesSold, s.noSold, amount, outcome, s.b).Ok?
    ensures amount <= s.Sold(outcome)
  {
    hide Cost;
  }

  class LmsrMarket {
    const token: Token
    var oracle: Option<User>
    var b: int
    var yesSold: int
    var noSold: int
    var pool: int
    var resolved: bool
    var winner: nat
    var unclaimed: int
    var yesHeld: map<User, int>
    var noHeld: map<User, int>

    // What the oracle paid in at deployment.
    ghost var funding: int

    function View(): State
      reads this, token
    {
      State(oracle, b, yesSold, noSold, pool, resolved, winner, unclaimed, yesHeld, noHeld, token.accounts)
    }

    ghost predicate Valid()
      reads this, token
    {
      Sound(View(), funding)
    }

    constructor (token: Token)
      ensures this.token == token && View() == Fresh(token.accounts)
    {
      this.token := token;
      oracle := None;
      b, yesSold, noSold, pool, unclaimed := 0, 0, 0, 0, 0;
      resolved, winner := false, YES;
      yesHeld, noHeld := map[], map[];
    }

    // The host's rollback of a failed call.
    method Restore(s: State)
      modifies this, token
      ensures View() == s && funding == old(funding)
    {
      oracle, b, yesSold, noSold, pool := s.oracle, s.b, s.yesSold, s.noSold, s.pool;
      resolved, winner, unclaimed := s.resolved, s.winner, s.unclaimed;
      yesHeld, noHeld := s.yesHeld, s.noHeld;
      token.accounts := s.accounts;
    }

    function RequireInitialized(): Result<()>
      reads this
    {
      if oracle.None? then Err(NotInitialized) else Ok(())
    }

    function RequireNotResolved(): Result<()>
      reads this
    {
      if resolved then Err(AlreadyResolved) else Ok(())
    }

    function RequireResolved(): Result<()>
      reads this
    {
      if resolved then Ok(()) else Err(NotResolved)
    }

    function Balance(user: User, outcome: nat): int
      reads this
    {
      At(if outcome == YES then yesHeld else noHeld, user)
    }

    method SetBalance(user: User, outcome: nat, balance: int)
      modifies this`yesHeld, this`noHeld
      ensures yesHeld == if outcome == YES then old(yesHeld)[user := balance] else old(yesHeld)
      ensures noHeld == if outcome == YES then old(noHeld) else old(noHeld)[user := balance]
    {
      if outcome == YES {
        yesHeld := yesHeld[user := balance];
      } else {
        noHeld := noHeld[user := balance];
      }
    }

    // ---- The entry points as written, before any rollback ----

    method TryInitialize(caller: User, liquidity: int, initialFunding: int) returns (r: Result<int>)
      modifies this, token
      ensures Attempts(View(), r, MarketState.Initialize(old(View()), caller, liquidity, initialFunding))
      ensures funding == old(funding)
    {
      hide InitialLiquidity, MarketState.Transfer;
      if oracle.Some? {
        return Err(AlreadyInitialized);
      }
      if liquidity <= 0 {
        return Err(InvalidLiquidity);
      }
      var required :- InitialLiquidity(liquidity);
      if initialFunding < required {
        return Err(InvalidAmount);
      }
      if initialFunding > I128_MAX / 2 {
        return Err(Overflow);
      }
      var _ :- token.Transfer(caller, Contract, initialFunding);
      oracle := Some(caller);
      b := liquidity;
      yesSold := 0;
      noSold := 0;
      pool := initialFunding;
      resolved := false;
      return Ok(0);
    }

    method TryBuy(user: User, outcome: nat, amount: int, maxCost: int) returns (r: Result<int>)
      modifies this, token
      ensures Attempts(View(), r, MarketState.Buy(old(View()), user, outcome, amount, maxCost))
      ensures funding == old(funding)
    {
      hide CalculateBuyCost, MarketState.Transfer, At;
      var _ :- RequireInitialized();
      var _ :- RequireNotResolved();
      if outcome > NO {
        return Err(InvalidOutcome);
      }
      if amount <= 0 {
        return Err(InvalidAmount);
      }
      var cost :- CalculateBuyCost(yesSold, noSold, amount, outcome, b);
      if cost > maxCost {
        return Err(SlippageExceeded);
      }
      var _ :- token.Transfer(user, Contract, cost);
      if outcome == YES {
        yesSold :- Plain(yesSold + amount);
      } else {
        noSold :- Plain(noSold + amount);
      }
      pool :- Plain(pool + cost);
      var balance :- Plain(Balance(user, outcome) + amount);
      SetBalance(user, outcome, balance);
      return Ok(cost);
    }

    method TrySell(user: User, outcome: nat, amount: int, minReturn: int) returns (r: Result<int>)
      modifies this, token
      ensures Attempts(View(), r, MarketState.Sell(old(View()), user, outcome, amount, minReturn))
      ensures funding == old(funding)
    {
      hide CalculateSellReturn, MarketState.Transfer, At;
      var _ :- RequireInitialized();
      var _ :- RequireNotResolved();
      if outcome > NO {
        return Err(InvalidOutcome);
      }
      if amount <= 0 {
        return Err(InvalidAmount);
      }
      var balance := Balance(user, outcome);
      if balance < amount {
        return Err(InsufficientBalance);
      }
      var proceeds :- CalculateSellReturn(yesSold, noSold, amount, outcome, b);
      if proceeds < minReturn {
        return Err(ReturnTooLow);
      }
      if outcome == YES {
        yesSold :- Plain(yesSold - amount);
      } else {
        noSold :- Plain(noSold - amount);
      }
      if pool < proceeds {
        return Err(InsufficientPool);
      }
      pool :- Plain(pool - proceeds);
      balance :- Plain(balance - amount);
      SetBalance(user, outcome, balance);
      var _ :- token.Transfer(Contract, user, proceeds);
      return Ok(proceeds);
    }

    method TryResolve(caller: User, outcome: nat) returns (r: Result<int>)
      modifies this
      ensures Attempts(View(), r, MarketState.Resolve(old(View()), caller, outcome))
      ensures funding == old(funding)
    {
      var _ :- RequireInitialized();
      var _ :- RequireNotResolved();
      if outcome > NO {
        return Err(InvalidOutcome);
      }
      if caller != oracle.value {
        return Err(Unauthorized);
      }
      resolved := true;
      winner := outcome;
      unclaimed := if outcome == YES then yesSold else noSold;
      return Ok(0);
    }

    method TryClaim(user: User) returns (r: Result<int>)
      modifies this, token
      ensures Attempts(View(), r, MarketState.Claim(old(View()), user))
      ensures funding == old(funding)
    {
      hide Fee, MarketState.Transfer, At;
      var _ :- RequireInitialized();
      var _ :- RequireResolved();
      var gross := Balance(user, winner);
      if gross <= 0 {
        return Err(NothingToClaim);
      }
      var fee :- Fee(gross);
      var payout :- CheckedSub(gross, fee);
      SetBalance(user, winner, 0);
      unclaimed :- Plain(unclaimed - gross);
      if pool < payout {
        return Err(InsufficientPool);
      }
      pool :- Plain(pool - payout);
      var _ :- token.Transfer(Contract, user, payout);
      return Ok(payout);
    }

    method TryWithdrawRemaining(caller: User) returns (r: Result<int>)
      modifies this, token
      ensures Attempts(View(), r, MarketState.WithdrawRemaining(old(View()), caller))
      ensures funding == old(funding)
    {
      hide Reserve, MarketState.Transfer, At;
      var _ :- RequireInitialized();
      var _ :- RequireResolved();
      if caller != oracle.value {
        return Err(Unauthorized);
      }
      var reserved :- Reserve(unclaimed);
      var withdrawable :- CheckedSub(pool, reserved);
      if withdrawable <= 0 {
        return Err(NothingToClaim);
      }
      pool := reserved;
      var _ :- token.Transfer(Contract, caller, withdrawable);
      return Ok(withdrawable);
    }

    // ---- The entry points as the host runs them ----

    method Initialize(caller: User, liquidity: int, initialFunding: int) returns (r: Result<int>)
      modifies this, token
      ensures Agrees(old(View()), View(), r, MarketState.Initialize(old(View()), caller, liquidity, initialFunding))
      ensures View() == Step(old(View()), CallInitialize(caller, liquidity, initialFunding))
      ensures old(Valid()) ==> Valid()
    {
      hide MarketState.Initialize, Sound;
      var snapshot := View();
      r := TryInitialize(caller, liquidity, initialFunding);
      if Sound(snapshot, funding) {
        StepSound(snapshot, funding, CallInitialize(caller, liquidity, initialFunding));
      }
      if r.Err? {
        Restore(snapshot);
      } else {
        funding := initialFunding;
      }
    }

    // The deployment constructor: a contract that cannot be initialised is not deployed at all.
    static method Deploy(token: Token, caller: User, liquidity: int, initialFunding: int)
      returns (r: Result<LmsrMarket>)
      modifies token
      ensures match MarketState.Initialize(Fresh(old(token.accounts)), caller, liquidity, initialFunding)
        case Ok(done) => r.Ok? && fresh(r.value) && r.value.token == token && r.value.View() == done.state
        case Err(_) => r == Err(Trap) && token.accounts == old(token.accounts)
      ensures r.Ok? && 0 <= At(old(token.accounts), Contract) ==> r.value.Valid()
    {
      hide MarketState.Initialize, Live;
      var market := new LmsrMarket(token);
      var done := market.Initialize(caller, liquidity, initialFunding);
      if done.Err? {
        return Err(Trap);
      }
      return Ok(market);
    }

    method Buy(user: User, outcome: nat, amount: int, maxCost: int) returns (r: Result<int>)
      modifies this, token
      ensures Agrees(old(View()), View(), r, MarketState.Buy(old(View()), user, outcome, amount, maxCost))
      ensures View() == Step(old(View()), CallBuy(user, outcome, amount, maxCost))
      ensures old(Valid()) ==> Valid()
    {
      hide MarketState.Buy, Sound;
      var snapshot := View();
      r := TryBuy(user, outcome, amount, maxCost);
      if r.Err? {
        Restore(snapshot);
      }
      if Sound(snapshot, funding) {
        StepSound(snapshot, funding, CallBuy(user, outcome, amount, maxCost));
      }
    }

    method Sell(user: User, outcome: nat, amount: int, minReturn: int) returns (r: Result<int>)
      modifies this, token
      ensures Agrees(old(View()), View(), r, MarketState.Sell(old(View()), user, outcome, amount, minReturn))
      ensures View() == Step(old(View()), CallSell(user, outcome, amount, minReturn))
      ensures old(Valid()) ==> Valid()
    {
      hide MarketState.Sell, Sound;
      var snapshot := View();
      r := TrySell(user, outcome, amount, minReturn);
      if r.Err? {
        Restore(snapshot);
      }
      if Sound(snapshot, funding) {
        StepSound(snapshot, funding, CallSell(user, outcome, amount, minReturn));
      }
    }

    method Resolve(caller: User, outcome: nat) returns (r: Result<int>)
      modifies this, token
      ensures Agrees(old(View()), View(), r, MarketState.Resolve(old(View()), caller, outcome))
      ensures View() == Step(old(View()), CallResolve(caller, outcome))
      ensures old(Valid()) ==> Valid()
    {
      hide MarketState.Resolve, Sound;
      var snapshot := View();
      r := TryResolve(caller, outcome);
      if r.Err? {
        Restore(snapshot);
      }
      if Sound(snapshot, funding) {
        StepSound(snapshot, funding, CallResolve(caller, outcome));
      }
    }

    method Claim(user: User) returns (r: Result<int>)
      modifies this, token
      ensures Agrees(old(View()), View(), r, MarketState.Claim(old(View()), user))
      ensures View() == Step(old(View()), CallClaim(user))
      ensures old(Valid()) ==> Valid()
    {
      hide MarketState.Claim, Sound;
      var snapshot := View();
      r := TryClaim(user);
      if r.Err? {
        Restore(snapshot);
      }
      if Sound(snapshot, funding) {
        StepSound(snapshot, funding, CallClaim(user));
      }
    }

    method WithdrawRemaining(caller: User) returns (r: Result<int>)
      modifies this, token
      ensures Agrees(old(View()), View(), r, MarketState.WithdrawRemaining(old(View()), caller))
      ensures View() == Step(old(View()), CallWithdraw(caller))
      ensures old(Valid()) ==> Valid()
    {
      hide MarketState.WithdrawRemaining, Sound;
      var snapshot := View();
      r := TryWithdrawRemaining(caller);
      if r.Err? {
        Restore(snapshot);
      }
      if Sound(snapshot, funding) {
        StepSound(snapshot, funding, CallWithdraw(caller));
      }
    }

    // ---- Queries ----

    method GetPrice(outcome: nat) returns (r: Result<int>)
      ensures r == MarketState.GetPrice(View(), outcome)
      ensures Valid() && r.Ok? ==> 0 <= r.value <= SCALE
    {
      hide CalculatePrice;
      var _ :- RequireInitialized();
      r := CalculatePrice(yesSold, noSold, outcome, b);
      if Valid() {
        SoundPrice(View(), funding, outcome, 0);
      }
    }

    method GetQuote(outcome: nat, amount: int) returns (r: Result<Quote>)
      ensures r == MarketState.GetQuote(View(), outcome, amount)
      ensures Valid() && r.Ok? ==> 0 <= r.value.priceAfter <= SCALE
    {
      hide CalculateBuyCost, CalculatePrice, Sound;
      var _ :- RequireInitialized();
      var _ :- RequireNotResolved();
      if outcome > NO {
        return Err(InvalidOutcome);
      }
      if amount <= 0 {
        return Err(InvalidAmount);
      }
      var cost :- CalculateBuyCost(yesSold, noSold, amount, outcome, b);
      var newYes, newNo := yesSold, noSold;
      if outcome == YES {
        newYes :- Plain(yesSold + amount);
      } else {
        newNo :- Plain(noSold + amount);
      }
      var priceAfter :- CalculatePrice(newYes, newNo, outcome, b);
      if Valid() {
        SoundPrice(View(), funding, outcome, amount);
      }
      return Ok(Quote(cost, priceAfter));
    }

    method GetSellQuote(outcome: nat, amount: int) returns (r: Result<Quote>)
      ensures r == MarketState.GetSellQuote(View(), outcome, amount)
      ensures Valid() && r.Ok? ==> 0 <= r.value.priceAfter <= SCALE
    {
      hide CalculateSellReturn, CalculatePrice, Sound;
      var _ :- RequireInitialized();
      var _ :- RequireNotResolved();
      if outcome > NO {
        return Err(InvalidOutcome);
      }
      if amount <= 0 {
        return Err(InvalidAmount);
      }
      var proceeds :- CalculateSellReturn(yesSold, noSold, amount, outcome, b);
      var newYes, newNo := yesSold, noSold;
      if outcome == YES {
        newYes :- Plain(yesSold - amount);
      } else {
        newNo :- Plain(noSold - amount);
      }
      var priceAfter :- CalculatePrice(newYes, newNo, outcome, b);
      if Valid() {
        SellWithin(View(), outcome, amount);
        SoundPrice(View(), funding, outcome, -amount);
      }
      return Ok(Quote(proceeds, priceAfter));
    }
  }
}
