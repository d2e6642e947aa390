/** What every run of the contract keeps, from deployment through trading, resolution, claims and
    the oracle's withdrawal. */
module MarketSafety {
  import opened Fixed
  import opened Lmsr
  import CostLaws
  import opened Sums
  import opened MarketState

  function Whole(v: int): int {
    v
  }

  // Outcome tokens: every balance is non-negative and each counter is the sum of its balances.
  ghost predicate TokensConserved(s: State) {
    && NonNegative(s.yesHeld) && NonNegative(s.noHeld)
    && s.yesSold == SumOf(s.yesHeld, Whole) && s.noSold == SumOf(s.noHeld, Whole)
  }

  // The collateral the oracle put in beyond the required liquidity.
  function Surplus(b: int, funding: int): int {
    funding - b * LN2_SCALED / SCALE
  }

  // A trading market. Its pool is a function of the two counters: the potential theorem.
  ghost predicate Open(s: State, funding: int) {
    && s.oracle.Some? && !s.resolved && 0 < s.b
    && 0 <= Surplus(s.b, funding) && 0 <= funding <= I128_MAX / 2
    && TokensConserved(s)
    && 0 <= s.yesSold && 0 <= s.noSold && CostFits(s.yesSold, s.noSold, s.b)
    && s.pool == Surplus(s.b, funding) + Potential(s.yesSold, s.noSold, s.b)
    && s.pool <= At(s.accounts, Contract)
  }

  // ---- The pricing calls, in terms of the potential ----

  function YesAfter(y: int, outcome: nat, delta: int): int {
    if outcome == YES then y + delta else y
  }

  function NoAfter(n: int, outcome: nat, delta: int): int {
    if outcome == YES then n else n + delta
  }

  // A defined cost uses at most 1/SCALE of the integer range, and so do the quantities.
  lemma PotentialRange(y: int, n: int, b: int)
    requires 0 <= y && 0 <= n && 0 < b && CostFits(y, n, b)
    ensures Max(y, n) <= Potential(y, n, b)
    ensures Potential(y, n, b) * SCALE <= I128_MAX && y * SCALE <= I128_MAX && n * SCALE <= I128_MAX
  {
    hide Inside;
    CostLaws.PotentialCovers(y, n, b);
  }

  // The cost of a purchase on non-negative quantities, every error included.
  lemma BuyCostValue(y: int, n: int, amount: int, outcome: nat, b: int)
    requires 0 <= y && 0 <= n
    ensures var y', n' := YesAfter(y, outcome, amount), NoAfter(n, outcome, amount);
      CalculateBuyCost(y, n, amount, outcome, b) ==
        if amount <= 0 then Err(InvalidAmount)
        else if b <= 0 then Err(InvalidLiquidity)
        else if !CostFits(y, n, b) then Err(Overflow)
        else if outcome > NO then Err(InvalidOutcome)
        else if CostFits(y', n', b) then Ok(Potential(y', n', b) - Potential(y, n, b)) else Err(Overflow)
  {
    hide Cost, Potential, CostFits, InitialLiquidity;
    if 0 < amount {
      var y', n' := YesAfter(y, outcome, amount), NoAfter(n, outcome, amount);
      CostValue(y, n, b);
      CostValue(y', n', b);
      if 0 < b && CostFits(y, n, b) {
        PotentialRange(y, n, b);
        if CostFits(y', n', b) {
          PotentialRange(y', n', b);
        }
      }
    }
  }

  // The same for a sale, which may ask for more than was ever sold.
  lemma SellReturnValue(y: int, n: int, amount: int, outcome: nat, b: int)
    requires 0 <= y && 0 <= n
    ensures var y', n' := YesAfter(y, outcome, -amount), NoAfter(n, outcome, -amount);
      CalculateSellReturn(y, n, amount, outcome, b) ==
        if amount <= 0 then Err(InvalidAmount)
        else if b <= 0 then Err(InvalidLiquidity)
        else if !CostFits(y, n, b) then Err(Overflow)
        else if outcome > NO then Err(InvalidOutcome)
        else if y' < 0 || n' < 0 then Err(InsufficientBalance)
        else if CostFits(y', n', b) then Ok(Potential(y, n, b) - Potential(y', n', b)) else Err(Overflow)
  {
    hide Cost, Potential, CostFits, InitialLiquidity;
    if 0 < amount {
      var y', n' := YesAfter(y, outcome, -amount), NoAfter(n, outcome, -amount);
      CostValue(y, n, b);
      if 0 < b && CostFits(y, n, b) {
        PotentialRange(y, n, b);
        if outcome <= NO && 0 <= y' && 0 <= n' {
          CostValue(y', n', b);
          if CostFits(y', n', b) {
            PotentialRange(y', n', b);
          }
        }
      }
    }
  }

  lemma BalanceWithinSold(s: State, outcome: nat, user: User)
    requires TokensConserved(s)
    ensures 0 <= At(s.Held(outcome), user) <= s.Sold(outcome)
  {
    SumAtLeast(s.Held(outcome), Whole, user);
  }

  lemma HeldUpdate(s: State, outcome: nat, user: User, delta: int)
    requires TokensConserved(s) && 0 <= At(s.Held(outcome), user) + delta
    ensures var balance := At(s.Held(outcome), user) + delta;
      TokensConserved(s.WithOutcome(outcome, s.Sold(outcome) + delta, s.Held(outcome)[user := balance]))
  {
    SumUpdate(s.Held(outcome), Whole, user, At(s.Held(outcome), user) + delta);
  }

  // ---- Exactly when trades succeed, and what they then do ----

  // The state after moving `delta` tokens of an outcome to `user`, at the potential's price.
  function Traded(s: State, user: User, outcome: nat, delta: int): State
    requires 0 <= s.yesSold && 0 <= s.noSold && 0 < s.b
    requires 0 <= s.Sold(outcome) + delta
  {
    var y, n := YesAfter(s.yesSold, outcome, delta), NoAfter(s.noSold, outcome, delta);
    var cost := Potential(y, n, s.b) - Potential(s.yesSold, s.noSold, s.b);
    var balance := At(s.Held(outcome), user) + delta;
    var paid := s.accounts[user := At(s.accounts, user) - cost];
    s.WithOutcome(outcome, s.Sold(outcome) + delta, s.Held(outcome)[user := balance])
      .(pool := s.pool + cost, accounts := paid[Contract := At(paid, Contract) + cost])
  }

  function TradeCost(s: State, outcome: nat, delta: int): int
    requires 0 <= s.yesSold && 0 <= s.noSold && 0 < s.b
    requires 0 <= s.Sold(outcome) + delta
  {
    Potential(YesAfter(s.yesSold, outcome, delta), NoAfter(s.noSold, outcome, delta), s.b)
      - Potential(s.yesSold, s.noSold, s.b)
  }

  predicate TradeFits(s: State, outcome: nat, delta: int)
    requires 0 <= s.yesSold && 0 <= s.noSold && 0 < s.b
    requires 0 <= s.Sold(outcome) + delta
  {
    CostFits(YesAfter(s.yesSold, outcome, delta), NoAfter(s.noSold, outcome, delta), s.b)
  }

  lemma PoolRange(b: int, funding: int, potential: int)
    requires 0 < b && 0 <= Surplus(b, funding) && funding <= I128_MAX / 2
    requires 0 <= potential && potential * SCALE <= I128_MAX
    ensures InRange(Surplus(b, funding) + potential) && 0 <= Surplus(b, funding) + potential
  {
    MulLe(0, b, LN2_SCALED);
    DivAtLeast(b * LN2_SCALED, SCALE, 0);
  }

  lemma Payment(accounts: map<Address, int>, user: User, amount: int)
    ensures var paid := accounts[user := At(accounts, user) - amount];
      Transfer(accounts, user, Contract, amount) ==
        if amount < 0 || At(accounts, user) < amount then Err(Trap)
        else Ok(paid[Contract := At(paid, Contract) + amount])
  {}

  lemma SoldInRange(s: State, funding: int, outcome: nat)
    requires Open(s, funding)
    ensures 0 <= s.Sold(outcome) && s.Sold(outcome) * SCALE <= I128_MAX
  {
    PotentialRange(s.yesSold, s.noSold, s.b);
  }

  // In an open market a valid purchase fails only for an overflowing cost, slippage, or a payment
  // the token refuses: a negative one, or one the buyer cannot make.
  lemma BuyOutcome(s: State, funding: int, user: User, outcome: nat, amount: int, maxCost: int)
    requires Open(s, funding) && outcome <= NO && 0 < amount
    ensures Buy(s, user, outcome, amount, maxCost) ==
      if !TradeFits(s, outcome, amount) then Err(Overflow)
      else if TradeCost(s, outcome, amount) > maxCost then Err(SlippageExceeded)
      else if TradeCost(s, outcome, amount) < 0 || At(s.accounts, user) < TradeCost(s, outcome, amount) then Err(Trap)
      else Ok(Done(Traded(s, user, outcome, amount), TradeCost(s, outcome, amount)))
  {
    hide Potential, CostFits, CalculateBuyCost, TokensConserved, SumOf, Transfer;
    Payment(s.accounts, user, TradeCost(s, outcome, amount));
    SoldInRange(s, funding, outcome);
    BuyCostValue(s.yesSold, s.noSold, amount, outcome, s.b);
    BalanceWithinSold(s, outcome, user);
    PotentialRange(s.yesSold, s.noSold, s.b);
    if TradeFits(s, outcome, amount) {
      var y, n := YesAfter(s.yesSold, outcome, amount), NoAfter(s.noSold, outcome, amount);
      PotentialRange(y, n, s.b);
      PoolRange(s.b, funding, Potential(y, n, s.b));
    }
  }

  lemma PayoutOrder(accounts: map<Address, int>, user: User, amount: int)
    requires 0 <= amount <= At(accounts, Contract)
    ensures var paid := accounts[user := At(accounts, user) + amount];
      Transfer(accounts, Contract, user, amount) ==
        Ok(paid[Contract := At(paid, Contract) - amount])
  {
    var paid := accounts[user := At(accounts, user) + amount];
    var owed := accounts[Contract := At(accounts, Contract) - amount];
    assert paid[Contract := At(paid, Contract) - amount] == owed[user := At(owed, user) + amount];
  }

  lemma NegativePayout(accounts: map<Address, int>, user: User, amount: int)
    requires amount < 0
    ensures Transfer(accounts, Contract, user, amount) == Err(Trap)
  {}

  // In an open market a valid sale fails only for tokens the user does not have, an overflowing
  // cost, a low return, or a negative one. `InsufficientPool`, and `InsufficientBalance` from the
  // quantity check, never occur.
  lemma SellOutcome(s: State, funding: int, user: User, outcome: nat, amount: int, minReturn: int)
    requires Open(s, funding) && outcome <= NO && 0 < amount
    ensures At(s.Held(outcome), user) <= s.Sold(outcome)
    ensures Sell(s, user, outcome, amount, minReturn) ==
      if At(s.Held(outcome), user) < amount then Err(InsufficientBalance)
      else if !TradeFits(s, outcome, -amount) then Err(Overflow)
      else if -TradeCost(s, outcome, -amount) < minReturn then Err(ReturnTooLow)
      else if -TradeCost(s, outcome, -amount) < 0 then Err(Trap)
      else Ok(Done(Traded(s, user, outcome, -amount), -TradeCost(s, outcome, -amount)))
  {
    hide Potential, CostFits, CalculateSellReturn, TokensConserved, SumOf, Transfer;
    BalanceWithinSold(s, outcome, user);
    SellReturnValue(s.yesSold, s.noSold, amount, outcome, s.b);
    PotentialRange(s.yesSold, s.noSold, s.b);
    SoldInRange(s, funding, outcome);
    if amount <= At(s.Held(outcome), user) && TradeFits(s, outcome, -amount) {
      var y, n := YesAfter(s.yesSold, outcome, -amount), NoAfter(s.noSold, outcome, -amount);
      PotentialRange(y, n, s.b);
      PoolRange(s.b, funding, Potential(y, n, s.b));
      var proceeds := -TradeCost(s, outcome, -amount);
      if 0 <= proceeds {
        PayoutOrder(s.accounts, user, proceeds);
      } else {
        NegativePayout(s.accounts, user, proceeds);
      }
    }
  }

  // ---- A resolved market ----

  // What a holder of w winning tokens is paid: 98%, rounded up.
  function Payout(w: int): int {
    w - w / 50
  }

  ghost predicate Closed(s: State, funding: int) {
    && s.oracle.Some? && s.resolved && s.winner <= NO && 0 < s.b && 0 <= Surplus(s.b, funding)
    && NonNegative(s.yesHeld) && NonNegative(s.noHeld) && 0 <= s.yesSold && 0 <= s.noSold
    && s.unclaimed == SumOf(s.Held(s.winner), Whole) && 0 <= s.unclaimed && s.unclaimed * SCALE <= I128_MAX
    && 0 <= s.pool <= I128_MAX && s.pool <= At(s.accounts, Contract)
  }

  // Before the oracle withdraws: every token of the winning outcome is covered in full.
  ghost predicate Settling(s: State, funding: int) {
    Closed(s, funding) && s.unclaimed + Surplus(s.b, funding) <= s.pool
  }

  // After the oracle has withdrawn: at most 98% of the unclaimed tokens is left.
  ghost predicate Withdrawn(s: State, funding: int) {
    Closed(s, funding) && 50 * s.pool <= 49 * s.unclaimed
  }

  lemma PayoutCeiling(w: int)
    requires 0 <= w
    ensures Payout(w) == (49 * w + 49) / 50 && 0 <= Payout(w) <= w && 49 * w <= 50 * Payout(w)
  {}

  lemma FeeValue(gross: int)
    requires 0 <= gross && gross * SCALE <= I128_MAX
    ensures Fee(gross) == Ok(gross / 50)
  {}

  lemma ReserveValue(unclaimed: int)
    requires 0 <= unclaimed && unclaimed * SCALE <= I128_MAX
    ensures Reserve(unclaimed) == Ok(49 * unclaimed / 50)
  {}

  lemma WinningBalance(s: State, funding: int, user: User)
    requires Closed(s, funding)
    ensures 0 <= At(s.Held(s.winner), user) <= s.unclaimed
  {
    SumAtLeast(s.Held(s.winner), Whole, user);
  }

  function PaidOut(accounts: map<Address, int>, user: User, amount: int): map<Address, int> {
    var owed := accounts[Contract := At(accounts, Contract) - amount];
    owed[user := At(owed, user) + amount]
  }

  function Claimed(s: State, user: User): State {
    var w := At(s.Held(s.winner), user);
    s.WithOutcome(s.winner, s.Sold(s.winner), s.Held(s.winner)[user := 0])
      .(unclaimed := s.unclaimed - w, pool := s.pool - Payout(w),
        accounts := PaidOut(s.accounts, user, Payout(w)))
  }

  // After resolution a claim fails only when there is nothing to claim or the pool is short; the
  // fee arithmetic never overflows.
  lemma ClaimOutcome(s: State, funding: int, user: User)
    requires Closed(s, funding)
    ensures var w := At(s.Held(s.winner), user);
      Claim(s, user) ==
        if w <= 0 then Err(NothingToClaim)
        else if s.pool < Payout(w) then Err(InsufficientPool)
        else Ok(Done(Claimed(s, user), Payout(w)))
  {
    hide Fee, SumOf;
    var w := At(s.Held(s.winner), user);
    WinningBalance(s, funding, user);
    FeeValue(w);
    PayoutCeiling(w);
  }

  // The oracle gets everything above the reserve, or nothing.
  lemma WithdrawOutcome(s: State, funding: int)
    requires Closed(s, funding)
    ensures var reserved := 49 * s.unclaimed / 50;
      WithdrawRemaining(s, s.oracle.value) ==
        if s.pool <= reserved then Err(NothingToClaim)
        else Ok(Done(s.(pool := reserved, accounts := PaidOut(s.accounts, s.oracle.value, s.pool - reserved)),
                     s.pool - reserved))
  {
    hide Reserve, SumOf;
    ReserveValue(s.unclaimed);
  }

  // ---- Exactly when a market is deployed ----

  lemma InitializeOutcome(accounts: map<Address, int>, oracle: User, b: int, funding: int)
    ensures Initialize(Fresh(accounts), oracle, b, funding) ==
      if b <= 0 then Err(InvalidLiquidity)
      else if I128_MAX < b * LN2_SCALED then Err(Overflow)
      else if funding < b * LN2_SCALED / SCALE then Err(InvalidAmount)
      else if I128_MAX / 2 < funding then Err(Overflow)
      else if At(accounts, oracle) < funding then Err(Trap)
      else
        var paid := accounts[oracle := At(accounts, oracle) - funding];
        var open := Fresh(paid[Contract := At(paid, Contract) + funding]);
        Ok(Done(open.(oracle := Some(oracle), b := b, pool := funding), 0))
  {
    hide Transfer;
    Payment(accounts, oracle, funding);
    if 0 < b {
      MulLe(0, b, LN2_SCALED);
      DivAtLeast(b * LN2_SCALED, SCALE, 0);
    }
  }

  // The services' rule of thumb, funding of 70% of b, is enough within the range and the oracle's
  // own funds.
  lemma SeventyPercentSuffices(accounts: map<Address, int>, oracle: User, b: int, funding: int)
    requires 0 < b && b * LN2_SCALED <= I128_MAX && 7 * b <= 10 * funding
    requires funding <= I128_MAX / 2 && funding <= At(accounts, oracle)
    ensures Initialize(Fresh(accounts), oracle, b, funding).Ok?
    ensures Initialize(Fresh(accounts), oracle, b, funding).value.state.pool == funding
  {
    hide Initialize;
    InitializeOutcome(accounts, oracle, b, funding);
  }

  // ---- Each entry point keeps the phase it finds, or moves it forward ----

  lemma DeployOpens(accounts: map<Address, int>, oracle: User, b: int, funding: int)
    requires 0 <= At(accounts, Contract)
    requires Initialize(Fresh(accounts), oracle, b, funding).Ok?
    ensures Open(Initialize(Fresh(accounts), oracle, b, funding).value.state, funding)
  {
    hide Cost, Potential, CostFits;
    CostLaws.CostAtOrigin(b);
    CostValue(0, 0, b);
    MulLe(0, b, LN2_SCALED);
    DivAtLeast(b * LN2_SCALED, SCALE, 0);
  }

  lemma TradeKeepsOpen(s: State, funding: int, user: User, outcome: nat, delta: int)
    requires Open(s, funding) && outcome <= NO
    requires 0 <= s.Sold(outcome) + delta && 0 <= At(s.Held(outcome), user) + delta && TradeFits(s, outcome, delta)
    ensures Open(Traded(s, user, outcome, delta), funding)
  {
    hide Potential, CostFits, SumOf;
    HeldUpdate(s, outcome, user, delta);
  }

  lemma ResolveSettles(s: State, funding: int, outcome: nat)
    requires Open(s, funding) && outcome <= NO
    ensures Settling(s.(resolved := true, winner := outcome, unclaimed := s.Sold(outcome)), funding)
  {
    hide Potential, CostFits, SumOf;
    PotentialRange(s.yesSold, s.noSold, s.b);
    PoolRange(s.b, funding, Potential(s.yesSold, s.noSold, s.b));
  }

  lemma ClaimKeepsClosed(s: State, funding: int, user: User)
    requires Closed(s, funding) && Payout(At(s.Held(s.winner), user)) <= s.pool
    ensures Closed(Claimed(s, user), funding)
    ensures Settling(s, funding) ==> Settling(Claimed(s, user), funding)
    ensures Withdrawn(s, funding) ==> Withdrawn(Claimed(s, user), funding)
  {
    hide SumOf;
    var w := At(s.Held(s.winner), user);
    WinningBalance(s, funding, user);
    PayoutCeiling(w);
    SumUpdate(s.Held(s.winner), Whole, user, 0);
  }

  lemma WithdrawKeepsClosed(s: State, funding: int, accounts: map<Address, int>)
    requires Closed(s, funding) && 49 * s.unclaimed / 50 <= At(accounts, Contract) && 49 * s.unclaimed / 50 < s.pool
    ensures Withdrawn(s.(pool := 49 * s.unclaimed / 50, accounts := accounts), funding)
  {
    hide SumOf;
  }

  ghost predicate Live(s: State, funding: int) {
    Open(s, funding) || Settling(s, funding) || Withdrawn(s, funding)
  }

  // What never changes in a live market, and what is final once decided.
  ghost predicate Advances(s: State, t: State, funding: int) {
    && t.oracle == s.oracle && t.b == s.b
    && (s.resolved ==> t.resolved && t.winner == s.winner && t.yesSold == s.yesSold && t.noSold == s.noSold)
    && (Withdrawn(s, funding) ==> Withdrawn(t, funding))
  }

  lemma CheckFirst(s: State, call: Call)
    requires call.CallBuy? || call.CallSell?
    ensures s.resolved || call.outcome > NO || call.amount <= 0 ==> Apply(s, call).Err?
    ensures call.CallSell? && At(s.Held(call.outcome), call.user) < call.amount ==> Apply(s, call).Err?
  {}

  lemma TradeStep(s: State, funding: int, call: Call)
    requires Open(s, funding) && (call.CallBuy? || call.CallSell?)
    ensures Open(Step(s, call), funding) && Advances(s, Step(s, call), funding)
  {
    hide Buy, Sell, Potential, CostFits, SumOf, TokensConserved, TradeCost, TradeFits;
    var user, outcome, amount := call.user, call.outcome, call.amount;
    CheckFirst(s, call);
    if outcome <= NO && 0 < amount {
      BalanceWithinSold(s, outcome, user);
      if call.CallBuy? {
        BuyOutcome(s, funding, user, outcome, amount, call.limit);
        if Apply(s, call).Ok? {
          TradeKeepsOpen(s, funding, user, outcome, amount);
        }
      } else if amount <= At(s.Held(outcome), user) {
        SellOutcome(s, funding, user, outcome, amount, call.limit);
        if Apply(s, call).Ok? {
          TradeKeepsOpen(s, funding, user, outcome, -amount);
        }
      }
    }
  }

  lemma OutsideStep(s: State, funding: int, user: User, to: Address, amount: int)
    requires Live(s, funding)
    ensures var t := Step(s, Outside(user, to, amount));
      Live(t, funding) && Advances(s, t, funding) && At(s.accounts, Contract) <= At(t.accounts, Contract)
    ensures var t := Step(s, Outside(user, to, amount));
      (Open(s, funding) ==> Open(t, funding)) && (Settling(s, funding) ==> Settling(t, funding))
  {
    hide Potential, CostFits, SumOf;
  }

  lemma OnlyOracle(s: State, user: User)
    requires s.oracle.Some? && s.resolved && user != s.oracle.value
    ensures WithdrawRemaining(s, user) == Err(Unauthorized)
  {}

  lemma ClosedStep(s: State, funding: int, call: Call)
    requires (Settling(s, funding) || Withdrawn(s, funding)) && !call.Outside?
    ensures Settling(Step(s, call), funding) || Withdrawn(Step(s, call), funding)
    ensures Advances(s, Step(s, call), funding)
  {
    hide SumOf, Claim, WithdrawRemaining;
    if call.CallClaim? {
      ClaimOutcome(s, funding, call.user);
      if Apply(s, call).Ok? {
        ClaimKeepsClosed(s, funding, call.user);
      }
    } else if call.CallWithdraw? {
      WithdrawOutcome(s, funding);
      if call.user != s.oracle.value {
        OnlyOracle(s, call.user);
      }
      if Apply(s, call).Ok? {
        WithdrawKeepsClosed(s, funding, Step(s, call).accounts);
      }
    }
  }

  lemma StepLive(s: State, funding: int, call: Call)
    requires Live(s, funding)
    ensures Live(Step(s, call), funding) && Advances(s, Step(s, call), funding)
  {
    hide SumOf, Potential, CostFits, TokensConserved, Buy, Sell;
    if call.Outside? {
      OutsideStep(s, funding, call.user, call.to, call.amount);
    } else if s.resolved {
      ClosedStep(s, funding, call);
    } else if call.CallBuy? || call.CallSell? {
      TradeStep(s, funding, call);
    } else if call.CallResolve? && Apply(s, call).Ok? {
      ResolveSettles(s, funding, call.outcome);
    }
  }

  lemma {:induction false} RunLive(s: State, funding: int, calls: seq<Call>)
    requires Live(s, funding)
    ensures Live(Run(s, calls), funding) && Advances(s, Run(s, calls), funding)
    decreases |calls|
  {
    hide Live, Step, Closed, Open;
    if calls != [] {
      StepLive(s, funding, calls[0]);
      RunLive(Step(s, calls[0]), funding, calls[1..]);
    }
  }

  // ---- Safety over every run ----

  lemma InvalidSale(s: State, user: User, outcome: nat, amount: int, minReturn: int)
    requires s.oracle.Some? && (s.resolved || outcome > NO || amount <= 0)
    ensures Sell(s, user, outcome, amount, minReturn) ==
      Err(if s.resolved then AlreadyResolved else if outcome > NO then InvalidOutcome else InvalidAmount)
  {}

  ghost function Deployed(accounts: map<Address, int>, oracle: User, b: int, funding: int): State
    requires Initialize(Fresh(accounts), oracle, b, funding).Ok?
  {
    Initialize(Fresh(accounts), oracle, b, funding).value.state
  }

  // In every reachable trading state the pool is funding - b ln 2 + cost(y, n), which covers the
  // larger counter; each counter is the sum of the balances behind it.
  lemma Solvency(accounts: map<Address, int>, oracle: User, b: int, funding: int, calls: seq<Call>)
    requires 0 <= At(accounts, Contract) && Initialize(Fresh(accounts), oracle, b, funding).Ok?
    ensures var s := Run(Deployed(accounts, oracle, b, funding), calls);
      !s.resolved ==>
        && InitialLiquidity(b).Ok? && Cost(s.yesSold, s.noSold, b).Ok?
        && s.pool == funding - InitialLiquidity(b).value + Cost(s.yesSold, s.noSold, b).value
        && Max(s.yesSold, s.noSold) <= s.pool <= At(s.accounts, Contract)
        && TokensConserved(s)
  {
    hide Run, Cost, Potential, CostFits, SumOf, TokensConserved;
    var s0 := Deployed(accounts, oracle, b, funding);
    DeployOpens(accounts, oracle, b, funding);
    RunLive(s0, funding, calls);
    var s := Run(s0, calls);
    if !s.resolved {
      CostValue(s.yesSold, s.noSold, b);
      PotentialRange(s.yesSold, s.noSold, b);
    }
  }

  // In every reachable resolved state the unclaimed counter is the sum of the winning balances, and
  // until the oracle withdraws the pool covers them in full.
  lemma SettlementSafety(accounts: map<Address, int>, oracle: User, b: int, funding: int, calls: seq<Call>)
    requires 0 <= At(accounts, Contract) && Initialize(Fresh(accounts), oracle, b, funding).Ok?
    ensures var s := Run(Deployed(accounts, oracle, b, funding), calls);
      s.resolved ==>
        && s.unclaimed == SumOf(s.Held(s.winner), Whole) && 0 <= s.pool <= At(s.accounts, Contract)
        && (s.unclaimed + funding - b * LN2_SCALED / SCALE <= s.pool || 50 * s.pool <= 49 * s.unclaimed)
  {
    hide Run, Potential, CostFits, SumOf, TokensConserved;
    var s0 := Deployed(accounts, oracle, b, funding);
    DeployOpens(accounts, oracle, b, funding);
    RunLive(s0, funding, calls);
  }

  // A sale never finds the pool short, whoever sells what to which limit.
  lemma SalesCovered(accounts: map<Address, int>, oracle: User, b: int, funding: int, calls: seq<Call>,
          user: User, outcome: nat, amount: int, minReturn: int)
    requires 0 <= At(accounts, Contract) && Initialize(Fresh(accounts), oracle, b, funding).Ok?
    ensures Sell(Run(Deployed(accounts, oracle, b, funding), calls), user, outcome, amount, minReturn)
         != Err(InsufficientPool)
  {
    hide Run, Potential, CostFits, SumOf, TokensConserved, Sell;
    var s0 := Deployed(accounts, oracle, b, funding);
    DeployOpens(accounts, oracle, b, funding);
    RunLive(s0, funding, calls);
    var s := Run(s0, calls);
    if !s.resolved && outcome <= NO && 0 < amount {
      SellOutcome(s, funding, user, outcome, amount, minReturn);
    } else {
      InvalidSale(s, user, outcome, amount, minReturn);
    }
  }

  lemma NotYet(s: State)
    requires s.oracle.Some? && !s.resolved
    ensures WithdrawRemaining(s, s.oracle.value) == Err(NotResolved)
  {}

  // A withdrawal pays the oracle at least the funding less b ln 2, whatever was traded and claimed
  // before it; and there is at most one.
  lemma BoundedMakerLoss(accounts: map<Address, int>, oracle: User, b: int, funding: int, calls: seq<Call>)
    requires 0 <= At(accounts, Contract) && Initialize(Fresh(accounts), oracle, b, funding).Ok?
    ensures var s := Run(Deployed(accounts, oracle, b, funding), calls);
      var w := WithdrawRemaining(s, oracle);
      w.Ok? ==> w.value.amount >= funding - InitialLiquidity(b).value
  {
    hide Run, Potential, CostFits, SumOf, TokensConserved, WithdrawRemaining;
    var s0 := Deployed(accounts, oracle, b, funding);
    DeployOpens(accounts, oracle, b, funding);
    RunLive(s0, funding, calls);
    var s := Run(s0, calls);
    if s.resolved {
      WithdrawOutcome(s, funding);
      MulLe(0, b, LN2_SCALED);
    } else {
      NotYet(s);
    }
  }

  lemma DrainedStays(s: State, funding: int, calls: seq<Call>)
    requires Withdrawn(s, funding)
    ensures WithdrawRemaining(Run(s, calls), s.oracle.value) == Err(NothingToClaim)
  {
    hide Run, Potential, CostFits, SumOf, TokensConserved, WithdrawRemaining;
    RunLive(s, funding, calls);
    WithdrawOutcome(Run(s, calls), funding);
  }

  // After one successful withdrawal every later one fails, whatever is called in between.
  lemma WithdrawOnce(
    accounts: map<Address, int>, oracle: User, b: int, funding: int, before: seq<Call>, after: seq<Call>)
    requires 0 <= At(accounts, Contract) && Initialize(Fresh(accounts), oracle, b, funding).Ok?
    requires WithdrawRemaining(Run(Deployed(accounts, oracle, b, funding), before), oracle).Ok?
    ensures var t := Step(Run(Deployed(accounts, oracle, b, funding), before), CallWithdraw(oracle));
      WithdrawRemaining(Run(t, after), oracle) == Err(NothingToClaim)
  {
    hide Run, Potential, CostFits, SumOf, TokensConserved, WithdrawRemaining;
    var s0 := Deployed(accounts, oracle, b, funding);
    DeployOpens(accounts, oracle, b, funding);
    RunLive(s0, funding, before);
    var s := Run(s0, before);
    if !s.resolved {
      NotYet(s);
    }
    WithdrawOutcome(s, funding);
    var t := Step(s, CallWithdraw(oracle));
    WithdrawKeepsClosed(s, funding, t.accounts);
    DrainedStays(t, funding, after);
  }
}
