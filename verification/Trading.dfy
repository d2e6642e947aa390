/** How trades compose: what a trader pays depends on where the market starts and ends, not on the
    path; round trips and splits are free; complete sets cost their face value; quotes are honoured. */
module Trading {
  import opened Fixed
  import opened Lmsr
  import CostLaws
  import Monotonicity
  import PriceLaws
  import Regimes
  import opened Sums
  import opened MarketState
  import opened MarketSafety

  // The same storage and token accounts, where an absent balance reads as 0.
  ghost predicate SameBooks(s: State, t: State) {
    && t.oracle == s.oracle && t.b == s.b && t.yesSold == s.yesSold && t.noSold == s.noSold && t.pool == s.pool
    && t.resolved == s.resolved && t.winner == s.winner && t.unclaimed == s.unclaimed
    && (forall u :: At(t.yesHeld, u) == At(s.yesHeld, u) && At(t.noHeld, u) == At(s.noHeld, u))
    && (forall a :: At(t.accounts, a) == At(s.accounts, a))
  }

  // ---- Path independence ----

  // From s to t one trader moved the counters and the pool, and nothing else changed: the trader's
  // balances moved with the counters and the collateral moved between the trader and the contract.
  ghost predicate Moved(s: State, t: State, user: User) {
    && t == s.(yesSold := t.yesSold, noSold := t.noSold, pool := t.pool,
               yesHeld := t.yesHeld, noHeld := t.noHeld, accounts := t.accounts)
    && At(t.yesHeld, user) - At(s.yesHeld, user) == t.yesSold - s.yesSold
    && At(t.noHeld, user) - At(s.noHeld, user) == t.noSold - s.noSold
    && At(s.accounts, user) - At(t.accounts, user) == t.pool - s.pool
    && At(t.accounts, Contract) - At(s.accounts, Contract) == t.pool - s.pool
    && (forall u :: u != user ==> At(t.yesHeld, u) == At(s.yesHeld, u) && At(t.noHeld, u) == At(s.noHeld, u))
    && (forall a :: a != user && a != Contract ==> At(t.accounts, a) == At(s.accounts, a))
  }

  predicate TradeBy(call: Call, user: User) {
    (call.CallBuy? || call.CallSell?) && call.user == user
  }

  lemma TradedMoves(s: State, funding: int, user: User, outcome: nat, delta: int)
    requires Open(s, funding) && outcome <= NO && 0 <= s.Sold(outcome) + delta
    ensures Moved(s, Traded(s, user, outcome, delta), user)
  {
    hide Potential, CostFits, SumOf, TokensConserved;
  }

  lemma TradeMoves(s: State, funding: int, user: User, call: Call)
    requires Open(s, funding) && TradeBy(call, user)
    ensures Open(Step(s, call), funding) && Moved(s, Step(s, call), user)
  {
    hide Buy, Sell, Potential, CostFits, SumOf, TokensConserved, TradeFits, Traded;
    TradeStep(s, funding, call);
    CheckFirst(s, call);
    if Apply(s, call).Ok? {
      BalanceWithinSold(s, call.outcome, user);
      if call.CallBuy? {
        BuyOutcome(s, funding, user, call.outcome, call.amount, call.limit);
        TradedMoves(s, funding, user, call.outcome, call.amount);
      } else {
        SellOutcome(s, funding, user, call.outcome, call.amount, call.limit);
        TradedMoves(s, funding, user, call.outcome, -call.amount);
      }
    }
  }

  lemma {:induction false} TradesMove(s: State, funding: int, user: User, calls: seq<Call>)
    requires Open(s, funding) && forall i :: 0 <= i < |calls| ==> TradeBy(calls[i], user)
    ensures Open(Run(s, calls), funding) && Moved(s, Run(s, calls), user)
    decreases |calls|
  {
    hide Open, Step, TradeBy;
    if calls != [] {
      TradeMoves(s, funding, user, calls[0]);
      TradesMove(Step(s, calls[0]), funding, user, calls[1..]);
    }
  }

  // A trader who reaches the same quantities by two sequences of trades, failed ones included, ends
  // with the same balances and the same collateral.
  lemma PathIndependence(s: State, funding: int, user: User, calls: seq<Call>, others: seq<Call>)
    requires Open(s, funding)
    requires forall i :: 0 <= i < |calls| ==> TradeBy(calls[i], user)
    requires forall i :: 0 <= i < |others| ==> TradeBy(others[i], user)
    requires Run(s, calls).yesSold == Run(s, others).yesSold && Run(s, calls).noSold == Run(s, others).noSold
    ensures SameBooks(Run(s, calls), Run(s, others))
  {
    hide Run, Potential, CostFits, SumOf, TokensConserved;
    TradesMove(s, funding, user, calls);
    TradesMove(s, funding, user, others);
  }

  // Whoever trades and whatever else is called, the pool of a trading market depends only on the
  // quantities it has reached.
  lemma PoolIndependence(s: State, funding: int, calls: seq<Call>, others: seq<Call>)
    requires Open(s, funding)
    requires var t, u := Run(s, calls), Run(s, others);
      !t.resolved && !u.resolved && t.yesSold == u.yesSold && t.noSold == u.noSold
    ensures Run(s, calls).pool == Run(s, others).pool
  {
    hide Run, Potential, CostFits, SumOf, TokensConserved;
    RunLive(s, funding, calls);
    RunLive(s, funding, others);
  }

  // Adding k of both outcomes, by any trades of any users, adds exactly k to the pool.
  lemma SetsCostFaceValue(s: State, funding: int, calls: seq<Call>, k: nat)
    requires Open(s, funding) && k * SCALE % s.b == 0
    requires var t := Run(s, calls);
      !t.resolved && t.yesSold == s.yesSold + k && t.noSold == s.noSold + k
    ensures Run(s, calls).pool == s.pool + k
  {
    hide Run, Potential, CostFits, SumOf, TokensConserved;
    RunLive(s, funding, calls);
    CostLaws.PotentialSet(s.yesSold, s.noSold, k, s.b);
  }

  // ---- Round trips and splits ----

  // The counters, and the cost of the next trade, after a trade.
  lemma AfterTrade(s: State, user: User, outcome: nat, delta: int, next: int)
    requires 0 <= s.yesSold && 0 <= s.noSold && 0 < s.b && outcome <= NO
    requires 0 <= s.Sold(outcome) + delta && 0 <= s.Sold(outcome) + delta + next
    ensures var t := Traded(s, user, outcome, delta);
      && t.b == s.b && t.Sold(outcome) == s.Sold(outcome) + delta
      && t.yesSold == YesAfter(s.yesSold, outcome, delta) && t.noSold == NoAfter(s.noSold, outcome, delta)
      && TradeCost(s, outcome, delta) + TradeCost(t, outcome, next) == TradeCost(s, outcome, delta + next)
      && (TradeFits(t, outcome, next) <==> TradeFits(s, outcome, delta + next))
  {
    hide Potential, CostFits, At;
    var t := Traded(s, user, outcome, delta);
    assert YesAfter(t.yesSold, outcome, next) == YesAfter(s.yesSold, outcome, delta + next);
    assert NoAfter(t.noSold, outcome, next) == NoAfter(s.noSold, outcome, delta + next);
  }

  lemma AtRest(s: State, outcome: nat)
    requires 0 <= s.yesSold && 0 <= s.noSold && 0 < s.b && outcome <= NO
    ensures TradeCost(s, outcome, 0) == 0
    ensures TradeFits(s, outcome, 0) <==> CostFits(s.yesSold, s.noSold, s.b)
  {
    hide Potential, CostFits;
  }

  // What was just bought can be sold at once for exactly what it cost, which restores the market.
  lemma RoundTrip(s: State, funding: int, user: User, outcome: nat, amount: int, maxCost: int, minReturn: int)
    requires Open(s, funding) && Buy(s, user, outcome, amount, maxCost).Ok?
    requires minReturn <= Buy(s, user, outcome, amount, maxCost).value.amount
    ensures var bought := Buy(s, user, outcome, amount, maxCost).value;
      var sold := Sell(bought.state, user, outcome, amount, minReturn);
      sold.Ok? && sold.value.amount == bought.amount && SameBooks(s, sold.value.state)
  {
    hide Buy, Sell, Potential, CostFits, SumOf, TokensConserved, Traded, TradeCost, TradeFits;
    CheckFirst(s, CallBuy(user, outcome, amount, maxCost));
    BuyOutcome(s, funding, user, outcome, amount, maxCost);
    TradedMoves(s, funding, user, outcome, amount);
    BalanceWithinSold(s, outcome, user);
    TradeKeepsOpen(s, funding, user, outcome, amount);
    AfterTrade(s, user, outcome, amount, -amount);
    AtRest(s, outcome);
    var t := Traded(s, user, outcome, amount);
    SellOutcome(t, funding, user, outcome, amount, minReturn);
    TradedMoves(t, funding, user, outcome, -amount);
    TradeKeepsOpen(t, funding, user, outcome, -amount);
    AfterTrade(t, user, outcome, -amount, 0);
  }

  // Two successful purchases in a row equal one purchase of the sum, at the sum of the prices.
  lemma SplitPurchase(s: State, funding: int, user: User, outcome: nat, first: int, second: int,
          firstLimit: int, secondLimit: int, wholeLimit: int)
    requires Open(s, funding) && Buy(s, user, outcome, first, firstLimit).Ok?
    requires var one := Buy(s, user, outcome, first, firstLimit).value;
      var two := Buy(one.state, user, outcome, second, secondLimit);
      two.Ok? && one.amount + two.value.amount <= wholeLimit
    ensures var one := Buy(s, user, outcome, first, firstLimit).value;
      var two := Buy(one.state, user, outcome, second, secondLimit).value;
      var whole := Buy(s, user, outcome, first + second, wholeLimit);
      whole.Ok? && whole.value.amount == one.amount + two.amount && SameBooks(two.state, whole.value.state)
  {
    hide Buy, Potential, CostFits, SumOf, TokensConserved, Traded, TradeFits;
    CheckFirst(s, CallBuy(user, outcome, first, firstLimit));
    BuyOutcome(s, funding, user, outcome, first, firstLimit);
    TradedMoves(s, funding, user, outcome, first);
    BalanceWithinSold(s, outcome, user);
    TradeKeepsOpen(s, funding, user, outcome, first);
    var t := Traded(s, user, outcome, first);
    CheckFirst(t, CallBuy(user, outcome, second, secondLimit));
    BuyOutcome(t, funding, user, outcome, second, secondLimit);
    AfterTrade(s, user, outcome, first, second);
    BuyOutcome(s, funding, user, outcome, first + second, wholeLimit);
    var split, whole := Traded(t, user, outcome, second), Traded(s, user, outcome, first + second);
    TradedMoves(t, funding, user, outcome, second);
    TradedMoves(s, funding, user, outcome, first + second);
    BalanceWithinSold(t, outcome, user);
    TradeKeepsOpen(t, funding, user, outcome, second);
    TradeKeepsOpen(s, funding, user, outcome, first + second);
    AfterTrade(t, user, outcome, second, 0);
    AfterTrade(s, user, outcome, first + second, 0);
  }

  // ---- Quotes ----

  // The price of an outcome when `delta` more of it are sold: defined up to 20b of either outcome.
  predicate PriceFitsAfter(s: State, outcome: nat, delta: int)
    requires 0 <= s.yesSold && 0 <= s.noSold && 0 < s.b && 0 <= s.Sold(outcome) + delta
  {
    PriceLaws.PriceFits(s.Sold(outcome) + delta, if outcome == YES then s.noSold else s.yesSold, s.b)
  }

  function PriceAfter(s: State, outcome: nat, delta: int): int
    requires 0 <= s.yesSold && 0 <= s.noSold && 0 < s.b && 0 <= s.Sold(outcome) + delta
    requires PriceFitsAfter(s, outcome, delta)
  {
    var q, n := s.Sold(outcome) + delta, if outcome == YES then s.noSold else s.yesSold;
    PriceLaws.WeightBounds(q, s.b);
    PriceLaws.WeightBounds(n, s.b);
    PriceLaws.Share(PriceLaws.Weight(q, s.b), PriceLaws.Weight(n, s.b))
  }

  lemma LiveRange(s: State, funding: int)
    requires Live(s, funding)
    ensures s.oracle.Some? && 0 <= s.yesSold && 0 <= s.noSold && 0 < s.b
    ensures !s.resolved ==> Open(s, funding) && CostFits(s.yesSold, s.noSold, s.b)
  {}

  lemma PriceAfterValue(s: State, outcome: nat, delta: int)
    requires 0 <= s.yesSold && 0 <= s.noSold && 0 < s.b && 0 <= s.Sold(outcome) + delta
    ensures CalculatePrice(YesAfter(s.yesSold, outcome, delta), NoAfter(s.noSold, outcome, delta), outcome, s.b) ==
      if !PriceFitsAfter(s, outcome, delta) then Err(Overflow)
      else if outcome > NO then Err(InvalidOutcome)
      else Ok(PriceAfter(s, outcome, delta))
  {
    hide CalculatePrice, PriceLaws.Weight, PriceLaws.Share;
    PriceLaws.PriceValue(YesAfter(s.yesSold, outcome, delta), NoAfter(s.noSold, outcome, delta), outcome, s.b);
  }

  // In every live market, resolved or not, a price is given exactly up to 20b of either outcome.
  lemma PriceAnswer(s: State, funding: int, outcome: nat)
    requires Live(s, funding)
    ensures 0 <= s.yesSold && 0 <= s.noSold && 0 < s.b
    ensures GetPrice(s, outcome) ==
      if !PriceFitsAfter(s, outcome, 0) then Err(Overflow)
      else if outcome > NO then Err(InvalidOutcome)
      else Ok(PriceAfter(s, outcome, 0))
  {
    hide CalculatePrice, PriceAfter, PriceFitsAfter;
    LiveRange(s, funding);
    PriceAfterValue(s, outcome, 0);
  }

  // Quoting a purchase: the only failure of a valid request is an overflow. The quote is given even
  // where the token would refuse the purchase.
  lemma QuoteValue(s: State, funding: int, outcome: nat, amount: int)
    requires Live(s, funding)
    ensures 0 <= s.yesSold && 0 <= s.noSold && 0 < s.b
    ensures GetQuote(s, outcome, amount) ==
      if s.resolved then Err(AlreadyResolved)
      else if outcome > NO then Err(InvalidOutcome)
      else if amount <= 0 then Err(InvalidAmount)
      else if TradeFits(s, outcome, amount) && PriceFitsAfter(s, outcome, amount) then
        Ok(Quote(TradeCost(s, outcome, amount), PriceAfter(s, outcome, amount)))
      else Err(Overflow)
  {
    hide CalculatePrice, CalculateBuyCost, Potential, CostFits, PriceAfter, PriceFitsAfter, Live, Open;
    LiveRange(s, funding);
    if !s.resolved && outcome <= NO && 0 < amount {
      BuyCostValue(s.yesSold, s.noSold, amount, outcome, s.b);
      PriceAfterValue(s, outcome, amount);
      if TradeFits(s, outcome, amount) {
        PotentialRange(YesAfter(s.yesSold, outcome, amount), NoAfter(s.noSold, outcome, amount), s.b);
      }
    }
  }

  // Quoting a sale: whoever asks, up to all tokens ever sold.
  lemma SellQuoteValue(s: State, funding: int, outcome: nat, amount: int)
    requires Live(s, funding)
    ensures 0 <= s.yesSold && 0 <= s.noSold && 0 < s.b
    ensures GetSellQuote(s, outcome, amount) ==
      if s.resolved then Err(AlreadyResolved)
      else if outcome > NO then Err(InvalidOutcome)
      else if amount <= 0 then Err(InvalidAmount)
      else if s.Sold(outcome) < amount then Err(InsufficientBalance)
      else if TradeFits(s, outcome, -amount) && PriceFitsAfter(s, outcome, -amount) then
        Ok(Quote(-TradeCost(s, outcome, -amount), PriceAfter(s, outcome, -amount)))
      else Err(Overflow)
  {
    hide CalculatePrice, CalculateSellReturn, Potential, CostFits, PriceAfter, PriceFitsAfter, Live, Open;
    LiveRange(s, funding);
    if !s.resolved && outcome <= NO && 0 < amount {
      SellReturnValue(s.yesSold, s.noSold, amount, outcome, s.b);
      if amount <= s.Sold(outcome) {
        PriceAfterValue(s, outcome, -amount);
        PotentialRange(s.yesSold, s.noSold, s.b);
      }
    }
  }

  lemma WithinTwenty(q: int, b: int)
    requires 0 <= q && 0 < b <= 10_000_000_000_000_000_000_000_000_000 && Ratio(q, b) <= 20 * SCALE
    ensures q <= 1_000_000_000_000_000_000_000_000_000_000
  {
    RatioFloor(q, b);
    MulLe(Ratio(q, b), 20 * SCALE, b);
  }

  // With b up to 10^28, a valid quote is given exactly when it leaves both ratios within 20.
  lemma QuoteGiven(s: State, funding: int, outcome: nat, delta: int)
    requires Open(s, funding) && s.b <= 10_000_000_000_000_000_000_000_000_000 && outcome <= NO
    requires delta != 0 && 0 <= s.Sold(outcome) + delta
    ensures var given := if 0 < delta then GetQuote(s, outcome, delta) else GetSellQuote(s, outcome, -delta);
      given.Ok? <==>
      Ratio(s.Sold(outcome) + delta, s.b) <= 20 * SCALE && Ratio(s.Sold(1 - outcome), s.b) <= 20 * SCALE
  {
    hide GetQuote, GetSellQuote, Potential, CostFits, Ratio, TokensConserved, Cost;
    if 0 < delta {
      QuoteValue(s, funding, outcome, delta);
    } else {
      SellQuoteValue(s, funding, outcome, -delta);
    }
    var q, n := s.Sold(outcome) + delta, s.Sold(1 - outcome);
    if Ratio(q, s.b) <= 20 * SCALE && Ratio(n, s.b) <= 20 * SCALE {
      WithinTwenty(q, s.b);
      WithinTwenty(n, s.b);
      var y', n' := YesAfter(s.yesSold, outcome, delta), NoAfter(s.noSold, outcome, delta);
      CostLaws.CostEnvelope(y', n', s.b);
      CostValue(y', n', s.b);
    }
  }

  // A purchase right after a quote moves exactly the quoted collateral and lands on the quoted price.
  lemma QuoteHonoured(s: State, user: User, outcome: nat, amount: int, maxCost: int)
    requires GetQuote(s, outcome, amount).Ok? && Buy(s, user, outcome, amount, maxCost).Ok?
    ensures var quote, bought := GetQuote(s, outcome, amount).value, Buy(s, user, outcome, amount, maxCost).value;
      bought.amount == quote.amount && GetPrice(bought.state, outcome) == Ok(quote.priceAfter)
  {
    hide CalculateBuyCost, CalculatePrice, Transfer;
  }

  lemma SellQuoteHonoured(s: State, user: User, outcome: nat, amount: int, minReturn: int)
    requires GetSellQuote(s, outcome, amount).Ok? && Sell(s, user, outcome, amount, minReturn).Ok?
    ensures var quote, sold := GetSellQuote(s, outcome, amount).value, Sell(s, user, outcome, amount, minReturn).value;
      sold.amount == quote.amount && GetPrice(sold.state, outcome) == Ok(quote.priceAfter)
  {
    hide CalculateSellReturn, CalculatePrice, Transfer;
  }

  // In an open market a quoted purchase goes through exactly when the quote is within the limit, not
  // negative and affordable.
  lemma QuoteExecutable(s: State, funding: int, user: User, outcome: nat, amount: int, maxCost: int)
    requires Open(s, funding) && GetQuote(s, outcome, amount).Ok?
    ensures var cost := GetQuote(s, outcome, amount).value.amount;
      Buy(s, user, outcome, amount, maxCost).Ok? <==> cost <= maxCost && 0 <= cost <= At(s.accounts, user)
  {
    hide Buy, Potential, CostFits, SumOf, TokensConserved, CalculateBuyCost, CalculatePrice;
    BuyOutcome(s, funding, user, outcome, amount, maxCost);
    BuyCostValue(s.yesSold, s.noSold, amount, outcome, s.b);
  }

  // ---- Prices ----

  // The price of an outcome never falls, and the other's never rises, from a state to one where more
  // of it is sold.
  lemma PriceRises(s: State, t: State, outcome: nat)
    requires outcome <= NO && 0 <= s.yesSold && 0 <= s.noSold && t.b == s.b && t.oracle == s.oracle
    requires s.Sold(outcome) <= t.Sold(outcome) && s.Sold(1 - outcome) == t.Sold(1 - outcome)
    requires GetPrice(s, outcome).Ok? && GetPrice(t, outcome).Ok?
    ensures GetPrice(s, outcome).value <= GetPrice(t, outcome).value
    ensures GetPrice(s, 1 - outcome).Ok? && GetPrice(t, 1 - outcome).Ok?
    ensures GetPrice(t, 1 - outcome).value <= GetPrice(s, 1 - outcome).value
  {
    hide CalculatePrice;
    if outcome == YES {
      PriceLaws.PriceFollowsQuantity(s.yesSold, t.yesSold, s.noSold, s.b);
    } else {
      PriceLaws.PriceSymmetric(s.noSold, s.yesSold, s.b);
      PriceLaws.PriceSymmetric(t.noSold, s.yesSold, s.b);
      PriceLaws.PriceSymmetric(s.yesSold, s.noSold, s.b);
      PriceLaws.PriceSymmetric(s.yesSold, t.noSold, s.b);
      PriceLaws.PriceFollowsQuantity(s.noSold, t.noSold, s.yesSold, s.b);
    }
  }

  // Buying never lowers the price of what is bought or raises the other one's; selling the reverse.
  lemma TradeMovesPrice(s: State, funding: int, call: Call)
    requires Open(s, funding) && (call.CallBuy? || call.CallSell?) && Apply(s, call).Ok?
    requires GetPrice(s, call.outcome).Ok? && GetPrice(Step(s, call), call.outcome).Ok?
    ensures var t, other := Step(s, call), 1 - call.outcome;
      && call.outcome <= NO && GetPrice(s, other).Ok? && GetPrice(t, other).Ok?
      && (call.CallBuy? ==>
            GetPrice(s, call.outcome).value <= GetPrice(t, call.outcome).value
            && GetPrice(t, other).value <= GetPrice(s, other).value)
      && (call.CallSell? ==>
            GetPrice(t, call.outcome).value <= GetPrice(s, call.outcome).value
            && GetPrice(s, other).value <= GetPrice(t, other).value)
  {
    hide Potential, CostFits, SumOf, TokensConserved, GetPrice, CalculateBuyCost, CalculateSellReturn;
    var t := Step(s, call);
    if call.CallBuy? {
      PriceRises(s, t, call.outcome);
    } else {
      BalanceWithinSold(s, call.outcome, call.user);
      PriceRises(t, s, call.outcome);
    }
  }

  // ---- Trades with a negative cost or return ----

  // How far the outcome traded is ahead of the other before, and after, a trade.
  function LeadBefore(s: State, outcome: nat): int
    requires 0 <= s.yesSold && 0 <= s.noSold && 0 < s.b && outcome <= NO
  {
    Regimes.Lead(s.Sold(outcome), s.Sold(1 - outcome), s.b)
  }

  function LeadAfter(s: State, outcome: nat, delta: int): int
    requires 0 <= s.yesSold && 0 <= s.noSold && 0 < s.b && outcome <= NO && 0 <= s.Sold(outcome) + delta
  {
    Regimes.Lead(s.Sold(outcome) + delta, s.Sold(1 - outcome), s.b)
  }

  // Both outcomes are priced alike.
  lemma CostOfOutcome(s: State, outcome: nat, delta: int)
    requires 0 <= s.yesSold && 0 <= s.noSold && 0 < s.b && outcome <= NO && 0 <= s.Sold(outcome) + delta
    ensures var q, n := s.Sold(outcome), s.Sold(1 - outcome);
      TradeCost(s, outcome, delta) == Potential(q + delta, n, s.b) - Potential(q, n, s.b)
  {
    hide Potential;
    if outcome == NO {
      CostLaws.PotentialSymmetric(s.noSold, s.yesSold, s.b);
      CostLaws.PotentialSymmetric(s.noSold + delta, s.yesSold, s.b);
    }
  }

  // A lower height after the trade lowers the cost, and a lower one before it raises it.
  lemma CostFollowsHeight(s: State, outcome: nat, delta: int, depth: nat)
    requires 0 <= s.yesSold && 0 <= s.noSold && 0 < s.b && outcome <= NO && 0 <= s.Sold(outcome) + delta
    ensures var x, y := LeadBefore(s, outcome), LeadAfter(s, outcome, delta);
      && (Regimes.Height(y) + depth <= Regimes.Height(x) ==>
            TradeCost(s, outcome, delta) <= -(depth * s.b / SCALE))
      && (Regimes.Height(x) + depth <= Regimes.Height(y) ==>
            depth * s.b / SCALE <= TradeCost(s, outcome, delta))
  {
    hide Potential, TradeCost, Regimes.Height, Regimes.Lead;
    CostOfOutcome(s, outcome, delta);
    var q, n := s.Sold(outcome), s.Sold(1 - outcome);
    var x, y := LeadBefore(s, outcome), LeadAfter(s, outcome, delta);
    if Regimes.Height(y) + depth <= Regimes.Height(x) {
      Regimes.PotentialFalls(q, q + delta, n, s.b, depth);
    }
    if Regimes.Height(x) + depth <= Regimes.Height(y) {
      Regimes.PotentialFalls(q + delta, q, n, s.b, depth);
    }
  }

  // A negative cost makes every purchase fail.
  lemma NegativeCostFails(s: State, funding: int, user: User, outcome: nat, amount: nat, maxCost: int)
    requires Open(s, funding) && outcome <= NO && 0 < amount && TradeCost(s, outcome, amount) < 0
    ensures Buy(s, user, outcome, amount, maxCost).Err?
    ensures 0 <= maxCost && TradeFits(s, outcome, amount) ==> Buy(s, user, outcome, amount, maxCost) == Err(Trap)
  {
    hide Buy, Potential, CostFits, SumOf, TokensConserved;
    BuyOutcome(s, funding, user, outcome, amount, maxCost);
  }

  // A purchase whose computed cost, or a sale whose computed return, is below zero by more than 1600
  // units per b moves between two distances of LossRegimes, upwards or downwards.
  lemma NegativeOnlyIn(s: State, funding: int, outcome: nat, amount: int)
    requires Open(s, funding) && outcome <= NO && 0 <= amount
    ensures TradeCost(s, outcome, amount) < -(1_600 * s.b / SCALE) - 1 ==>
      Regimes.MayLose(LeadBefore(s, outcome), LeadAfter(s, outcome, amount))
    ensures amount <= s.Sold(outcome) && -TradeCost(s, outcome, -amount) < -(1_600 * s.b / SCALE) - 1 ==>
      Regimes.MayLose(LeadAfter(s, outcome, -amount), LeadBefore(s, outcome))
  {
    hide Potential, TradeCost, SumOf, CostFits, TokensConserved, Regimes.Lead, Regimes.MayLose;
    CostOfOutcome(s, outcome, amount);
    var q, n := s.Sold(outcome), s.Sold(1 - outcome);
    if TradeCost(s, outcome, amount) < -(1_600 * s.b / SCALE) - 1 {
      Regimes.LossyPurchase(q, n, amount, s.b);
    }
    if amount <= q && -TradeCost(s, outcome, -amount) < -(1_600 * s.b / SCALE) - 1 {
      CostOfOutcome(s, outcome, -amount);
      Regimes.LossyPurchase(q - amount, n, amount, s.b);
    }
  }

  // A purchase within the limit and the buyer's funds is refused wherever the height is known to
  // fall, and goes through wherever it is known not to.
  lemma PurchaseDecided(s: State, funding: int, user: User, outcome: nat, amount: nat, maxCost: int)
    requires Open(s, funding) && outcome <= NO && 0 < amount && SCALE <= s.b
    requires TradeFits(s, outcome, amount) && 0 <= maxCost
    requires TradeCost(s, outcome, amount) <= Min(maxCost, At(s.accounts, user))
    ensures var x, y := LeadBefore(s, outcome), LeadAfter(s, outcome, amount);
      && (Regimes.Falls(x, y) ==> Buy(s, user, outcome, amount, maxCost) == Err(Trap))
      && (Regimes.Holds(x, y) ==> Buy(s, user, outcome, amount, maxCost).Ok?)
  {
    hide Buy, Potential, TradeCost, TradeFits, CostFits, SumOf, TokensConserved, Regimes.Height, Regimes.Lead;
    var x, y := LeadBefore(s, outcome), LeadAfter(s, outcome, amount);
    BuyOutcome(s, funding, user, outcome, amount, maxCost);
    if Regimes.Falls(x, y) {
      Regimes.FallsLoses(x, y);
      CostFollowsHeight(s, outcome, amount, 1);
    }
    if Regimes.Holds(x, y) {
      Regimes.HoldsKeeps(x, y);
      CostFollowsHeight(s, outcome, amount, 0);
    }
  }

  // A sale goes down where a purchase goes up: it is refused, or goes through, in the same places.
  lemma SaleDecided(s: State, funding: int, user: User, outcome: nat, amount: int, minReturn: int)
    requires Open(s, funding) && outcome <= NO && 0 < amount <= At(s.Held(outcome), user) && SCALE <= s.b
    requires amount <= s.Sold(outcome) && TradeFits(s, outcome, -amount)
    requires minReturn <= -TradeCost(s, outcome, -amount)
    ensures var x, y := LeadAfter(s, outcome, -amount), LeadBefore(s, outcome);
      && (Regimes.Falls(x, y) ==> Sell(s, user, outcome, amount, minReturn) == Err(Trap))
      && (Regimes.Holds(x, y) ==> Sell(s, user, outcome, amount, minReturn).Ok?)
  {
    hide Sell, Potential, TradeCost, TradeFits, CostFits, SumOf, TokensConserved, Regimes.Height, Regimes.Lead;
    var x, y := LeadAfter(s, outcome, -amount), LeadBefore(s, outcome);
    SellOutcome(s, funding, user, outcome, amount, minReturn);
    if Regimes.Falls(x, y) {
      Regimes.FallsLoses(x, y);
      CostFollowsHeight(s, outcome, -amount, 1);
    }
    if Regimes.Holds(x, y) {
      Regimes.HoldsKeeps(x, y);
      CostFollowsHeight(s, outcome, -amount, 0);
    }
  }

  // At equal ratios, purchases from 1e-7 b up to 1.6% of b compute a negative cost, so the token
  // refuses them whatever the limit.
  lemma SmallPurchaseFails(s: State, funding: int, user: User, outcome: nat, amount: nat, maxCost: int)
    requires Open(s, funding) && outcome <= NO && LeadBefore(s, outcome) == 0
    requires 2_584 <= s.b <= amount * SCALE && 1_000 * amount <= 16 * s.b
    ensures Buy(s, user, outcome, amount, maxCost).Err?
    ensures 0 <= maxCost && TradeFits(s, outcome, amount) ==> Buy(s, user, outcome, amount, maxCost) == Err(Trap)
  {
    hide Buy, Potential, TradeCost, CostFits, SumOf, TokensConserved, Ratio;
    CostOfOutcome(s, outcome, amount);
    CostLaws.PotentialDips(s.Sold(outcome), s.Sold(1 - outcome), amount, s.b);
    NegativeCostFails(s, funding, user, outcome, amount, maxCost);
  }

  // Behind by 8.84 to 20, every purchase that ends between 8.8 behind and level fails.
  lemma FarPurchaseFails(s: State, funding: int, user: User, outcome: nat, amount: nat, maxCost: int)
    requires Open(s, funding) && outcome <= NO && 134 <= s.b
    requires -20 * SCALE <= LeadBefore(s, outcome) <= -88_400_000
    requires -88_000_000 <= LeadAfter(s, outcome, amount) <= 0
    ensures TradeCost(s, outcome, amount) <= -(75_000 * s.b / SCALE)
    ensures Buy(s, user, outcome, amount, maxCost).Err?
    ensures 0 <= maxCost && TradeFits(s, outcome, amount) ==> Buy(s, user, outcome, amount, maxCost) == Err(Trap)
  {
    hide Buy, Potential, TradeCost, CostFits, SumOf, TokensConserved, Regimes.Lead, Regimes.Height;
    Regimes.FarFalls(LeadBefore(s, outcome), LeadAfter(s, outcome, amount));
    CostFollowsHeight(s, outcome, amount, 75_000);
    NegativeCostFails(s, funding, user, outcome, amount, maxCost);
  }

  // Ahead by 12.7 to 20, every purchase that crosses 20 in a move of at most 7.33 fails, and from 13
  // ahead every one of at most 7.5.
  lemma PastCapPurchaseFails(s: State, funding: int, user: User, outcome: nat, amount: nat, maxCost: int)
    requires Open(s, funding) && outcome <= NO && (88 <= s.b || (9 <= s.b && 13 * SCALE <= LeadBefore(s, outcome)))
    requires var x, y := LeadBefore(s, outcome), LeadAfter(s, outcome, amount);
      127_000_000 <= x <= 20 * SCALE < y && y - x <= if x < 13 * SCALE then 73_300_000 else 75_000_000
    ensures TradeCost(s, outcome, amount)
      <= -((if LeadBefore(s, outcome) < 13 * SCALE then 114_000 else 1_246_000) * s.b / SCALE)
    ensures Buy(s, user, outcome, amount, maxCost).Err?
    ensures 0 <= maxCost && TradeFits(s, outcome, amount) ==> Buy(s, user, outcome, amount, maxCost) == Err(Trap)
  {
    hide Buy, Potential, TradeCost, CostFits, SumOf, TokensConserved, Regimes.Lead, Regimes.Height;
    Regimes.PastCapFalls(LeadBefore(s, outcome), LeadAfter(s, outcome, amount));
    CostFollowsHeight(s, outcome, amount, if LeadBefore(s, outcome) < 13 * SCALE then 114_000 else 1_246_000);
    NegativeCostFails(s, funding, user, outcome, amount, maxCost);
  }

  // At equal ratios a purchase the buyer can pay for fails exactly when it moves the ratio by one unit
  // up to 1.852%: from 1.855% on, and when the ratio does not move, it succeeds. Between the two
  // bounds rounding decides.
  lemma BalancePurchase(s: State, funding: int, user: User, outcome: nat, amount: nat, maxCost: int)
    requires Open(s, funding) && outcome <= NO && 0 < amount && SCALE <= s.b && LeadBefore(s, outcome) == 0
    requires TradeFits(s, outcome, amount) && 0 <= maxCost
    requires TradeCost(s, outcome, amount) <= Min(maxCost, At(s.accounts, user))
    requires !(185_200 < LeadAfter(s, outcome, amount) < 185_500)
    ensures Buy(s, user, outcome, amount, maxCost).Ok? <==> !(1 <= LeadAfter(s, outcome, amount) <= 185_200)
    ensures 1 <= LeadAfter(s, outcome, amount) <= 185_200 ==> Buy(s, user, outcome, amount, maxCost) == Err(Trap)
  {
    hide Buy, Potential, TradeCost, TradeFits, CostFits, SumOf, TokensConserved, Regimes.Height;
    CostLaws.RatioLe(s.Sold(outcome), s.Sold(outcome) + amount, s.b);
    PurchaseDecided(s, funding, user, outcome, amount, maxCost);
  }

  // Selling back to equal ratios fails exactly from up to 1.852% ahead, and succeeds from 1.855% ahead
  // or from equal ratios.
  lemma BalanceSale(s: State, funding: int, user: User, outcome: nat, amount: int, minReturn: int)
    requires Open(s, funding) && outcome <= NO && 0 < amount <= At(s.Held(outcome), user) && SCALE <= s.b
    requires amount <= s.Sold(outcome) && TradeFits(s, outcome, -amount) && LeadAfter(s, outcome, -amount) == 0
    requires minReturn <= -TradeCost(s, outcome, -amount)
    requires !(185_200 < LeadBefore(s, outcome) < 185_500)
    ensures Sell(s, user, outcome, amount, minReturn).Ok? <==> !(1 <= LeadBefore(s, outcome) <= 185_200)
    ensures 1 <= LeadBefore(s, outcome) <= 185_200 ==> Sell(s, user, outcome, amount, minReturn) == Err(Trap)
  {
    hide Sell, Potential, TradeCost, TradeFits, CostFits, SumOf, TokensConserved, Regimes.Height;
    CostLaws.RatioLe(s.Sold(outcome) - amount, s.Sold(outcome), s.b);
    SaleDecided(s, funding, user, outcome, amount, minReturn);
  }

  // The funds and the limit that suffice at equal ratios, up to 8.8.
  lemma BalanceCost(s: State, funding: int, outcome: nat, amount: nat)
    requires Open(s, funding) && outcome <= NO && LeadBefore(s, outcome) == 0
    requires LeadAfter(s, outcome, amount) <= 88_000_000
    ensures TradeCost(s, outcome, amount) <= amount + s.b / SCALE + 1
  {
    hide Potential, TradeCost, CostFits, SumOf, TokensConserved;
    CostOfOutcome(s, outcome, amount);
    Regimes.BalanceCostAtMost(s.Sold(outcome), s.Sold(1 - outcome), amount, s.b);
  }

  lemma QuoteIsCost(s: State, funding: int, outcome: nat, amount: int)
    requires Open(s, funding) && GetQuote(s, outcome, amount).Ok?
    ensures outcome <= NO && 0 < amount && GetQuote(s, outcome, amount).value.amount == TradeCost(s, outcome, amount)
  {
    hide Potential, CostFits, SumOf, TokensConserved, CalculateBuyCost, CalculatePrice;
    BuyCostValue(s.yesSold, s.noSold, amount, outcome, s.b);
  }

  // Within 6 of balance, neither starting nor ending on it, a quoted purchase costs between 0 and its
  // face value, up to rounding; within 1, with less rounding.
  lemma QuoteBounds(s: State, funding: int, outcome: nat, amount: int)
    requires Open(s, funding) && GetQuote(s, outcome, amount).Ok? && 0 < amount && outcome <= NO
    requires -6 * SCALE <= LeadBefore(s, outcome) && LeadAfter(s, outcome, amount) <= 6 * SCALE
    requires LeadBefore(s, outcome) != 0 && LeadAfter(s, outcome, amount) != 0
    ensures var cost := GetQuote(s, outcome, amount).value.amount;
      && -(1_388 * s.b / SCALE) - 1 <= cost <= amount + 1_389 * s.b / SCALE + 1
      && (-SCALE <= LeadBefore(s, outcome) && LeadAfter(s, outcome, amount) <= SCALE ==>
            -(206 * s.b / SCALE) - 1 <= cost <= amount + 207 * s.b / SCALE + 1)
  {
    hide GetQuote, Potential, TradeCost, CostFits, SumOf, TokensConserved, Regimes.Height;
    QuoteIsCost(s, funding, outcome, amount);
    CostOfOutcome(s, outcome, amount);
    CostLaws.RatioLe(s.Sold(outcome), s.Sold(outcome) + amount, s.b);
    Regimes.CostFollows(s.Sold(outcome), s.Sold(1 - outcome), amount, s.b);
    if -SCALE <= LeadBefore(s, outcome) && LeadAfter(s, outcome, amount) <= SCALE {
      Monotonicity.MonotoneOffBalance(s.Sold(outcome), s.Sold(1 - outcome), amount, s.b);
    }
  }

  // For example one token of a market that has just opened with b at 100 tokens fails.
  lemma FirstTokenFails(accounts: map<Address, int>, oracle: User, funding: int, user: User, maxCost: int)
    requires 0 <= At(accounts, Contract) && Initialize(Fresh(accounts), oracle, 100 * SCALE, funding).Ok?
    ensures Buy(Deployed(accounts, oracle, 100 * SCALE, funding), user, YES, SCALE, maxCost).Err?
  {
    hide Buy, Potential, CostFits, SumOf, TokensConserved;
    DeployOpens(accounts, oracle, 100 * SCALE, funding);
    SmallPurchaseFails(Deployed(accounts, oracle, 100 * SCALE, funding), funding, user, YES, SCALE, maxCost);
  }

  // ---- Large purchases ----

  // Within 8b of balance, a purchase that takes its outcome b ln 2 past the larger quantity costs
  // something between 0 and the rise of the maximum plus b ln 2, so a buyer who can pay that succeeds.
  lemma LargePurchaseSucceeds(s: State, funding: int, user: User, outcome: nat, amount: int, maxCost: int)
    requires Open(s, funding) && outcome <= NO && 0 < amount
    requires var y, n, sold := s.yesSold, s.noSold, s.Sold(outcome) + amount;
      && Max(y, n) - Min(y, n) <= 8 * s.b && sold - s.Sold(1 - outcome) <= 8 * s.b
      && Max(y, n) + s.b * LN2_SCALED / SCALE <= sold <= 1_000_000_000_000_000_000_000_000_000_000
      && s.b <= 10_000_000_000_000_000_000_000_000_000
    requires var most := s.Sold(outcome) + amount - Max(s.yesSold, s.noSold) + s.b * LN2_SCALED / SCALE;
      most <= maxCost && most <= At(s.accounts, user)
    ensures var bought := Buy(s, user, outcome, amount, maxCost);
      && bought.Ok?
      && 0 <= bought.value.amount
           <= s.Sold(outcome) + amount - Max(s.yesSold, s.noSold) + s.b * LN2_SCALED / SCALE
  {
    hide Buy, Potential, CostFits, SumOf, TokensConserved, Cost;
    var y, n := YesAfter(s.yesSold, outcome, amount), NoAfter(s.noSold, outcome, amount);
    MulLe(0, s.b, LN2_SCALED);
    CostLaws.PotentialCovers(y, n, s.b);
    CostLaws.DistanceWithin(y, n, s.b);
    CostLaws.PotentialAtMost(y, n, s.b);
    CostLaws.PotentialCovers(s.yesSold, s.noSold, s.b);
    CostLaws.DistanceWithin(s.yesSold, s.noSold, s.b);
    CostLaws.PotentialAtMost(s.yesSold, s.noSold, s.b);
    CostLaws.CostEnvelope(y, n, s.b);
    CostValue(y, n, s.b);
    BuyOutcome(s, funding, user, outcome, amount, maxCost);
  }

  // For example 100 YES tokens of a market that opens with b at 100 tokens and 70 tokens of funding.
  lemma HundredTokensSucceed(oracle: User, user: User)
    requires user != oracle
    ensures var accounts: map<Address, int> := map[oracle := 70 * SCALE, user := 200 * SCALE];
      && Initialize(Fresh(accounts), oracle, 100 * SCALE, 70 * SCALE).Ok?
      && Buy(Deployed(accounts, oracle, 100 * SCALE, 70 * SCALE), user, YES, 100 * SCALE, 200 * SCALE).Ok?
  {
    hide Buy, Potential, CostFits, SumOf, TokensConserved;
    var accounts: map<Address, int> := map[oracle := 70 * SCALE, user := 200 * SCALE];
    DeployOpens(accounts, oracle, 100 * SCALE, 70 * SCALE);
    var s := Deployed(accounts, oracle, 100 * SCALE, 70 * SCALE);
    LargePurchaseSucceeds(s, 70 * SCALE, user, YES, 100 * SCALE, 200 * SCALE);
  }

  // Starting within 8b of balance, but with no bound on where it ends: funds for 82 ln 2 + 1 times b
  // above the rise of the maximum suffice.
  lemma LongPurchaseSucceeds(s: State, funding: int, user: User, outcome: nat, amount: int, maxCost: int)
    requires Open(s, funding) && outcome <= NO && 0 < amount
    requires var y, n, sold := s.yesSold, s.noSold, s.Sold(outcome) + amount;
      && Max(y, n) - Min(y, n) <= 8 * s.b
      && Max(y, n) + s.b * LN2_SCALED / SCALE <= sold <= 1_000_000_000_000_000_000_000_000_000_000
      && s.b <= 10_000_000_000_000_000_000_000_000_000
    requires var most := s.Sold(outcome) + amount - Max(s.yesSold, s.noSold) + s.b * LN_CAP / SCALE;
      most <= maxCost && most <= At(s.accounts, user)
    ensures Buy(s, user, outcome, amount, maxCost).Ok?
  {
    hide Buy, Potential, CostFits, SumOf, TokensConserved, Cost;
    var y, n := YesAfter(s.yesSold, outcome, amount), NoAfter(s.noSold, outcome, amount);
    CostLaws.PotentialCovers(y, n, s.b);
    CostLaws.PotentialCapped(y, n, s.b);
    CostLaws.PotentialCovers(s.yesSold, s.noSold, s.b);
    CostLaws.DistanceWithin(s.yesSold, s.noSold, s.b);
    CostLaws.PotentialAtMost(s.yesSold, s.noSold, s.b);
    CostLaws.CostEnvelope(y, n, s.b);
    CostValue(y, n, s.b);
    BuyOutcome(s, funding, user, outcome, amount, maxCost);
  }

  // A market with b at 100 tokens in which one user has bought `amount` YES tokens.
  ghost function OneSided(oracle: User, user: User, amount: int): State
    requires user != oracle && 70 * SCALE <= amount <= 10_000 * SCALE
  {
    var accounts: map<Address, int> := map[oracle := 70 * SCALE, user := 20_000 * SCALE];
    Run(Deployed(accounts, oracle, 100 * SCALE, 70 * SCALE), [CallBuy(user, YES, amount, 20_000 * SCALE)])
  }

  lemma OneSidedOpens(oracle: User, user: User, amount: int)
    requires user != oracle && 70 * SCALE <= amount <= 10_000 * SCALE
    ensures var s := OneSided(oracle, user, amount);
      Open(s, 70 * SCALE) && s.b == 100 * SCALE && s.yesSold == amount && s.noSold == 0
  {
    hide Buy, Potential, CostFits, SumOf, TokensConserved;
    var accounts: map<Address, int> := map[oracle := 70 * SCALE, user := 20_000 * SCALE];
    var s := Deployed(accounts, oracle, 100 * SCALE, 70 * SCALE);
    DeployOpens(accounts, oracle, 100 * SCALE, 70 * SCALE);
    LongPurchaseSucceeds(s, 70 * SCALE, user, YES, amount, 20_000 * SCALE);
    BuyOutcome(s, 70 * SCALE, user, YES, amount, 20_000 * SCALE);
    TradeKeepsOpen(s, 70 * SCALE, user, YES, amount);
    var call := CallBuy(user, YES, amount, 20_000 * SCALE);
    assert Run(s, [call]) == Run(Step(s, call), [call][1..]);
  }

  // After 890 YES tokens the other outcome is 8.9 behind, and one NO token cannot be bought.
  lemma FarTokenFails(oracle: User, user: User, maxCost: int)
    requires user != oracle
    ensures var s := OneSided(oracle, user, 890 * SCALE);
      && Open(s, 70 * SCALE) && LeadBefore(s, NO) == -89_000_000
      && Buy(s, user, NO, SCALE, maxCost).Err?
  {
    hide Buy, Potential, CostFits, SumOf, TokensConserved, OneSided, Regimes.Height;
    OneSidedOpens(oracle, user, 890 * SCALE);
    var s := OneSided(oracle, user, 890 * SCALE);
    Regimes.FallsLoses(LeadBefore(s, NO), LeadAfter(s, NO, SCALE));
    CostFollowsHeight(s, NO, SCALE, 1);
    NegativeCostFails(s, 70 * SCALE, user, NO, SCALE, maxCost);
  }

  // After 1400 YES tokens YES is 14 ahead, and a purchase of 650 more, which crosses 20, fails.
  lemma PastCapTokensFail(oracle: User, user: User, maxCost: int)
    requires user != oracle
    ensures var s := OneSided(oracle, user, 1_400 * SCALE);
      && Open(s, 70 * SCALE) && LeadBefore(s, YES) == 14 * SCALE
      && Buy(s, user, YES, 650 * SCALE, maxCost).Err?
  {
    hide Buy, Potential, CostFits, SumOf, TokensConserved, OneSided, Regimes.Height;
    OneSidedOpens(oracle, user, 1_400 * SCALE);
    PastCapPurchaseFails(OneSided(oracle, user, 1_400 * SCALE), 70 * SCALE, user, YES, 650 * SCALE, maxCost);
  }
}
