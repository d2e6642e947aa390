/** Claims after resolution: who can be paid before and after the oracle's withdrawal.

    Payouts round up and the reserve rounds down, so a withdrawal leaves the holders short by exactly
    ceil(R / 50), where R is the sum of their balances modulo 50. */
module Settlement {
  import opened Fixed
  import opened Lmsr
  import opened Sums
  import opened MarketState
  import opened MarketSafety
  import Trading

  function Remainder(w: int): int {
    w % 50
  }

  function Counts(w: int): int {
    if w > 0 then 1 else 0
  }

  ghost predicate AllFifties(m: map<User, int>) {
    forall u :: u in m ==> m[u] % 50 == 0
  }

  ghost function Owed(s: State): int {
    SumOf(s.Held(s.winner), Payout)
  }

  ghost function Holders(s: State): int {
    SumOf(s.Held(s.winner), Counts)
  }

  lemma PayoutOf(w: int)
    requires 0 <= w
    ensures 50 * Payout(w) == 49 * w + Remainder(w) && 0 <= Payout(w) <= w
    ensures 0 <= Remainder(w) <= 49 * Counts(w) && (Remainder(w) == 0 <==> w % 50 == 0)
  {}

  lemma FiftiesWithout(m: map<User, int>, u: User)
    requires u in m
    ensures AllFifties(m) <==> m[u] % 50 == 0 && AllFifties(m - {u})
  {
    if m[u] % 50 == 0 && AllFifties(m - {u}) {
      forall v | v in m
        ensures m[v] % 50 == 0
      {
        assert v == u || v in m - {u};
      }
    }
  }

  // 50 * payouts = 49 * tokens + R, where R is at most 49 per holder and 0 exactly when all
  // balances are multiples of 50.
  lemma {:induction false} PayoutTotals(m: map<User, int>)
    requires NonNegative(m)
    ensures 50 * SumOf(m, Payout) == 49 * SumOf(m, Whole) + SumOf(m, Remainder)
    ensures 0 <= SumOf(m, Remainder) <= 49 * SumOf(m, Counts)
    ensures SumOf(m, Remainder) == 0 <==> AllFifties(m)
    ensures 0 <= SumOf(m, Payout) <= SumOf(m, Whole)
    decreases |m|
  {
    if m != map[] {
      hide SumOf, AllFifties, Payout, Remainder, Counts;
      var u :| u in m;
      PayoutOf(m[u]);
      SumWithout(m, Payout, u);
      SumWithout(m, Whole, u);
      SumWithout(m, Remainder, u);
      SumWithout(m, Counts, u);
      FiftiesWithout(m, u);
      PayoutTotals(m - {u});
    }
  }

  function CeilFiftieth(r: int): int {
    (r + 49) / 50
  }

  // ---- Before the withdrawal ----

  lemma StillCovered(s: State, funding: int, call: Call)
    requires Open(s, funding) || Settling(s, funding)
    requires !call.CallWithdraw?
    ensures Open(Step(s, call), funding) || Settling(Step(s, call), funding)
  {
    hide SumOf, Potential, CostFits, TokensConserved, Buy, Sell;
    if call.Outside? {
      OutsideStep(s, funding, call.user, call.to, call.amount);
    } else if s.resolved {
      hide Claim;
      if call.CallClaim? {
        ClaimOutcome(s, funding, call.user);
        if Apply(s, call).Ok? {
          ClaimKeepsClosed(s, funding, call.user);
        }
      } else if call.CallBuy? || call.CallSell? {
        CheckFirst(s, call);
      }
    } else if call.CallBuy? || call.CallSell? {
      TradeStep(s, funding, call);
    } else if call.CallResolve? && Apply(s, call).Ok? {
      ResolveSettles(s, funding, call.outcome);
    }
  }

  lemma {:induction false} NoWithdrawalYet(s: State, funding: int, calls: seq<Call>)
    requires Open(s, funding) || Settling(s, funding)
    requires forall i :: 0 <= i < |calls| ==> !calls[i].CallWithdraw?
    ensures var t := Run(s, calls); Open(t, funding) || Settling(t, funding)
    decreases |calls|
  {
    if calls != [] {
      var call := calls[0];
      StillCovered(s, funding, call);
      hide Open, Settling, Step;
      NoWithdrawalYet(Step(s, call), funding, calls[1..]);
    }
  }

  // Until the oracle withdraws, every holder's claim succeeds and pays ceil(49 w / 50).
  lemma ClaimsBeforeWithdrawal(
    accounts: map<Address, int>, oracle: User, b: int, funding: int, calls: seq<Call>, user: User)
    requires 0 <= At(accounts, Contract) && Initialize(Fresh(accounts), oracle, b, funding).Ok?
    requires forall i :: 0 <= i < |calls| ==> !calls[i].CallWithdraw?
    ensures var s := Run(Deployed(accounts, oracle, b, funding), calls);
      var w := At(s.Held(s.winner), user);
      s.resolved && w > 0 ==>
        && Claim(s, user).Ok? && Claim(s, user).value.amount == (49 * w + 49) / 50
        && At(Step(s, CallClaim(user)).Held(s.winner), user) == 0
  {
    hide Run, SumOf, Potential, CostFits, TokensConserved, Claim;
    var s0 := Deployed(accounts, oracle, b, funding);
    DeployOpens(accounts, oracle, b, funding);
    NoWithdrawalYet(s0, funding, calls);
    var s := Run(s0, calls);
    var w := At(s.Held(s.winner), user);
    if s.resolved && w > 0 {
      ClaimOutcome(s, funding, user);
      WinningBalance(s, funding, user);
      PayoutCeiling(w);
    }
  }

  lemma EmptyClaim(s: State, user: User)
    requires s.oracle.Some? && s.resolved && At(s.Held(s.winner), user) == 0
    ensures Claim(s, user) == Err(NothingToClaim)
  {}

  lemma StaysEmpty(s: State, user: User, call: Call)
    requires s.oracle.Some? && s.resolved && At(s.Held(s.winner), user) == 0
    ensures var t := Step(s, call);
      t.resolved && t.winner == s.winner && At(t.Held(t.winner), user) == 0
  {
    hide CalculateBuyCost, CalculateSellReturn, InitialLiquidity, Fee, Reserve;
  }

  // A winning balance that is empty stays empty, so nobody is paid twice.
  lemma {:induction false} PaidOnce(s: State, funding: int, user: User, calls: seq<Call>)
    requires Live(s, funding) && s.resolved && At(s.Held(s.winner), user) == 0
    ensures Claim(Run(s, calls), user) == Err(NothingToClaim)
    decreases |calls|
  {
    if calls == [] {
      EmptyClaim(s, user);
    } else {
      StepLive(s, funding, calls[0]);
      StaysEmpty(s, user, calls[0]);
      hide Live, Step, Claim;
      PaidOnce(Step(s, calls[0]), funding, user, calls[1..]);
    }
  }

  // ---- After the withdrawal ----

  // What the holders are still owed exceeds the pool by d.
  ghost predicate Short(s: State, funding: int, d: int) {
    Withdrawn(s, funding) && Owed(s) - s.pool == d
  }

  // A withdrawal leaves the holders short by exactly ceil(R / 50), which is at most their number.
  lemma WithdrawalShortfall(s: State, funding: int)
    requires Live(s, funding) && WithdrawRemaining(s, s.oracle.value).Ok?
    ensures var t := Step(s, CallWithdraw(s.oracle.value));
      var r := SumOf(t.Held(t.winner), Remainder);
      && Short(t, funding, CeilFiftieth(r))
      && 0 <= CeilFiftieth(r) <= Holders(t)
      && (CeilFiftieth(r) == 0 <==> AllFifties(t.Held(t.winner)))
  {
    hide SumOf, Potential, CostFits, TokensConserved, WithdrawRemaining;
    if !s.resolved {
      NotYet(s);
    }
    WithdrawOutcome(s, funding);
    var t := Step(s, CallWithdraw(s.oracle.value));
    WithdrawKeepsClosed(s, funding, t.accounts);
    PayoutTotals(t.Held(t.winner));
  }

  lemma ShortfallStep(s: State, funding: int, d: int, call: Call)
    requires Short(s, funding, d)
    ensures Short(Step(s, call), funding, d)
  {
    hide SumOf, Potential, CostFits, TokensConserved, Claim, WithdrawRemaining;
    if call.CallClaim? {
      ClaimOutcome(s, funding, call.user);
      if Apply(s, call).Ok? {
        ClaimKeepsClosed(s, funding, call.user);
        SumUpdate(s.Held(s.winner), Payout, call.user, 0);
      }
    } else if call.CallWithdraw? {
      WithdrawOutcome(s, funding);
      if call.user != s.oracle.value {
        OnlyOracle(s, call.user);
      }
    } else if call.Outside? {
      OutsideStep(s, funding, call.user, call.to, call.amount);
    }
  }

  // Claims, failed calls and outside transfers do not change the shortfall.
  lemma {:induction false} ShortfallStays(s: State, funding: int, d: int, calls: seq<Call>)
    requires Short(s, funding, d)
    ensures Short(Run(s, calls), funding, d)
    decreases |calls|
  {
    if calls != [] {
      ShortfallStep(s, funding, d, calls[0]);
      hide Short, Step;
      ShortfallStays(Step(s, calls[0]), funding, d, calls[1..]);
    }
  }

  lemma {:induction false} SomeHolder(m: map<User, int>) returns (u: User)
    requires NonNegative(m) && SumOf(m, Whole) > 0
    ensures At(m, u) > 0
    decreases |m|
  {
    u :| u in m;
    if m[u] == 0 {
      SumWithout(m, Whole, u);
      u := SomeHolder(m - {u});
    }
  }

  // With no shortfall, every holder can claim in full in every later state, in any order; and once
  // all have claimed the pool is empty.
  lemma PaidInFull(s: State, funding: int, calls: seq<Call>, user: User)
    requires Short(s, funding, 0)
    ensures var t := Run(s, calls);
      var w := At(t.Held(t.winner), user);
      && (w > 0 ==> Claim(t, user).Ok? && Claim(t, user).value.amount == (49 * w + 49) / 50)
      && (t.unclaimed == 0 ==> t.pool == 0)
  {
    hide Run, SumOf, Claim, Potential, CostFits;
    ShortfallStays(s, funding, 0, calls);
    var t := Run(s, calls);
    var held := t.Held(t.winner);
    ClaimOutcome(t, funding, user);
    PayoutTotals(held);
    forall u | u in held
      ensures 0 <= Payout(held[u])
    {
      PayoutCeiling(held[u]);
    }
    SumAtLeast(held, Payout, user);
    WinningBalance(t, funding, user);
    PayoutCeiling(At(held, user));
  }

  // With no shortfall the remaining holders can be paid one after the other until none is left.
  lemma {:induction false} EveryoneCanClaim(s: State, funding: int) returns (calls: seq<Call>)
    requires Short(s, funding, 0)
    ensures Run(s, calls).unclaimed == 0
    decreases s.unclaimed
  {
    hide SumOf, Potential, CostFits, Claim, TokensConserved;
    calls := [];
    if s.unclaimed != 0 {
      var user := SomeHolder(s.Held(s.winner));
      var call := CallClaim(user);
      PaidInFull(s, funding, [], user);
      ClaimOutcome(s, funding, user);
      ShortfallStep(s, funding, 0, call);
      WinningBalance(s, funding, user);
      var rest := EveryoneCanClaim(Step(s, call), funding);
      calls := [call] + rest;
      assert calls[0] == call && calls[1..] == rest;
    }
  }

  // With a shortfall someone is always left unpaid.
  lemma SomeoneUnpaid(s: State, funding: int, d: int, calls: seq<Call>)
    requires Short(s, funding, d) && d > 0
    ensures d <= Owed(Run(s, calls)) && Run(s, calls).unclaimed > 0
  {
    hide Run, SumOf, Potential, CostFits;
    ShortfallStays(s, funding, d, calls);
    var t := Run(s, calls);
    PayoutTotals(t.Held(t.winner));
  }

  // After a withdrawal all holders can be paid exactly when every winning balance is a multiple of 50.
  lemma FullySettles(s: State, funding: int)
    requires Live(s, funding) && WithdrawRemaining(s, s.oracle.value).Ok?
    ensures var t := Step(s, CallWithdraw(s.oracle.value));
      (exists calls :: Run(t, calls).unclaimed == 0) <==> AllFifties(t.Held(t.winner))
  {
    var t := Step(s, CallWithdraw(s.oracle.value));
    hide *;
    WithdrawalShortfall(s, funding);
    var d := CeilFiftieth(SumOf(t.Held(t.winner), Remainder));
    if d == 0 {
      var calls := EveryoneCanClaim(t, funding);
    } else {
      forall calls
        ensures Run(t, calls).unclaimed > 0
      {
        SomeoneUnpaid(t, funding, d, calls);
      }
    }
  }

  // The smallest failing family: a single holder can claim after the withdrawal exactly when the
  // balance is a multiple of 50.
  lemma SoleHolder(s: State, funding: int, user: User)
    requires Live(s, funding) && WithdrawRemaining(s, s.oracle.value).Ok?
    requires At(s.Held(s.winner), user) == s.unclaimed > 0
    ensures var t := Step(s, CallWithdraw(s.oracle.value));
      Claim(t, user) ==
        if s.unclaimed % 50 == 0 then Ok(Done(Claimed(t, user), t.pool)) else Err(InsufficientPool)
  {
    hide SumOf, Potential, CostFits, TokensConserved, WithdrawRemaining, Claim;
    if !s.resolved {
      NotYet(s);
    }
    WithdrawOutcome(s, funding);
    var t := Step(s, CallWithdraw(s.oracle.value));
    WithdrawKeepsClosed(s, funding, t.accounts);
    ClaimOutcome(t, funding, user);
  }

  // ---- A run that strands a winner ----

  lemma RunThree(s: State, first: Call, second: Call, third: Call)
    ensures Run(s, [first, second, third]) == Step(Step(Step(s, first), second), third)
  {
    hide Step;
    var t := Step(s, first);
    var u := Step(t, second);
    assert [first, second, third][1..] == [second, third] && [second, third][1..] == [third];
    assert Run(s, [first, second, third]) == Run(t, [second, third]);
    assert Run(t, [second, third]) == Run(u, [third]);
    assert Run(u, [third]) == Run(Step(u, third), [third][1..]);
  }

  // The only buyer in a market, a resolution for that outcome, a withdrawal, and then a claim.
  lemma SoleBuyer(s: State, funding: int, user: User, amount: nat, limit: int)
    requires Open(s, funding) && s.yesSold == 0 && At(s.yesHeld, user) == 0 && amount % 50 != 0
    requires Buy(s, user, YES, amount, limit).Ok?
    ensures var oracle := s.oracle.value;
      var t := Step(Step(Step(s, CallBuy(user, YES, amount, limit)), CallResolve(oracle, YES)), CallWithdraw(oracle));
      t.resolved && At(t.Held(t.winner), user) == amount && Claim(t, user) == Err(InsufficientPool)
  {
    hide Buy, SumOf, Potential, CostFits, TokensConserved, WithdrawRemaining, Claim, TradeCost, TradeFits;
    var oracle := s.oracle.value;
    CheckFirst(s, CallBuy(user, YES, amount, limit));
    BuyOutcome(s, funding, user, YES, amount, limit);
    Trading.TradedMoves(s, funding, user, YES, amount);
    TradeKeepsOpen(s, funding, user, YES, amount);
    var bought := Step(s, CallBuy(user, YES, amount, limit));
    var resolved := Step(bought, CallResolve(oracle, YES));
    ResolveSettles(bought, funding, YES);
    WithdrawOutcome(resolved, funding);
    SoleHolder(resolved, funding, user);
  }

  // For example: b is 100 tokens, one user buys one unit more than 100 YES tokens, YES wins, the
  // oracle withdraws, and the winner cannot claim.
  lemma StrandedWinner(oracle: User, user: User)
    requires user != oracle
    ensures var accounts: map<Address, int> := map[oracle := 70 * SCALE, user := 200 * SCALE];
      var amount := 100 * SCALE + 1;
      var calls := [CallBuy(user, YES, amount, 200 * SCALE), CallResolve(oracle, YES), CallWithdraw(oracle)];
      && Initialize(Fresh(accounts), oracle, 100 * SCALE, 70 * SCALE).Ok?
      && var t := Run(Deployed(accounts, oracle, 100 * SCALE, 70 * SCALE), calls);
         t.resolved && At(t.Held(t.winner), user) == amount && Claim(t, user) == Err(InsufficientPool)
  {
    hide Buy, SumOf, Potential, CostFits, TokensConserved, WithdrawRemaining, Claim, Run, Resolve;
    var accounts: map<Address, int> := map[oracle := 70 * SCALE, user := 200 * SCALE];
    var amount := 100 * SCALE + 1;
    DeployOpens(accounts, oracle, 100 * SCALE, 70 * SCALE);
    var s := Deployed(accounts, oracle, 100 * SCALE, 70 * SCALE);
    Trading.LargePurchaseSucceeds(s, 70 * SCALE, user, YES, amount, 200 * SCALE);
    SoleBuyer(s, 70 * SCALE, user, amount, 200 * SCALE);
    RunThree(s, CallBuy(user, YES, amount, 200 * SCALE), CallResolve(oracle, YES), CallWithdraw(oracle));
  }
}
